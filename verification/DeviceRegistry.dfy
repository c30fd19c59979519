// Device discovery: the scan workers that claim hosts and collect results, and
// the registry the results are resolved into (src/device/c64-device-scan.c and
// src/device/c64-device.c).
module DeviceRegistry {
  import opened Options

  const DEVICE_MAX: nat := 64
  const MAX_RESULTS: nat := 64

  datatype Device = Device(id: string, name: string, host: string, peerHost: string, dns: string, videoPort: nat,
                           audioPort: nat, controlPort: nat)

  // ------------------------------------------------------------- the scan workers

  datatype Result = Result(device: Device, hostIndex: nat)

  datatype Pc = AtLoop | Probing(index: nat) | Exited

  datatype Scan = Scan(next: nat, phaseEnd: nat, retryUnmatched: bool, workers: map<nat, Pc>, results: seq<Result>,
                       // History: host indices claimed in this pass.
                       claimed: seq<nat>)

  datatype Action =
    | Spawn(worker: nat)
    | Claim(worker: nat, deadline: bool)
    | ProbeDone(worker: nat, match_: Option<Device>)
    | NextPhase(start: nat, end: nat)      // the second phase of a pass
    | RetryPass(start: nat, end: nat)      // a new pass over the hosts without a result

  predicate AllExited(s: Scan) {
    forall w :: w in s.workers ==> s.workers[w].Exited?
  }

  predicate Enabled(s: Scan, a: Action) {
    match a
    case Spawn(w) => w !in s.workers
    case Claim(w, _) => w in s.workers && s.workers[w].AtLoop?
    case ProbeDone(w, _) => w in s.workers && s.workers[w].Probing?
    case NextPhase(start, _) => AllExited(s) && s.next <= start
    case RetryPass(_, _) => AllExited(s)
  }

  predicate Matched(results: seq<Result>, index: nat) {
    exists i :: 0 <= i < |results| && results[i].hostIndex == index
  }

  function Next(s: Scan, a: Action): Scan
    requires Enabled(s, a)
  {
    match a
    case Spawn(w) => s.(workers := s.workers[w := AtLoop])
    case Claim(w, deadline) =>
      // One critical section: take an index, and look whether it has a result.
      if s.next >= s.phaseEnd then s.(workers := s.workers[w := Exited])
      else
        var skip := s.retryUnmatched && Matched(s.results, s.next);
        s.(next := s.next + 1, claimed := s.claimed + [s.next],
           workers := s.workers[w := if deadline then Exited else if skip then AtLoop else Probing(s.next)])
    case ProbeDone(w, m) =>
      s.(workers := s.workers[w := AtLoop],
         results := if m.Some? && |s.results| < MAX_RESULTS then s.results + [Result(m.value, s.workers[w].index)]
                    else s.results)
    case NextPhase(start, end) => s.(next := start, phaseEnd := end, workers := map[])
    case RetryPass(start, end) =>
      s.(next := start, phaseEnd := end, workers := map[], retryUnmatched := true, claimed := [])
  }

  ghost predicate ScanInv(s: Scan) {
    // No index is claimed twice in a pass, and none has two results.
    && (forall i :: 0 <= i < |s.claimed| ==> s.claimed[i] < s.next)
    && (forall i, j :: 0 <= i < j < |s.claimed| ==> s.claimed[i] != s.claimed[j])
    && (forall i, j :: 0 <= i < j < |s.results| ==> s.results[i].hostIndex != s.results[j].hostIndex)
    && (forall w :: w in s.workers && s.workers[w].Probing? ==>
          s.workers[w].index < s.next && !Matched(s.results, s.workers[w].index))
    && (forall v, w :: v in s.workers && w in s.workers && v != w && s.workers[v].Probing? && s.workers[w].Probing? ==>
          s.workers[v].index != s.workers[w].index)
    && (!s.retryUnmatched ==> forall i :: 0 <= i < |s.results| ==> s.results[i].hostIndex < s.next)
  }

  lemma ClaimStep(s: Scan, a: Action)
    requires ScanInv(s) && Enabled(s, a) && a.Claim?
    ensures ScanInv(Next(s, a))
  {
    // An index not claimed before in this pass, and without a result or skipped.
    assert forall i :: 0 <= i < |s.claimed| ==> s.claimed[i] != s.next;
    assert !s.retryUnmatched ==> !Matched(s.results, s.next);
  }

  lemma WorkerReturns(s: Scan, w: nat)
    requires ScanInv(s) && w in s.workers
    ensures ScanInv(s.(workers := s.workers[w := AtLoop]))
  {
  }

  // A result for an index without one, that no worker is probing any more.
  lemma ResultAdded(s: Scan, added: Result)
    requires ScanInv(s) && !Matched(s.results, added.hostIndex) && added.hostIndex < s.next
    requires forall w :: w in s.workers && s.workers[w].Probing? ==> s.workers[w].index != added.hostIndex
    ensures ScanInv(s.(results := s.results + [added]))
  {
    forall index
      ensures Matched(s.results + [added], index) <==> Matched(s.results, index) || index == added.hostIndex
    {
      MatchedGrows(s.results, added, index);
    }
    assert forall i :: 0 <= i < |s.results| ==> Matched(s.results, s.results[i].hostIndex);
  }

  lemma ProbeStep(s: Scan, a: Action)
    requires ScanInv(s) && Enabled(s, a) && a.ProbeDone?
    ensures ScanInv(Next(s, a))
  {
    WorkerReturns(s, a.worker);
    if a.match_.Some? && |s.results| < MAX_RESULTS {
      ResultAdded(s.(workers := s.workers[a.worker := AtLoop]), Result(a.match_.value, s.workers[a.worker].index));
    }
  }

  lemma ScanStep(s: Scan, a: Action)
    requires ScanInv(s) && Enabled(s, a)
    ensures ScanInv(Next(s, a))
  {
    match a
    case Claim(_, _) => ClaimStep(s, a);
    case ProbeDone(_, _) => ProbeStep(s, a);
    case _ =>
  }

  lemma MatchedGrows(results: seq<Result>, added: Result, index: nat)
    ensures Matched(results + [added], index) <==> Matched(results, index) || index == added.hostIndex
  {
    var longer := results + [added];
    assert longer[|results|] == added;
    if Matched(results, index) {
      var i :| 0 <= i < |results| && results[i].hostIndex == index;
      assert longer[i] == results[i];
    }
  }

  // Step i of the run is enabled where it is taken.
  ghost predicate Moves(states: seq<Scan>, acts: seq<Action>, i: nat)
    requires i < |acts| && |states| == |acts| + 1
  {
    Enabled(states[i], acts[i]) && states[i + 1] == Next(states[i], acts[i])
  }

  ghost predicate IsScan(states: seq<Scan>, acts: seq<Action>) {
    && |states| == |acts| + 1
    && forall i :: 0 <= i < |acts| ==> Moves(states, acts, i)
  }

  // However the workers interleave, over all phases and the retry pass: each
  // host index is claimed at most once a pass and has at most one result.
  lemma {:induction false} ScansClaimOnce(states: seq<Scan>, acts: seq<Action>, count: nat, i: nat)
    requires IsScan(states, acts) && states[0] == Scan(0, count, false, map[], [], []) && i < |states|
    ensures ScanInv(states[i])
  {
    if i > 0 {
      ScansClaimOnce(states, acts, count, i - 1);
      assert Moves(states, acts, i - 1);
      ScanStep(states[i - 1], acts[i - 1]);
    }
  }

  // ------------------------------------------------------------- the registry

  // An id that can name a file: not empty, without a separator or "..".
  predicate ValidId(id: string) {
    id != "" && '/' !in id && '\\' !in id && forall i :: 0 <= i < |id| - 1 ==> !(id[i] == '.' && id[i + 1] == '.')
  }

  predicate Alphanumeric(c: char) {
    'a' <= c <= 'z' || 'A' <= c <= 'Z' || '0' <= c <= '9'
  }

  function Lower(c: char): char {
    if 'A' <= c <= 'Z' then c - 'A' + 'a' else c
  }

  // Letters and digits in lower case, every run of anything else one dash.
  function Slug(s: string): string {
    if s == "" then ""
    else
      var before, c := Slug(s[..|s| - 1]), s[|s| - 1];
      if Alphanumeric(c) then before + [Lower(c)]
      else if before != "" && before[|before| - 1] != '-' then before + ['-']
      else before
  }

  function IdFromHost(host: string): string {
    var slug := Slug(host);
    if slug != "" && slug[|slug| - 1] == '-' then slug[..|slug| - 1] else slug
  }

  predicate SlugChar(c: char) {
    'a' <= c <= 'z' || '0' <= c <= '9' || c == '-'
  }

  // No leading dash, no two dashes in a row, nothing but slug characters.
  predicate IsSlug(s: string) {
    && (forall i :: 0 <= i < |s| ==> SlugChar(s[i]))
    && (s != "" ==> s[0] != '-')
    && (forall i :: 0 <= i < |s| - 1 ==> !(s[i] == '-' && s[i + 1] == '-'))
  }

  lemma {:induction false} SlugIsSlug(s: string)
    ensures IsSlug(Slug(s))
  {
    if s != "" {
      SlugIsSlug(s[..|s| - 1]);
    }
  }

  lemma {:induction false} SlugKeepsSlugs(s: string)
    requires IsSlug(s)
    ensures Slug(s) == s
  {
    if s != "" {
      SlugKeepsSlugs(s[..|s| - 1]);
      assert s == s[..|s| - 1] + [s[|s| - 1]];
    }
  }

  // A host-derived id is a valid id unless empty, and deriving it again from
  // itself changes nothing.
  lemma DerivedIdIsCanonical(host: string)
    ensures IdFromHost(host) != "" ==> ValidId(IdFromHost(host))
    ensures IdFromHost(IdFromHost(host)) == IdFromHost(host)
  {
    SlugIsSlug(host);
    var id := IdFromHost(host);
    assert IsSlug(id);
    SlugKeepsSlugs(id);
    assert forall i :: 0 <= i < |id| ==> SlugChar(id[i]);
  }

  ghost predicate DistinctIds(reg: seq<Device>) {
    |reg| <= DEVICE_MAX && forall i, j :: 0 <= i < j < |reg| ==> reg[i].id != reg[j].id
  }

  function FindId(reg: seq<Device>, id: string): (i: nat)
    ensures i <= |reg| && (i < |reg| ==> reg[i].id == id)
    ensures forall j :: 0 <= j < i ==> reg[j].id != id
  {
    if reg == [] then 0 else if reg[0].id == id then 0 else 1 + FindId(reg[1..], id)
  }

  // What the registry says about an id.
  function Lookup(reg: seq<Device>, id: string): Option<Device> {
    var i := FindId(reg, id);
    if i < |reg| then Some(reg[i]) else None
  }

  lemma LookupIs(reg: seq<Device>, i: nat)
    requires DistinctIds(reg) && i < |reg|
    ensures Lookup(reg, reg[i].id) == Some(reg[i])
  {
    assert FindId(reg, reg[i].id) == i;
  }

  function Named(d: Device): Device {
    if d.name == "" then d.(name := d.host) else d
  }

  predicate CanUpsert(reg: seq<Device>, d: Device, saved: bool) {
    saved && ValidId(d.id) && d.host != "" && (FindId(reg, d.id) < |reg| || |reg| < DEVICE_MAX)
  }

  function Upserted(reg: seq<Device>, d: Device): seq<Device> {
    var i := FindId(reg, d.id);
    if i < |reg| then reg[i := Named(d)] else reg + [Named(d)]
  }

  function Without(reg: seq<Device>, i: nat): seq<Device>
    requires i < |reg|
  {
    reg[..i] + reg[i + 1..]
  }

  function Deleted(reg: seq<Device>, id: string): seq<Device> {
    var i := FindId(reg, id);
    if i < |reg| then Without(reg, i) else reg
  }

  // The only entry an upsert writes is the one of its own id.
  lemma UpsertedAt(reg: seq<Device>, d: Device)
    ensures var r, i := Upserted(reg, d), FindId(reg, d.id);
            && i < |r| && r[i] == Named(d) && |reg| <= |r| <= |reg| + 1
            && forall k :: 0 <= k < |r| && k != i ==> k < |reg| && r[k] == reg[k]
  {
  }

  lemma UpsertedDistinct(reg: seq<Device>, d: Device)
    requires DistinctIds(reg) && (FindId(reg, d.id) < |reg| || |reg| < DEVICE_MAX)
    ensures DistinctIds(Upserted(reg, d))
  {
    UpsertedAt(reg, d);
  }

  lemma UpsertedLookup(reg: seq<Device>, d: Device, id: string)
    requires DistinctIds(reg) && (FindId(reg, d.id) < |reg| || |reg| < DEVICE_MAX)
    ensures DistinctIds(Upserted(reg, d))
    ensures Lookup(Upserted(reg, d), id) == if id == d.id then Some(Named(d)) else Lookup(reg, id)
  {
    UpsertedDistinct(reg, d);
    UpsertedAt(reg, d);
    var r, k := Upserted(reg, d), FindId(reg, id);
    if id == d.id {
      LookupIs(r, FindId(reg, id));
    } else if k < |reg| {
      LookupIs(r, k);
    }
  }

  // A removal closes the gap: entry k comes from k or from its successor.
  lemma WithoutAt(reg: seq<Device>, i: nat)
    requires i < |reg|
    ensures var r := Without(reg, i);
            |r| == |reg| - 1 && forall k :: 0 <= k < |r| ==> r[k] == reg[if k < i then k else k + 1]
  {
  }

  lemma WithoutLookup(reg: seq<Device>, i: nat, id: string)
    requires DistinctIds(reg) && i < |reg|
    ensures DistinctIds(Without(reg, i))
    ensures Lookup(Without(reg, i), id) == if id == reg[i].id then None else Lookup(reg, id)
  {
    WithoutAt(reg, i);
    var r, k := Without(reg, i), FindId(reg, id);
    if id != reg[i].id && k < |reg| {
      var m := if k < i then k else k - 1;
      assert r[m] == reg[k];
      LookupIs(r, m);
    }
  }

  lemma DeletedLookup(reg: seq<Device>, gone: string, id: string)
    requires DistinctIds(reg)
    ensures DistinctIds(Deleted(reg, gone))
    ensures Lookup(Deleted(reg, gone), id) == if id == gone then None else Lookup(reg, id)
  {
    var i := FindId(reg, gone);
    if i < |reg| {
      WithoutLookup(reg, i, id);
    }
  }

  // The host-keyed profile a first discovery of d takes over, if any.
  function LegacyProfile(reg: seq<Device>, d: Device): Option<Device> {
    var id := IdFromHost(d.host);
    if Lookup(reg, d.id).Some? || id == "" then None
    else match Lookup(reg, id) case Some(p) => (if p.host == d.host then Some(p) else None) case None => None
  }

  // The discovered device with the settings of the profile it belongs to.
  function Merged(reg: seq<Device>, d: Device): Device {
    var profile := if Lookup(reg, d.id).Some? then Lookup(reg, d.id) else LegacyProfile(reg, d);
    match profile
    case Some(p) => p.(id := d.id, host := d.host, peerHost := d.peerHost)
    case None => d
  }

  predicate CanDiscover(reg: seq<Device>, d: Device, saved: bool) {
    CanUpsert(reg, Merged(reg, d), saved)
  }

  function Discovered(reg: seq<Device>, d: Device, saved: bool, removed: bool): seq<Device> {
    if !CanDiscover(reg, d, saved) then reg
    else
      var r := Upserted(reg, Merged(reg, d));
      match LegacyProfile(reg, d)
      case Some(p) => if p.id != d.id && ValidId(p.id) && removed then Deleted(r, p.id) else r
      case None => r
  }

  // Discovery of a device changes its entry and at most one other: the profile
  // derived from its host, which it absorbs. The user's name and ports survive.
  lemma DiscoveryMerges(reg: seq<Device>, d: Device, saved: bool, removed: bool, id: string)
    requires DistinctIds(reg)
    ensures DistinctIds(Discovered(reg, d, saved, removed))
    ensures CanDiscover(reg, d, saved) ==>
      Lookup(Discovered(reg, d, saved, removed), id) ==
      if id == d.id then Some(Named(Merged(reg, d)))
      else if LegacyProfile(reg, d).Some? && id == LegacyProfile(reg, d).value.id && removed then None
      else Lookup(reg, id)
    ensures !CanDiscover(reg, d, saved) ==> Discovered(reg, d, saved, removed) == reg
  {
    if CanDiscover(reg, d, saved) {
      UpsertedLookup(reg, Merged(reg, d), id);
      var legacy := LegacyProfile(reg, d);
      if legacy.Some? {
        DerivedIdIsCanonical(d.host);
        DeletedLookup(Upserted(reg, Merged(reg, d)), legacy.value.id, id);
      }
    }
  }

  // -------------------------------------------------------- resolving results

  // Another address of the same device comes earlier in the enumeration.
  predicate Superseded(results: seq<Result>, i: nat)
    requires i < |results|
  {
    exists j :: 0 <= j < |results| && j != i && results[j].device.id == results[i].device.id
                && results[j].hostIndex < results[i].hostIndex
  }

  // Another address that answered for the same device.
  function OtherHost(results: seq<Result>, i: nat, j: nat): Option<string>
    requires i < |results| && j <= |results|
    decreases |results| - j
  {
    if j == |results| then None
    else if j != i && results[j].device.id == results[i].device.id && results[j].device.host != results[i].device.host
    then Some(results[j].device.host)
    else OtherHost(results, i, j + 1)
  }

  function Candidate(results: seq<Result>, i: nat): (d: Device)
    requires i < |results|
    ensures d.id == results[i].device.id && d.host == results[i].device.host
  {
    match OtherHost(results, i, 0)
    case Some(host) => results[i].device.(peerHost := host)
    case None => results[i].device
  }

  // What is registered for each result: nothing for a superseded one.
  function Chosen(results: seq<Result>): (c: seq<Option<Device>>)
    ensures |c| == |results|
  {
    seq(|results|, i requires 0 <= i < |results| =>
      if Superseded(results, i) then None else Some(Candidate(results, i)))
  }

  // Whether a profile could be written, and an absorbed one removed.
  datatype Files = Files(saved: bool, removed: bool)

  function Handled(reg: seq<Device>, choice: Option<Device>, f: Files): seq<Device> {
    match choice
    case Some(d) => Discovered(reg, d, f.saved, f.removed)
    case None => reg
  }

  // The registry after the first n choices; files(i) is what became of choice i.
  function Applied(reg: seq<Device>, chosen: seq<Option<Device>>, files: nat -> Files, n: nat): seq<Device>
    requires n <= |chosen|
  {
    if n == 0 then reg
    else Handled(Applied(reg, chosen, files, n - 1), chosen[n - 1], files(n - 1))
  }

  function Resolved(reg: seq<Device>, results: seq<Result>, files: nat -> Files): seq<Device> {
    Applied(reg, Chosen(results), files, |results|)
  }

  predicate Registrable(d: Device) {
    ValidId(d.id) && d.host != ""
  }

  // The ids the registry has once every result is in it.
  function Ids(reg: seq<Device>, results: seq<Result>): set<string> {
    (set d | d in reg :: d.id) + (set r | r in results :: r.device.id)
  }

  // Results a scan can hand over: one per host, for devices with an id and a
  // host, all of which the registry has room for.
  ghost predicate Resolvable(reg: seq<Device>, results: seq<Result>) {
    && DistinctIds(reg) && |Ids(reg, results)| <= DEVICE_MAX
    && (forall i, j :: 0 <= i < j < |results| ==>
          results[i].hostIndex != results[j].hostIndex && results[i].device.host != results[j].device.host)
    && (forall i :: 0 <= i < |results| ==> Registrable(results[i].device))
  }

  ghost predicate Registered(reg: seq<Device>, d: Device) {
    Lookup(reg, d.id).Some? && Lookup(reg, d.id).value.host == d.host
  }

  // Two devices at different addresses.
  predicate Apart(a: Device, b: Device) {
    a.id != b.id && a.host != b.host
  }

  ghost predicate IdsWithin(reg: seq<Device>, ids: set<string>) {
    forall i :: 0 <= i < |reg| ==> reg[i].id in ids
  }

  // A registry of some of these ids, and a device of another of them.
  ghost predicate Fits(reg: seq<Device>, d: Device, ids: set<string>) {
    DistinctIds(reg) && IdsWithin(reg, ids) && d.id in ids && |ids| <= DEVICE_MAX && Registrable(d)
  }

  lemma {:induction false} DistinctFit(reg: seq<Device>, ids: set<string>)
    requires DistinctIds(reg) && IdsWithin(reg, ids)
    ensures |reg| <= |ids|
  {
    if reg != [] {
      var n := |reg| - 1;
      DistinctFit(reg[..n], ids - {reg[n].id});
    }
  }

  // There is room for a device that is not on file.
  lemma RoomForNew(reg: seq<Device>, d: Device, ids: set<string>)
    requires Fits(reg, d, ids)
    ensures FindId(reg, d.id) < |reg| || |reg| < DEVICE_MAX
  {
    if FindId(reg, d.id) == |reg| {
      DistinctFit(reg, ids - {d.id});
    }
  }

  lemma DiscoveryKeepsIds(reg: seq<Device>, d: Device, f: Files, ids: set<string>)
    requires Fits(reg, d, ids)
    ensures var r := Discovered(reg, d, f.saved, f.removed); DistinctIds(r) && IdsWithin(r, ids)
  {
    var r := Discovered(reg, d, f.saved, f.removed);
    DiscoveryMerges(reg, d, f.saved, f.removed, d.id);
    forall i | 0 <= i < |r|
      ensures r[i].id in ids
    {
      LookupIs(r, i);
      DiscoveryMerges(reg, d, f.saved, f.removed, r[i].id);
    }
  }

  // A discovery that can be saved registers its host.
  lemma DiscoveryRegisters(reg: seq<Device>, d: Device, f: Files, ids: set<string>)
    requires Fits(reg, d, ids) && f.saved
    ensures Registered(Discovered(reg, d, f.saved, f.removed), d)
  {
    RoomForNew(reg, d, ids);
    DiscoveryMerges(reg, d, f.saved, f.removed, d.id);
    assert Merged(reg, d).host == d.host && Merged(reg, d).id == d.id;
  }

  // And none touches a device at another address: a profile is absorbed only
  // with the host it was derived from.
  lemma DiscoveryKeepsApart(reg: seq<Device>, d: Device, f: Files, e: Device)
    requires DistinctIds(reg) && Registered(reg, e) && Apart(e, d)
    ensures Registered(Discovered(reg, d, f.saved, f.removed), e)
  {
    DiscoveryMerges(reg, d, f.saved, f.removed, e.id);
  }

  ghost predicate Clean(reg: seq<Device>, chosen: seq<Option<Device>>, ids: set<string>) {
    && DistinctIds(reg) && IdsWithin(reg, ids) && |ids| <= DEVICE_MAX
    && (forall i :: 0 <= i < |chosen| && chosen[i].Some? ==> Registrable(chosen[i].value) && chosen[i].value.id in ids)
    && (forall i, j :: 0 <= i < j < |chosen| && chosen[i].Some? && chosen[j].Some? ==>
          Apart(chosen[i].value, chosen[j].value))
  }

  lemma HandledKeepsIds(reg: seq<Device>, choice: Option<Device>, f: Files, ids: set<string>)
    requires DistinctIds(reg) && IdsWithin(reg, ids) && (choice.Some? ==> Fits(reg, choice.value, ids))
    ensures DistinctIds(Handled(reg, choice, f)) && IdsWithin(Handled(reg, choice, f), ids)
  {
    match choice
    case Some(d) => DiscoveryKeepsIds(reg, d, f, ids);
    case None =>
  }

  lemma HandledKeepsRegistered(reg: seq<Device>, choice: Option<Device>, f: Files, ids: set<string>, e: Device)
    requires DistinctIds(reg) && (choice.Some? ==> Fits(reg, choice.value, ids))
    requires (choice == Some(e) && f.saved) || (Registered(reg, e) && (choice.Some? ==> Apart(e, choice.value)))
    ensures Registered(Handled(reg, choice, f), e)
  {
    match choice
    case Some(d) =>
      if d == e && f.saved {
        DiscoveryRegisters(reg, d, f, ids);
      } else {
        DiscoveryKeepsApart(reg, d, f, e);
      }
    case None =>
  }

  lemma {:induction false} AppliedKeepsIds(reg: seq<Device>, chosen: seq<Option<Device>>, files: nat -> Files, n: nat,
                                           ids: set<string>)
    requires Clean(reg, chosen, ids) && n <= |chosen|
    ensures DistinctIds(Applied(reg, chosen, files, n)) && IdsWithin(Applied(reg, chosen, files, n), ids)
  {
    if n > 0 {
      AppliedKeepsIds(reg, chosen, files, n - 1, ids);
      HandledKeepsIds(Applied(reg, chosen, files, n - 1), chosen[n - 1], files(n - 1), ids);
    }
  }

  lemma CleanChoice(reg: seq<Device>, chosen: seq<Option<Device>>, ids: set<string>, r: seq<Device>, n: nat, i: nat)
    requires Clean(reg, chosen, ids) && n < |chosen| && i <= n && chosen[i].Some?
    requires DistinctIds(r) && IdsWithin(r, ids)
    ensures chosen[n].Some? ==> Fits(r, chosen[n].value, ids)
    ensures i < n && chosen[n].Some? ==> Apart(chosen[i].value, chosen[n].value)
  {
  }

  // A chosen device that could be saved is registered once it was handled, and
  // stays, whatever becomes of the other files.
  lemma {:induction false} AppliedRegistersChosen(reg: seq<Device>, chosen: seq<Option<Device>>, files: nat -> Files,
                                                  n: nat, i: nat, ids: set<string>)
    requires Clean(reg, chosen, ids) && i < n <= |chosen| && chosen[i].Some? && files(i).saved
    ensures Registered(Applied(reg, chosen, files, n), chosen[i].value)
  {
    var r := Applied(reg, chosen, files, n - 1);
    AppliedKeepsIds(reg, chosen, files, n - 1, ids);
    CleanChoice(reg, chosen, ids, r, n - 1, i);
    if i < n - 1 {
      AppliedRegistersChosen(reg, chosen, files, n - 1, i, ids);
    }
    HandledKeepsRegistered(r, chosen[n - 1], files(n - 1), ids, chosen[i].value);
  }

  lemma ChosenIsClean(reg: seq<Device>, results: seq<Result>)
    requires Resolvable(reg, results)
    ensures Clean(reg, Chosen(results), Ids(reg, results))
  {
    var chosen := Chosen(results);
    forall i | 0 <= i < |chosen| && chosen[i].Some?
      ensures Registrable(chosen[i].value) && chosen[i].value.id in Ids(reg, results)
    {
      assert Registrable(results[i].device) && results[i] in results;
    }
    forall i, j | 0 <= i < j < |chosen| && chosen[i].Some? && chosen[j].Some?
      ensures Apart(chosen[i].value, chosen[j].value)
    {
      OnePerDevice(results, i, j);
    }
  }

  // The result with the lowest index of its device is the one registered.
  lemma EarliestIsRegistered(reg: seq<Device>, results: seq<Result>, files: nat -> Files, i: nat)
    requires Resolvable(reg, results) && i < |results| && !Superseded(results, i) && files(i).saved
    ensures Registered(Resolved(reg, results, files), results[i].device)
  {
    ChosenIsClean(reg, results);
    AppliedRegistersChosen(reg, Chosen(results), files, |results|, i, Ids(reg, results));
  }

  lemma OnePerDevice(results: seq<Result>, i: nat, j: nat)
    requires i <= j < |results| && !Superseded(results, i) && !Superseded(results, j)
    requires forall a, b :: 0 <= a < b < |results| ==> results[a].hostIndex != results[b].hostIndex
    ensures i == j || results[i].device.id != results[j].device.id
  {
  }

  // The result with the lowest host index among those of its device.
  lemma {:induction false} EarliestExists(results: seq<Result>, i: nat) returns (k: nat)
    requires i < |results|
    ensures k < |results| && results[k].device.id == results[i].device.id && !Superseded(results, k)
    ensures results[k].hostIndex <= results[i].hostIndex
    decreases results[i].hostIndex
  {
    if Superseded(results, i) {
      var j :| 0 <= j < |results| && j != i && results[j].device.id == results[i].device.id
               && results[j].hostIndex < results[i].hostIndex;
      k := EarliestExists(results, j);
    } else {
      k := i;
    }
  }

  ghost predicate AllSaved(files: nat -> Files, n: nat) {
    forall i :: 0 <= i < n ==> files(i).saved
  }

  // For every order in which the workers finish, each device is registered
  // under the same address, the one enumerated first: result k.
  lemma CompletionOrderIrrelevant(reg: seq<Device>, results: seq<Result>, files: nat -> Files, other: seq<Result>,
                                  otherFiles: nat -> Files, i: nat) returns (k: nat)
    requires Resolvable(reg, results) && Resolvable(reg, other) && i < |results|
    requires multiset(results) == multiset(other) && AllSaved(files, |results|) && AllSaved(otherFiles, |other|)
    ensures k < |results| && results[k].device.id == results[i].device.id && !Superseded(results, k)
    ensures Registered(Resolved(reg, results, files), results[k].device)
    ensures Registered(Resolved(reg, other, otherFiles), results[k].device)
  {
    k := EarliestExists(results, i);
    EarliestIsRegistered(reg, results, files, k);
    assert results[k] in multiset(other);
    var m :| 0 <= m < |other| && other[m] == results[k];
    if Superseded(other, m) {
      SupersededInAnyOrder(other, results, m, k);
    }
    EarliestIsRegistered(reg, other, otherFiles, m);
  }

  lemma SupersededInAnyOrder(results: seq<Result>, other: seq<Result>, i: nat, k: nat)
    requires i < |results| && Superseded(results, i) && multiset(results) == multiset(other)
    requires k < |other| && other[k] == results[i]
    ensures Superseded(other, k)
  {
    var j :| 0 <= j < |results| && j != i && results[j].device.id == results[i].device.id
             && results[j].hostIndex < results[i].hostIndex;
    assert results[j] in multiset(other);
    var l :| 0 <= l < |other| && other[l] == results[j];
    assert l != k;
  }

  method IsSuperseded(results: seq<Result>, i: nat) returns (superseded: bool)
    requires i < |results|
    ensures superseded <==> Superseded(results, i)
  {
    superseded := false;
    for j := 0 to |results|
      invariant superseded <==> exists m :: 0 <= m < j && m != i && results[m].device.id == results[i].device.id
                                            && results[m].hostIndex < results[i].hostIndex
    {
      if j != i && results[j].device.id == results[i].device.id && results[j].hostIndex < results[i].hostIndex {
        return true;
      }
    }
  }

  class Registry {
    var devices: seq<Device>

    ghost predicate Valid()
      reads this
    {
      DistinctIds(devices)
    }

    constructor ()
      ensures Valid() && devices == []
    {
      devices := [];
    }

    method Find(id: string) returns (i: nat)
      ensures i == FindId(devices, id)
    {
      i := 0;
      while i < |devices| && devices[i].id != id
        invariant i <= |devices| && FindId(devices, id) == i + FindId(devices[i..], id)
      {
        assert devices[i..][1..] == devices[i + 1..];
        i := i + 1;
      }
    }

    method Upsert(d: Device, saved: bool) returns (ok: bool)
      requires Valid()
      modifies this
      ensures Valid() && ok == CanUpsert(old(devices), d, saved)
      ensures devices == if ok then Upserted(old(devices), d) else old(devices)
    {
      if !ValidId(d.id) || d.host == "" {
        return false;
      }
      var index := Find(d.id);
      if index == |devices| == DEVICE_MAX {
        return false;
      }
      var copy := if d.name == "" then d.(name := d.host) else d;
      if !saved {
        return false;
      }
      UpsertedLookup(devices, d, d.id);
      devices := if index == |devices| then devices + [copy] else devices[index := copy];
      ok := true;
    }

    method Delete(id: string, removed: bool) returns (ok: bool)
      requires Valid()
      modifies this
      ensures Valid() && ok == (ValidId(id) && removed && FindId(old(devices), id) < |old(devices)|)
      ensures devices == if ok then Deleted(old(devices), id) else old(devices)
    {
      if !ValidId(id) {
        return false;
      }
      var index := Find(id);
      if index == |devices| || !removed {
        return false;
      }
      DeletedLookup(devices, id, id);
      devices := devices[..index] + devices[index + 1..];
      ok := true;
    }

    method UpsertDiscovered(d: Device, saved: bool, removed: bool) returns (ok: bool)
      requires Valid()
      modifies this
      ensures Valid() && ok == CanDiscover(old(devices), d, saved)
      ensures devices == Discovered(old(devices), d, saved, removed)
    {
      var merged, legacyId := d, "";
      var i := Find(d.id);
      if i == |devices| {
        var derived := IdFromHost(d.host);
        if derived != "" {
          i := Find(derived);
          if i < |devices| && devices[i].host == d.host {
            legacyId := derived;
          } else {
            i := |devices|;
          }
        }
      }
      if i < |devices| {
        merged := devices[i].(id := d.id, host := d.host, peerHost := d.peerHost);
      }
      assert merged == Merged(devices, d);
      DiscoveryMerges(devices, d, saved, removed, d.id);
      ok := Upsert(merged, saved);
      if ok && legacyId != "" && legacyId != merged.id {
        var gone := Delete(legacyId, removed);
      }
    }

    // apply_scan_results; files(i) is what becomes of the files of result i.
    method ApplyResults(results: seq<Result>, files: nat -> Files)
      requires Valid()
      modifies this
      ensures Valid() && devices == Resolved(old(devices), results, files)
    {
      for i := 0 to |results|
        invariant Valid() && devices == Applied(old(devices), Chosen(results), files, i)
      {
        var superseded := IsSuperseded(results, i);
        if !superseded {
          var ok := UpsertDiscovered(Candidate(results, i), files(i).saved, files(i).removed);
        }
      }
    }
  }
}
