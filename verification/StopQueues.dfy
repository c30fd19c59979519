// The queue of devices switched away from that still have to be told to stop:
// src/device/c64-device-switch.c, and the loop that drains it in
// c64_process_previous_device_stops of src/c64-source.c.
module StopQueues {
  import opened Words
  import opened Options

  const STOP_QUEUE_MAX: nat := 4
  const STOP_ATTEMPTS: nat := 5

  datatype Entry = Entry(host: string, port: u32, password: string, demotedUntil: u64, attempts: nat)

  // An empty host and the receive-only host have nothing to stop.
  predicate Stoppable(host: string) {
    host != "" && host != "0.0.0.0"
  }

  predicate IsFor(e: Entry, host: string, port: u32) {
    e.host == host && e.port == port
  }

  // ------------------------------------------------------------ specification

  ghost predicate Has(q: seq<Entry>, host: string, port: u32) {
    exists i :: 0 <= i < |q| && IsFor(q[i], host, port)
  }

  // Index of the first entry for host and port, or |q|.
  function Find(q: seq<Entry>, host: string, port: u32): (i: nat)
    ensures i <= |q|
    ensures i < |q| ==> IsFor(q[i], host, port)
    ensures forall j :: 0 <= j < i ==> !IsFor(q[j], host, port)
  {
    if q == [] then 0
    else if IsFor(q[0], host, port) then 0
    else 1 + Find(q[1..], host, port)
  }

  function Removed(q: seq<Entry>, i: nat): seq<Entry> {
    if i < |q| then q[..i] + q[i + 1..] else q
  }

  // What add drops to make room: the oldest entry of a full queue.
  function Overflow(q: seq<Entry>, host: string, port: u32): Option<Entry> {
    if Stoppable(host) && Find(q, host, port) == |q| == STOP_QUEUE_MAX then Some(q[0]) else None
  }

  function Added(q: seq<Entry>, e: Entry): seq<Entry> {
    var i := Find(q, e.host, e.port);
    if !Stoppable(e.host) then q
    else if i < |q| then q[i := e]
    else (if |q| == STOP_QUEUE_MAX then q[1..] else q) + [e]
  }

  function Cancelled(q: seq<Entry>, host: string, port: u32): seq<Entry> {
    Removed(q, Find(q, host, port))
  }

  // A failed stop, and giving up on the entry when it was the last attempt.
  function Failed(q: seq<Entry>, i: nat): seq<Entry>
    requires i < |q|
  {
    var e := q[i].(attempts := q[i].attempts + 1);
    if e.attempts >= STOP_ATTEMPTS then Removed(q, i) else q[i := e]
  }

  // No two entries for one device, none without a device, never more than four.
  ghost predicate Keyed(q: seq<Entry>) {
    && |q| <= STOP_QUEUE_MAX
    && (forall i :: 0 <= i < |q| ==> Stoppable(q[i].host))
    && (forall i, j :: 0 <= i < j < |q| ==> !IsFor(q[i], q[j].host, q[j].port))
  }

  // And none that has used up its attempts.
  ghost predicate Sound(q: seq<Entry>) {
    Keyed(q) && forall i :: 0 <= i < |q| ==> q[i].attempts < STOP_ATTEMPTS
  }

  lemma AddKeepsSound(q: seq<Entry>, e: Entry)
    requires Keyed(q)
    ensures Keyed(Added(q, e)) && (Sound(q) && e.attempts == 0 ==> Sound(Added(q, e)))
    // Exactly the device added, and not the one dropped, joins the others.
    ensures forall h, p :: Has(Added(q, e), h, p) <==>
              (Has(q, h, p) && !(Overflow(q, e.host, e.port).Some? && IsFor(Overflow(q, e.host, e.port).value, h, p)))
              || (Stoppable(e.host) && IsFor(e, h, p))
  {
    var r := Added(q, e);
    var i := Find(q, e.host, e.port);
    forall h, p
      ensures Has(r, h, p) <==>
              (Has(q, h, p) && !(Overflow(q, e.host, e.port).Some? && IsFor(Overflow(q, e.host, e.port).value, h, p)))
              || (Stoppable(e.host) && IsFor(e, h, p))
    {
      AddedHas(q, e, h, p);
    }
  }

  lemma AddedHas(q: seq<Entry>, e: Entry, h: string, p: u32)
    requires Keyed(q)
    ensures Has(Added(q, e), h, p) <==>
              (Has(q, h, p) && !(Overflow(q, e.host, e.port).Some? && IsFor(Overflow(q, e.host, e.port).value, h, p)))
              || (Stoppable(e.host) && IsFor(e, h, p))
  {
    var r := Added(q, e);
    var i := Find(q, e.host, e.port);
    if !Stoppable(e.host) {
    } else if i < |q| {
      assert r[i] == e;
      if Has(q, h, p) {
        var j :| 0 <= j < |q| && IsFor(q[j], h, p);
        assert IsFor(r[j], h, p);
      }
    } else {
      var d := if |q| == STOP_QUEUE_MAX then 1 else 0;
      assert r[|r| - 1] == e;
      if Has(q, h, p) {
        var j :| 0 <= j < |q| && IsFor(q[j], h, p);
        assert j >= d ==> r[j - d] == q[j];
      }
      if Has(r, h, p) {
        var j :| 0 <= j < |r| && IsFor(r[j], h, p);
        assert j < |r| - 1 ==> r[j] == q[j + d];
      }
    }
  }

  // A removal closes the gap: entry j comes from j or from its successor.
  lemma RemovedAt(q: seq<Entry>, i: nat, j: nat)
    requires i < |q| && j < |q| - 1
    ensures |Removed(q, i)| == |q| - 1 && Removed(q, i)[j] == q[if j < i then j else j + 1]
  {
  }

  lemma RemovedHas(q: seq<Entry>, i: nat, h: string, p: u32)
    requires Keyed(q) && i < |q|
    ensures Has(Removed(q, i), h, p) <==> Has(q, h, p) && !IsFor(q[i], h, p)
  {
    var r := Removed(q, i);
    if Has(r, h, p) {
      var j :| 0 <= j < |r| && IsFor(r[j], h, p);
      RemovedAt(q, i, j);
    }
    if Has(q, h, p) && !IsFor(q[i], h, p) {
      var j :| 0 <= j < |q| && IsFor(q[j], h, p);
      RemovedAt(q, i, if j < i then j else j - 1);
    }
  }

  lemma RemoveKeepsSound(q: seq<Entry>, i: nat)
    requires Keyed(q) && i < |q|
    ensures Keyed(Removed(q, i)) && (Sound(q) ==> Sound(Removed(q, i)))
    ensures forall h, p :: Has(Removed(q, i), h, p) <==> Has(q, h, p) && !IsFor(q[i], h, p)
  {
    forall j: nat | j < |q| - 1
      ensures Removed(q, i)[j] == q[if j < i then j else j + 1]
    {
      RemovedAt(q, i, j);
    }
    forall h, p
      ensures Has(Removed(q, i), h, p) <==> Has(q, h, p) && !IsFor(q[i], h, p)
    {
      RemovedHas(q, i, h, p);
    }
  }

  lemma CancelKeepsSound(q: seq<Entry>, host: string, port: u32)
    requires Keyed(q)
    ensures Keyed(Cancelled(q, host, port)) && (Sound(q) ==> Sound(Cancelled(q, host, port)))
    ensures forall h, p :: Has(Cancelled(q, host, port), h, p) <==> Has(q, h, p) && !(h == host && p == port)
  {
    var i := Find(q, host, port);
    if i < |q| {
      RemoveKeepsSound(q, i);
    }
  }

  lemma FailKeepsSound(q: seq<Entry>, i: nat)
    requires Sound(q) && i < |q|
    ensures Sound(Failed(q, i))
    ensures forall h, p :: Has(Failed(q, i), h, p) <==>
              Has(q, h, p) && !(q[i].attempts + 1 >= STOP_ATTEMPTS && IsFor(q[i], h, p))
  {
    if q[i].attempts + 1 >= STOP_ATTEMPTS {
      RemoveKeepsSound(q, i);
    } else {
      var r := Failed(q, i);
      forall h, p
        ensures Has(r, h, p) <==> Has(q, h, p)
      {
        assert forall j :: 0 <= j < |q| ==> (IsFor(r[j], h, p) <==> IsFor(q[j], h, p));
      }
    }
  }

  // Counting the failure before removing the entry makes no difference.
  lemma FailedTwoSteps(q: seq<Entry>, i: nat)
    requires i < |q| && q[i].attempts + 1 >= STOP_ATTEMPTS
    ensures Removed(q[i := q[i].(attempts := q[i].attempts + 1)], i) == Failed(q, i)
  {
  }

  lemma AddedKeyed(q: seq<Entry>, e: Entry)
    requires Keyed(q)
    ensures Keyed(Added(q, e))
  {
    AddKeepsSound(q, e);
  }

  lemma RemovedKeyed(q: seq<Entry>, i: nat)
    requires Keyed(q) && i < |q|
    ensures Keyed(Removed(q, i))
  {
    RemoveKeepsSound(q, i);
  }

  // ------------------------------------------------------------ the drain loop

  // What the loop observes while it handles one entry: a pending request (read
  // before, after choosing the client, between the two stops, and afterwards),
  // the selected device, and what the device answers.
  datatype Observation = Observation(requested: bool, currentHost: string, currentPort: u32, reachable: bool,
                                     interrupted: bool, videoStops: bool, requestedBetween: bool, audioStops: bool,
                                     requestedAfter: bool)

  datatype Fate = Yield | Fail | Drop

  // What happens to the entry the loop looks at.
  function EntryFate(e: Entry, o: Observation): Fate {
    if o.requested then Yield
    else if IsFor(e, o.currentHost, o.currentPort) then Drop
    else if !o.reachable then Fail
    else
      var video := !o.interrupted && o.videoStops;
      var audio := !o.interrupted && !o.requestedBetween && o.audioStops;
      if o.requestedAfter && !(video && audio) then Yield
      else if video && audio then Drop
      else Fail
  }

  datatype PassResult = PassResult(queue: seq<Entry>, finished: bool)

  // The pass from `index` on; observation n belongs to iteration n.
  function Pass(q: seq<Entry>, index: nat, env: nat -> Observation, n: nat): PassResult
    requires index <= |q|
    decreases |q| - index
  {
    if index == |q| then PassResult(q, true)
    else
      match EntryFate(q[index], env(n))
      case Yield => PassResult(q, false)
      case Drop => Pass(Removed(q, index), index, env, n + 1)
      case Fail =>
        if q[index].attempts + 1 >= STOP_ATTEMPTS then Pass(Failed(q, index), index, env, n + 1)
        else Pass(Failed(q, index), index + 1, env, n + 1)
  }

  lemma {:induction false} PassKeepsSound(q: seq<Entry>, index: nat, env: nat -> Observation, n: nat)
    requires Sound(q) && index <= |q|
    ensures Sound(Pass(q, index, env, n).queue)
    decreases |q| - index
  {
    if index < |q| {
      RemoveKeepsSound(q, index);
      FailKeepsSound(q, index);
      match EntryFate(q[index], env(n))
      case Yield =>
      case Drop => PassKeepsSound(Removed(q, index), index, env, n + 1);
      case Fail =>
        var next := if q[index].attempts + 1 >= STOP_ATTEMPTS then index else index + 1;
        PassKeepsSound(Failed(q, index), next, env, n + 1);
    }
  }

  // The entries before the index have been dealt with and are not touched again.
  lemma {:induction false} PassKeepsPrefix(q: seq<Entry>, index: nat, env: nat -> Observation, n: nat)
    requires index <= |q|
    ensures q[..index] <= Pass(q, index, env, n).queue
    decreases |q| - index
  {
    if index < |q| {
      match EntryFate(q[index], env(n))
      case Yield =>
      case Drop => PassKeepsPrefix(Removed(q, index), index, env, n + 1);
      case Fail =>
        if q[index].attempts + 1 >= STOP_ATTEMPTS {
          PassKeepsPrefix(Failed(q, index), index, env, n + 1);
        } else {
          PassKeepsPrefix(Failed(q, index), index + 1, env, n + 1);
          assert Failed(q, index)[..index + 1][..index] == q[..index];
        }
    }
  }

  lemma PassKeepsEntry(q: seq<Entry>, index: nat, env: nat -> Observation, n: nat, j: nat)
    requires j < index <= |q|
    ensures j < |Pass(q, index, env, n).queue| && Pass(q, index, env, n).queue[j] == q[j]
  {
    PassKeepsPrefix(q, index, env, n);
    assert q[..index][j] == q[j];
  }

  // With a stable selection a finished pass leaves no entry for the selected
  // device. That no stop follows its start is DeviceSwitch.SelectedIsLastStarted.
  lemma {:induction false} FinishedPassClearsSelected(q: seq<Entry>, index: nat, env: nat -> Observation, n: nat,
                                                      host: string, port: u32, i: nat)
    requires index <= |q| && Pass(q, index, env, n).finished
    requires forall k :: k >= n ==> env(k).currentHost == host && env(k).currentPort == port
    requires index <= i < |Pass(q, index, env, n).queue|
    ensures !IsFor(Pass(q, index, env, n).queue[i], host, port)
    decreases |q| - index
  {
    if index < |q| {
      match EntryFate(q[index], env(n))
      case Yield =>
      case Drop => FinishedPassClearsSelected(Removed(q, index), index, env, n + 1, host, port, i);
      case Fail =>
        assert !IsFor(q[index], host, port);
        if q[index].attempts + 1 >= STOP_ATTEMPTS {
          FinishedPassClearsSelected(Failed(q, index), index, env, n + 1, host, port, i);
        } else {
          if i > index {
            FinishedPassClearsSelected(Failed(q, index), index + 1, env, n + 1, host, port, i);
          } else {
            PassKeepsEntry(Failed(q, index), index + 1, env, n + 1, index);
          }
        }
    }
  }

  // Every survivor of a finished pass failed once more in it.
  ghost predicate AllTried(q: seq<Entry>, tries: nat) {
    forall i :: 0 <= i < |q| ==> q[i].attempts >= tries
  }

  lemma StepCountsFailure(q: seq<Entry>, index: nat, survives: bool, tries: nat)
    requires index < |q| && AllTried(q[..index], tries + 1) && AllTried(q[index..], tries)
    ensures survives ==> var r := q[index := q[index].(attempts := q[index].attempts + 1)];
              AllTried(r[..index + 1], tries + 1) && AllTried(r[index + 1..], tries)
    ensures !survives ==> AllTried(Removed(q, index)[..index], tries + 1) && AllTried(Removed(q, index)[index..], tries)
  {
    assert forall j :: 0 <= j < index ==> q[j] == q[..index][j];
    assert forall j :: index <= j < |q| ==> q[j] == q[index..][j - index];
  }

  lemma {:induction false} FinishedPassCountsFailure(q: seq<Entry>, index: nat, env: nat -> Observation, n: nat,
                                                     tries: nat)
    requires index <= |q| && Pass(q, index, env, n).finished
    requires AllTried(q[..index], tries + 1) && AllTried(q[index..], tries)
    ensures AllTried(Pass(q, index, env, n).queue, tries + 1)
    decreases |q| - index
  {
    if index < |q| {
      var fails := EntryFate(q[index], env(n)) == Fail;
      var survives := fails && q[index].attempts + 1 < STOP_ATTEMPTS;
      StepCountsFailure(q, index, survives, tries);
      var rest := if fails then Failed(q, index) else Removed(q, index);
      FinishedPassCountsFailure(rest, if survives then index + 1 else index, env, n + 1, tries);
    } else {
      assert q[..index] == q;
    }
  }

  lemma SpentQueueIsEmpty(q: seq<Entry>, tries: nat)
    requires Sound(q) && AllTried(q, tries)
    ensures tries >= STOP_ATTEMPTS ==> q == []
  {
    assert q != [] ==> q[0].attempts < STOP_ATTEMPTS;
  }

  // The queue after a number of finished passes without a new entry.
  function AfterPasses(q: seq<Entry>, envs: seq<nat -> Observation>): seq<Entry> {
    if envs == [] then q
    else Pass(AfterPasses(q, envs[..|envs| - 1]), 0, envs[|envs| - 1], 0).queue
  }

  ghost predicate AllFinish(q: seq<Entry>, envs: seq<nat -> Observation>) {
    forall i :: 0 <= i < |envs| ==> Pass(AfterPasses(q, envs[..i]), 0, envs[i], 0).finished
  }

  // Devices that cannot be stopped are given up on: five finished passes empty
  // the queue, whatever the devices answer.
  lemma {:induction false} PassesExhaustAttempts(q: seq<Entry>, envs: seq<nat -> Observation>)
    requires Sound(q) && AllFinish(q, envs)
    ensures Sound(AfterPasses(q, envs)) && AllTried(AfterPasses(q, envs), |envs|)
    ensures |envs| >= STOP_ATTEMPTS ==> AfterPasses(q, envs) == []
  {
    if envs != [] {
      var k := |envs| - 1;
      assert forall i :: 0 <= i < k ==> envs[..k][..i] == envs[..i];
      PassesExhaustAttempts(q, envs[..k]);
      var before := AfterPasses(q, envs[..k]);
      PassKeepsSound(before, 0, envs[k], 0);
      assert before[0..] == before;
      FinishedPassCountsFailure(before, 0, envs[k], 0, k);
      SpentQueueIsEmpty(AfterPasses(q, envs), |envs|);
    }
  }

  // ------------------------------------------------------------------ the queue

  const BLANK := Entry("", 0, "", 0, 0)

  class StopQueue {
    const entries: array<Entry>
    var count: nat

    ghost predicate Valid()
      reads this, entries
    {
      entries.Length == STOP_QUEUE_MAX && count <= STOP_QUEUE_MAX && Keyed(entries[..count])
    }

    ghost function Contents(): seq<Entry>
      requires Valid()
      reads this, entries
    {
      entries[..count]
    }

    constructor ()
      ensures Valid() && Contents() == [] && fresh(entries)
    {
      entries := new Entry[STOP_QUEUE_MAX](_ => BLANK);
      count := 0;
    }

    method FindIndex(host: string, port: u32) returns (i: nat)
      requires Valid()
      ensures i == Find(Contents(), host, port)
    {
      i := 0;
      while i < count
        invariant i <= count && Find(entries[..count], host, port) == i + Find(entries[i..count], host, port)
      {
        if IsFor(entries[i], host, port) {
          return;
        }
        assert entries[i..count][1..] == entries[i + 1..count];
        i := i + 1;
      }
    }

    method RemoveAt(index: nat)
      requires Valid()
      modifies this`count, entries
      ensures Valid() && Contents() == Removed(old(Contents()), index)
    {
      if index >= count {
        return;
      }
      ghost var q := entries[..count];
      RemovedKeyed(q, index);
      for j := index to count - 1
        invariant count == |q| <= entries.Length
        invariant forall p :: 0 <= p < index || j <= p < count ==> entries[p] == q[p]
        invariant forall p :: index <= p < j ==> entries[p] == q[p + 1]
      {
        assert entries[j + 1] == q[j + 1];
        entries[j] := entries[j + 1];
      }
      count := count - 1;
      entries[count] := BLANK;
      assert entries[..count] == Removed(q, index);
    }

    method Add(host: string, port: u32, password: string, demotedUntil: u64) returns (added: bool, dropped: string)
      requires Valid()
      modifies this`count, entries
      ensures Valid() && added == Stoppable(host)
      ensures Contents() == Added(old(Contents()), Entry(host, port, password, demotedUntil, 0))
      ensures dropped == match Overflow(old(Contents()), host, port) case Some(e) => e.host case None => ""
    {
      dropped := "";
      if host == "" || host == "0.0.0.0" {
        return false, dropped;
      }
      ghost var q := Contents();
      var e := Entry(host, port, password, demotedUntil, 0);
      AddedKeyed(q, e);
      var slot := FindIndex(host, port);
      ghost var known := slot < count;
      if slot == STOP_QUEUE_MAX {
        dropped := entries[0].host;
        RemoveAt(0);
        slot := count;
      }
      entries[slot] := e;
      if slot == count {
        count := count + 1;
      }
      assert entries[..count] == if known then q[slot := e] else entries[..slot] + [e];
      assert entries[..count] == Added(q, e);
      added := true;
    }

    method Cancel(host: string, port: u32) returns (found: bool)
      requires Valid()
      modifies this`count, entries
      ensures Valid() && Contents() == Cancelled(old(Contents()), host, port)
      ensures found <==> old(Has(Contents(), host, port))
    {
      var i := FindIndex(host, port);
      found := i < count;
      RemoveAt(i);
    }

    method RecordFailure(index: nat, maxAttempts: nat) returns (giveUp: bool)
      requires Valid()
      modifies entries
      ensures Valid()
      ensures index >= count ==> Contents() == old(Contents()) && !giveUp
      ensures index < count ==>
        var e := old(Contents())[index];
        && Contents() == old(Contents())[index := e.(attempts := e.attempts + 1)]
        && (giveUp <==> e.attempts + 1 >= maxAttempts)
    {
      if index >= count {
        return false;
      }
      ghost var q := Contents();
      entries[index] := entries[index].(attempts := entries[index].attempts + 1);
      assert entries[..count] == q[index := q[index].(attempts := q[index].attempts + 1)];
      giveUp := entries[index].attempts >= maxAttempts;
    }

    // A stop that did not succeed: counted, and given up on after the last attempt.
    method StopFailed(index: nat) returns (giveUp: bool)
      requires Valid() && Sound(Contents()) && index < count
      modifies this`count, entries
      ensures Valid() && Sound(Contents()) && Contents() == Failed(old(Contents()), index)
      ensures giveUp <==> old(Contents()[index].attempts) + 1 >= STOP_ATTEMPTS
    {
      ghost var q := Contents();
      FailKeepsSound(q, index);
      giveUp := RecordFailure(index, STOP_ATTEMPTS);
      if giveUp {
        FailedTwoSteps(q, index);
        RemoveAt(index);
      }
    }

    // c64_process_previous_device_stops. While the handover holds, the previous
    // devices keep streaming. The result says whether the handover is over.
    method ProcessStops(hold: bool, env: nat -> Observation) returns (handoverOver: bool)
      requires Valid() && Sound(Contents())
      modifies this`count, entries
      ensures Valid() && Sound(Contents())
      ensures hold && old(Contents()) != [] ==> Contents() == old(Contents()) && !handoverOver
      ensures !(hold && old(Contents()) != []) ==>
        var result := Pass(old(Contents()), 0, env, 0);
        Contents() == result.queue && (handoverOver <==> result.finished && result.queue == [])
    {
      if count > 0 && hold {
        return false;
      }
      ghost var result := Pass(Contents(), 0, env, 0);
      PassKeepsSound(Contents(), 0, env, 0);
      var index, n := 0, 0;
      while index < count
        invariant Valid() && Sound(Contents()) && index <= count
        invariant Pass(Contents(), index, env, n) == result
        decreases count - index
      {
        ghost var q := Contents();
        var fate := EntryFate(entries[index], env(n));
        if fate == Yield {
          return false;
        }
        if fate == Drop {
          RemoveKeepsSound(q, index);
          RemoveAt(index);
        } else {
          var giveUp := StopFailed(index);
          if !giveUp {
            index := index + 1;
          }
        }
        n := n + 1;
      }
      handoverOver := count == 0;
    }
  }
}
