/** Lamport clocks of services/runtime/src/device-compatibility.ts, and runs of any number of devices
    that tick, exchange stamps and observe them. */
module LogicalClocks {

  datatype Stamp = Stamp(counter: int, deviceId: string)

  /** A comparison of identifiers by sign, as a strict total order. */
  type IdComparison = (string, string) -> int

  ghost predicate StrictTotalOrder(compareIds: IdComparison) {
    && (forall a, b :: compareIds(a, b) == 0 <==> a == b)
    && (forall a, b :: compareIds(a, b) < 0 <==> compareIds(b, a) > 0)
    && (forall a, b, c :: compareIds(a, b) < 0 && compareIds(b, c) < 0 ==> compareIds(a, c) < 0)
  }

  function Compare(compareIds: IdComparison, left: Stamp, right: Stamp): int {
    if left.counter != right.counter then left.counter - right.counter else compareIds(left.deviceId, right.deviceId)
  }

  datatype Event = Tick(device: string) | Observe(device: string, remote: Stamp)

  function NextCounter(counter: int, e: Event): int {
    match e
    case Tick(_) => counter + 1
    case Observe(_, remote) => (if counter >= remote.counter then counter else remote.counter) + 1
  }

  class LogicalClock {
    const deviceId: string
    var counter: int

    constructor (deviceId: string)
      ensures this.deviceId == deviceId && counter == 0
    {
      this.deviceId := deviceId;
      counter := 0;
    }

    method Tick() returns (stamp: Stamp)
      modifies this
      ensures counter == NextCounter(old(counter), Event.Tick(deviceId)) && counter == old(counter) + 1
      ensures stamp == Stamp(counter, deviceId)
    {
      counter := counter + 1;
      stamp := Stamp(counter, deviceId);
    }

    method Observe(remote: Stamp) returns (stamp: Stamp)
      modifies this
      ensures counter == NextCounter(old(counter), Event.Observe(deviceId, remote))
      ensures counter > remote.counter && counter > old(counter)
      ensures counter == old(counter) + 1 || counter == remote.counter + 1
      ensures stamp == Stamp(counter, deviceId)
    {
      counter := (if counter >= remote.counter then counter else remote.counter) + 1;
      stamp := Stamp(counter, deviceId);
    }
  }

  /** The counter of a device after a run of events; each device starts at zero. */
  ghost function CounterAfter(events: seq<Event>, device: string): int {
    if events == [] then 0
    else
      var before := CounterAfter(events[..|events| - 1], device);
      var last := events[|events| - 1];
      if last.device == device then NextCounter(before, last) else before
  }

  /** The stamp issued by event i. */
  ghost function StampOf(events: seq<Event>, i: nat): Stamp
    requires i < |events|
  {
    Stamp(CounterAfter(events[..i + 1], events[i].device), events[i].device)
  }

  /** Event i precedes event j on the same device, or j observes the stamp that i issued. */
  ghost predicate Precedes(events: seq<Event>, i: nat, j: nat)
    requires i < |events| && j < |events|
  {
    i < j && (events[i].device == events[j].device || (events[j].Observe? && events[j].remote == StampOf(events, i)))
  }

  ghost predicate IsChain(events: seq<Event>, chain: seq<nat>) {
    && |chain| > 0 && (forall k :: 0 <= k < |chain| ==> chain[k] < |events|)
    && forall k {:trigger chain[k]} :: 0 <= k < |chain| - 1 ==> Precedes(events, chain[k], chain[k + 1])
  }

  ghost predicate HappensBefore(events: seq<Event>, i: nat, j: nat) {
    exists chain :: IsChain(events, chain) && |chain| >= 2 && chain[0] == i && chain[|chain| - 1] == j
  }

  /** Main result: what happens before has the smaller stamp, whatever the order of identifiers. */
  lemma HappensBeforeIsOrdered(compareIds: IdComparison, events: seq<Event>, i: nat, j: nat)
    requires i < |events| && j < |events| && HappensBefore(events, i, j)
    ensures Compare(compareIds, StampOf(events, i), StampOf(events, j)) < 0
  {
    var chain :| IsChain(events, chain) && |chain| >= 2 && chain[0] == i && chain[|chain| - 1] == j;
    ChainGrows(events, chain);
  }

  lemma {:induction false} ChainGrows(events: seq<Event>, chain: seq<nat>)
    requires IsChain(events, chain) && |chain| >= 2
    ensures StampOf(events, chain[0]).counter < StampOf(events, chain[|chain| - 1]).counter
    decreases |chain|
  {
    hide StampOf, Precedes;
    var n := |chain| - 1;
    assert Precedes(events, chain[n - 1], chain[n - 1 + 1]);
    StepGrows(events, chain[n - 1], chain[n]);
    if n > 1 {
      ChainGrows(events, chain[..n]);
    }
  }

  lemma StepGrows(events: seq<Event>, i: nat, j: nat)
    requires i < |events| && j < |events| && Precedes(events, i, j)
    ensures StampOf(events, i).counter < StampOf(events, j).counter
  {
    assert events[..j + 1][..j] == events[..j];
    if events[i].device == events[j].device {
      CounterNeverFalls(events, events[i].device, i + 1, j);
    }
  }

  lemma {:induction false} CounterNeverFalls(events: seq<Event>, device: string, m: nat, n: nat)
    requires m <= n <= |events|
    ensures CounterAfter(events[..m], device) <= CounterAfter(events[..n], device)
    decreases n - m
  {
    if m < n {
      CounterNeverFalls(events, device, m, n - 1);
      assert events[..n][..n - 1] == events[..n - 1];
    }
  }

  /** All stamps of a run are distinct, so a strict total order of identifiers orders them totally. */
  lemma StampsAreDistinct(compareIds: IdComparison, events: seq<Event>, i: nat, j: nat)
    requires StrictTotalOrder(compareIds) && i < |events| && j < |events| && i != j
    ensures StampOf(events, i) != StampOf(events, j)
    ensures Compare(compareIds, StampOf(events, i), StampOf(events, j)) < 0
            <==> !(Compare(compareIds, StampOf(events, j), StampOf(events, i)) < 0)
  {
    if events[i].device == events[j].device {
      if i < j {
        StepGrows(events, i, j);
      } else {
        StepGrows(events, j, i);
      }
    }
  }

  /** Older stamps come first, and equal counters are decided by the devices. */
  lemma CompareIsOrder(compareIds: IdComparison, a: Stamp, b: Stamp)
    requires StrictTotalOrder(compareIds)
    ensures Compare(compareIds, a, b) < 0 <==>
              a.counter < b.counter || (a.counter == b.counter && compareIds(a.deviceId, b.deviceId) < 0)
    ensures Compare(compareIds, a, b) == 0 <==> a == b
    ensures Compare(compareIds, a, b) > 0 <==> Compare(compareIds, b, a) < 0
  {
  }

  lemma CompareIsTransitive(compareIds: IdComparison, a: Stamp, b: Stamp, c: Stamp)
    requires StrictTotalOrder(compareIds)
    requires Compare(compareIds, a, b) < 0 && Compare(compareIds, b, c) < 0
    ensures Compare(compareIds, a, c) < 0
  {
    if a.counter == b.counter == c.counter {
      assert compareIds(a.deviceId, b.deviceId) < 0 && compareIds(b.deviceId, c.deviceId) < 0;
    }
  }

  /** A comparison is an answer about the run only in one direction: two devices that never hear from each
      other have ordered stamps without either happening before the other. */
  lemma OrderIsNotCausality() returns (events: seq<Event>)
    ensures |events| == 3 && StampOf(events, 0).counter < StampOf(events, 2).counter && !HappensBefore(events, 0, 2)
  {
    events := [Tick("a"), Tick("b"), Tick("b")];
    assert events[..1] == [Tick("a")] && events[..2] == [Tick("a"), Tick("b")] && events[..3] == events;
    assert [Tick("a")][..0] == [] && [Tick("a"), Tick("b")][..1] == [Tick("a")];
    assert CounterAfter([], "a") == 0 && CounterAfter([], "b") == 0;
    assert CounterAfter([Tick("a")], "a") == 1 && CounterAfter([Tick("a")], "b") == 0;
    assert CounterAfter(events[..2], "b") == 1;
    assert CounterAfter(events, "b") == 2;
    TicksStayApart(events, 0, 2);
  }

  /** Without any observation nothing on one device happens before anything on another. */
  lemma TicksStayApart(events: seq<Event>, i: nat, j: nat)
    requires i < |events| && j < |events| && events[i].device != events[j].device
    requires forall k :: 0 <= k < |events| ==> events[k].Tick?
    ensures !HappensBefore(events, i, j)
  {
    if HappensBefore(events, i, j) {
      var chain :| IsChain(events, chain) && |chain| >= 2 && chain[0] == i && chain[|chain| - 1] == j;
      StaysOnDevice(events, chain, |chain| - 1);
    }
  }

  lemma {:induction false} StaysOnDevice(events: seq<Event>, chain: seq<nat>, k: nat)
    requires IsChain(events, chain) && k < |chain| && forall i :: 0 <= i < |events| ==> events[i].Tick?
    ensures events[chain[k]].device == events[chain[0]].device
  {
    if k > 0 {
      StaysOnDevice(events, chain, k - 1);
      assert Precedes(events, chain[k - 1], chain[k - 1 + 1]);
    }
  }
}
