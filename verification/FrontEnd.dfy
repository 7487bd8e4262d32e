// The uplink front end: the sequential form, and what it means for two logs of
// signal-processing calls to do the same work.
module FrontEnd {

  // One call into the signal-processing library, on an absolute slot number.
  datatype Event =
    | Remove75(slot: nat)
    | Demod(symbol: nat, slot: nat)

  // The calls of a log that touch slot g, in order.
  function OnSlot(log: seq<Event>, g: nat): seq<Event> {
    if log == [] then []
    else
      var rest := OnSlot(log[..|log|-1], g);
      var e := log[|log|-1];
      if e.slot == g then rest + [e] else rest
  }

  lemma {:induction false} OnSlotMember(log: seq<Event>, i: nat)
    requires i < |log|
    ensures log[i] in OnSlot(log, log[i].slot)
  {
    if i < |log| - 1 {
      OnSlotMember(log[..|log|-1], i);
    }
  }

  lemma OnSlotAppend(log: seq<Event>, e: Event, g: nat)
    ensures OnSlot(log + [e], g) == if e.slot == g then OnSlot(log, g) + [e] else OnSlot(log, g)
  {
    assert (log + [e])[..|log + [e]|-1] == log;
  }

  // The i-th call that one slot needs: shift removal, then one demodulation
  // per symbol, in symbol order.
  function WorkItem(g: nat, i: nat): Event {
    if i == 0 then Remove75(g) else Demod(i - 1, g)
  }

  // The first n of those calls.
  function SlotWork(g: nat, n: nat): (r: seq<Event>)
    ensures |r| == n && forall i :: 0 <= i < n ==> r[i] == WorkItem(g, i)
  {
    if n == 0 then [] else SlotWork(g, n - 1) + [WorkItem(g, n - 1)]
  }

  // Slot work of one subframe with `half` symbols a slot, and nothing else.
  ghost predicate DoesSubframe(log: seq<Event>, half: nat, sf: nat)
  {
    BothSlots(log, 2 * sf, half + 1, half + 1)
  }

  // The log holds the first m calls on slot g and the first n on slot g + 1, in
  // any interleaving, and nothing else.
  ghost predicate BothSlots(log: seq<Event>, g: nat, m: nat, n: nat)
  {
    && OnSlot(log, g) == SlotWork(g, m)
    && OnSlot(log, g + 1) == SlotWork(g + 1, n)
    && forall e :: e in log ==> e.slot == g || e.slot == g + 1
  }

  lemma WorkAppend(log: seq<Event>, g: nat, m: nat, n: nat)
    requires BothSlots(log, g, m, n)
    ensures BothSlots(log + [WorkItem(g, m)], g, m + 1, n)
    ensures BothSlots(log + [WorkItem(g + 1, n)], g, m, n + 1)
  {
    var a, b := WorkItem(g, m), WorkItem(g + 1, n);
    OnSlotAppend(log, a, g);
    OnSlotAppend(log, a, g + 1);
    OnSlotAppend(log, b, g);
    OnSlotAppend(log, b, g + 1);
  }

  // The sequential front end works on both slots from one thread. The log
  // stands for the calls' effect on the sample buffers.
  class Receiver {
    const symbolsPerTti: nat
    var subframeRx: nat
    var log: seq<Event>

    constructor (symbolsPerTti: nat)
      ensures this.symbolsPerTti == symbolsPerTti && log == []
    {
      this.symbolsPerTti := symbolsPerTti;
      subframeRx := 0;
      log := [];
    }

    // eNB_fep_full: both removals first, then the two slots symbol by symbol.
    method FepFull()
      requires log == []
      modifies `log
      ensures DoesSubframe(log, symbolsPerTti / 2, subframeRx)
      ensures OnceInOrder(log, symbolsPerTti / 2, subframeRx)
    {
      var g := 2 * subframeRx;
      WorkAppend(log, g, 0, 0);
      log := log + [Remove75(g)];
      WorkAppend(log, g, 1, 0);
      log := log + [Remove75(g + 1)];
      for l := 0 to symbolsPerTti / 2
        invariant BothSlots(log, g, l + 1, l + 1)
      {
        WorkAppend(log, g, l + 1, l + 1);
        log := log + [Demod(l, g)];
        WorkAppend(log, g, l + 2, l + 1);
        log := log + [Demod(l, g + 1)];
      }
      SubframeMeans(log, symbolsPerTti / 2, subframeRx);
    }
  }

  // ----- What a log does to the sample buffers -----

  // Each call rewrites the buffer of its own slot, by an arbitrary function.
  function Replay<S>(sem: (Event, S) -> S, log: seq<Event>, buffers: map<nat, S>): (r: map<nat, S>)
    ensures r.Keys == buffers.Keys
  {
    if log == [] then buffers
    else
      var before := Replay(sem, log[..|log|-1], buffers);
      var e := log[|log|-1];
      if e.slot in before then before[e.slot := sem(e, before[e.slot])] else before
  }

  lemma {:induction false} ReplayIsSlotwise<S>(sem: (Event, S) -> S, log: seq<Event>, buffers: map<nat, S>, g: nat)
    requires g in buffers
    ensures Replay(sem, log, buffers)[g] == Replay(sem, OnSlot(log, g), buffers)[g]
  {
    if log != [] {
      var init, e := log[..|log|-1], log[|log|-1];
      ReplayIsSlotwise(sem, init, buffers, g);
      var rest := OnSlot(init, g);
      assert (rest + [e])[..|rest + [e]|-1] == rest;
    }
  }

  // Two logs that do the same subframe leave the same buffers, whatever the calls compute.
  lemma SameSubframeSameBuffers<S>(sem: (Event, S) -> S, a: seq<Event>, b: seq<Event>, half: nat, sf: nat, buffers: map<nat, S>)
    requires DoesSubframe(a, half, sf) && DoesSubframe(b, half, sf)
    ensures Replay(sem, a, buffers) == Replay(sem, b, buffers)
  {
    forall g | g in buffers
      ensures Replay(sem, a, buffers)[g] == Replay(sem, b, buffers)[g]
    {
      ReplayIsSlotwise(sem, a, buffers, g);
      ReplayIsSlotwise(sem, b, buffers, g);
      if g != 2 * sf && g != 2 * sf + 1 {
        NothingOnOtherSlots(a, g);
        NothingOnOtherSlots(b, g);
      }
    }
  }

  lemma NothingOnOtherSlots(log: seq<Event>, g: nat)
    requires forall e :: e in log ==> e.slot != g
    ensures OnSlot(log, g) == []
  {
    if log != [] {
      NothingOnOtherSlots(log[..|log|-1], g);
    }
  }

  // ----- Exactly once, and in order -----

  // How often e stands in the log.
  function Count(log: seq<Event>, e: Event): nat {
    if log == [] then 0
    else Count(log[..|log|-1], e) + if log[|log|-1] == e then 1 else 0
  }

  lemma {:induction false} CountOnSlot(log: seq<Event>, e: Event)
    ensures Count(log, e) == Count(OnSlot(log, e.slot), e)
  {
    if log != [] {
      var init, last := log[..|log|-1], log[|log|-1];
      CountOnSlot(init, e);
      var rest := OnSlot(init, e.slot);
      assert (rest + [last])[..|rest + [last]|-1] == rest;
    }
  }

  lemma {:induction false} WorkCount(w: seq<Event>, g: nat, k: nat)
    requires forall i :: 0 <= i < |w| ==> w[i] == WorkItem(g, i)
    ensures Count(w, WorkItem(g, k)) == if k < |w| then 1 else 0
  {
    if w != [] {
      WorkCount(w[..|w|-1], g, k);
    }
  }

  // Where the k-th call on slot g stands in the whole log.
  lemma {:induction false} Place(log: seq<Event>, g: nat, k: nat) returns (i: nat)
    requires k < |OnSlot(log, g)|
    ensures i < |log| && log[i] == OnSlot(log, g)[k] && OnSlot(log[..i], g) == OnSlot(log, g)[..k]
  {
    var init, e := log[..|log|-1], log[|log|-1];
    if e.slot == g && k == |OnSlot(init, g)| {
      i := |log| - 1;
    } else {
      i := Place(init, g, k);
      assert log[..i] == init[..i];
    }
  }

  lemma OffSlotBefore(log: seq<Event>, g: nat, j: nat, i: nat)
    requires j <= |log| && OnSlot(log[..j], g) == []
    ensures i < j ==> log[i].slot != g
  {
    if i < j {
      OnSlotMember(log[..j], i);
    }
  }

  // Every demodulation of the subframe has its own slot's removal before it.
  lemma RemovalComesFirst(log: seq<Event>, half: nat, sf: nat, i: nat)
    requires DoesSubframe(log, half, sf)
    requires i < |log| && log[i].Demod?
    ensures Remove75(log[i].slot) in log[..i]
  {
    var g := log[i].slot;
    assert log[i] in log;
    OnSlotMember(log, i);
    var j := Place(log, g, 0);
    assert j <= i by { OffSlotBefore(log, g, j, i); }
    assert log[..i][j] == log[j];
  }

  lemma SlotsOf(g: nat, sf: nat)
    ensures g / 2 == sf <==> g == 2 * sf || g == 2 * sf + 1
  {
  }

  lemma WorkOnce(log: seq<Event>, half: nat, sf: nat, g: nat, k: nat)
    requires DoesSubframe(log, half, sf)
    ensures Count(log, WorkItem(g, k)) == if k <= half && g / 2 == sf then 1 else 0
  {
    CountOnSlot(log, WorkItem(g, k));
    SlotsOf(g, sf);
    if g / 2 == sf {
      WorkCount(SlotWork(g, half + 1), g, k);
    } else {
      NothingOnOtherSlots(log, g);
    }
  }

  // Both slots of the subframe have their removal done exactly once and each of
  // symbols 0 to half-1 demodulated exactly once; no other slot is touched and no
  // other symbol demodulated.
  lemma EachCallOnce(log: seq<Event>, half: nat, sf: nat, g: nat, l: nat)
    requires DoesSubframe(log, half, sf)
    ensures Count(log, Remove75(g)) == if g / 2 == sf then 1 else 0
    ensures Count(log, Demod(l, g)) == if l < half && g / 2 == sf then 1 else 0
  {
    WorkOnce(log, half, sf, g, 0);
    WorkOnce(log, half, sf, g, l + 1);
  }

  // The symbols of a slot are demodulated in order.
  lemma SymbolsInOrder(log: seq<Event>, half: nat, sf: nat, i: nat, j: nat)
    requires DoesSubframe(log, half, sf) && i < |log| && j < |log| && NextSymbol(log[i], log[j])
    ensures i < j
  {
    var g, l := log[i].slot, log[i].symbol;
    InWork(log, half, sf, j);
    var p := Place(log, g, l + 1);
    var q := Place(log, g, l + 2);
    EachCallOnce(log, half, sf, g, l);
    EachCallOnce(log, half, sf, g, l + 1);
    OneIndex(log, i, p);
    OneIndex(log, j, q);
    PlacesInOrder(log, g, p, q);
  }

  lemma InWork(log: seq<Event>, half: nat, sf: nat, j: nat)
    requires DoesSubframe(log, half, sf) && j < |log| && log[j].Demod?
    ensures log[j].symbol < half && (log[j].slot == 2 * sf || log[j].slot == 2 * sf + 1)
  {
    CountsMember(log, j);
    EachCallOnce(log, half, sf, log[j].slot, log[j].symbol);
  }

  lemma {:induction false} CountsMember(log: seq<Event>, j: nat)
    requires j < |log|
    ensures Count(log, log[j]) > 0
  {
    if j < |log| - 1 {
      CountsMember(log[..|log|-1], j);
    }
  }

  // What stands once stands at one place.
  lemma {:induction false} OneIndex(log: seq<Event>, i: nat, j: nat)
    requires i < |log| && j < |log| && log[i] == log[j] && Count(log, log[i]) <= 1
    ensures i == j
  {
    var last := |log| - 1;
    if i < last && j < last {
      OneIndex(log[..last], i, j);
    } else if i < last {
      CountsMember(log[..last], i);
    } else if j < last {
      CountsMember(log[..last], j);
    }
  }

  // Fewer calls on the slot before it: earlier in the log.
  lemma PlacesInOrder(log: seq<Event>, g: nat, p: nat, q: nat)
    requires p < |log| && q < |log| && |OnSlot(log[..p], g)| < |OnSlot(log[..q], g)|
    ensures p < q
  {
    if q <= p {
      assert log[..p][..q] == log[..q];
      OnSlotGrows(log[..p], g, q);
    }
  }

  lemma {:induction false} OnSlotGrows(log: seq<Event>, g: nat, n: nat)
    requires n <= |log|
    ensures |OnSlot(log[..n], g)| <= |OnSlot(log, g)|
  {
    if n < |log| {
      assert log[..|log|-1][..n] == log[..n];
      OnSlotGrows(log[..|log|-1], g, n);
    } else {
      assert log[..n] == log;
    }
  }

  // What a log that does a subframe amounts to, call by call.
  ghost predicate OnceInOrder(log: seq<Event>, half: nat, sf: nat) {
    && (forall g: nat :: Count(log, Remove75(g)) == if g / 2 == sf then 1 else 0)
    && (forall g: nat, l: nat :: Count(log, Demod(l, g)) == if l < half && g / 2 == sf then 1 else 0)
    && (forall i :: 0 <= i < |log| && log[i].Demod? ==> Remove75(log[i].slot) in log[..i])
    && (forall i, j :: 0 <= i < |log| && 0 <= j < |log| && NextSymbol(log[i], log[j]) ==> i < j)
  }

  predicate NextSymbol(a: Event, b: Event) {
    a.Demod? && b == Demod(a.symbol + 1, a.slot)
  }

  lemma SubframeMeans(log: seq<Event>, half: nat, sf: nat)
    requires DoesSubframe(log, half, sf)
    ensures OnceInOrder(log, half, sf)
  {
    forall g: nat
      ensures Count(log, Remove75(g)) == if g / 2 == sf then 1 else 0
    {
      EachCallOnce(log, half, sf, g, 0);
    }
    forall g: nat, l: nat
      ensures Count(log, Demod(l, g)) == if l < half && g / 2 == sf then 1 else 0
    {
      EachCallOnce(log, half, sf, g, l);
    }
    forall i | 0 <= i < |log| && log[i].Demod?
      ensures Remove75(log[i].slot) in log[..i]
    {
      RemovalComesFirst(log, half, sf, i);
    }
    forall i, j | 0 <= i < |log| && 0 <= j < |log| && NextSymbol(log[i], log[j])
      ensures i < j
    {
      SymbolsInOrder(log, half, sf, i, j);
    }
  }
}
