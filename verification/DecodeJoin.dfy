// The join of the parallel uplink decoders: which table a subframe's receptions
// lead to, and that it does not depend on when the decoders finish.
module DecodeJoin {
  import opened UeState
  import opened UeTable
  import opened UlReception
  import opened ENodeB

  // One subframe's work: who is being decoded, with what final result.
  datatype Job = Job(active: seq<bool>, rx: seq<Reception>, pid: nat, frame: nat, sf: nat)

  // Active UEs have an RNTI and rounds inside the statistics tables.
  ghost predicate Fits(cfg: Config, tab: seq<Ue>, job: Job) {
    && cfg.Valid() && Shaped(cfg, tab) && Consistent(tab)
    && |job.active| == |job.rx| == |tab| && job.sf < 10 && job.pid < 8
    && forall i :: 0 <= i < |tab| && job.active[i] ==> tab[i].ulRnti > 0 && tab[i].ul.procs[job.pid].round < 8
  }

  // What becomes of UE i, the others apart.
  function Outcome(cfg: Config, tab: seq<Ue>, job: Job, i: nat): (u: Ue)
    requires Fits(cfg, tab, job) && i < |tab|
  {
    if job.active[i] then ReceiveAlone(cfg, tab[i], job.pid, job.frame, job.sf, job.rx[i]) else tab[i]
  }

  lemma FirstOfItsRnti(tab: seq<Ue>, i: nat)
    requires Distinct(tab) && i < |tab| && tab[i].crnti != 0
    ensures SlotOf(tab, tab[i].crnti, 0) == i
  {
    var k := SlotOf(tab, tab[i].crnti, 0);
    assert k <= i;
    assert tab[k].crnti == tab[i].crnti;
  }

  // A reception touches its own slot only: with distinct RNTIs even a removal does.
  lemma ReceptionIsLocal(cfg: Config, tab: seq<Ue>, i: nat, pid: nat, frame: nat, sf: nat, rx: Reception)
    requires cfg.Valid() && Shaped(cfg, tab) && Consistent(tab)
    requires i < |tab| && sf < 10 && Ready(cfg, tab[i], pid) && tab[i].crnti != 0
    ensures Received(cfg, tab, i, pid, frame, sf, rx) == tab[i := ReceiveAlone(cfg, tab[i], pid, frame, sf, rx)]
    ensures Consistent(Received(cfg, tab, i, pid, frame, sf, rx))
  {
    var f := Receive(cfg, tab[i], pid, frame, sf, rx);
    var t := tab[i := f.u];
    FirstOfItsRnti(t, i);
  }

  // The plain loop over UEs, from slot i on.
  function SequentialPass(cfg: Config, tab: seq<Ue>, job: Job, i: nat): (r: seq<Ue>)
    requires Fits(cfg, tab, job) && i <= |tab|
    ensures |r| == |tab|
    decreases |tab| - i
  {
    if i == |tab| then tab
    else if job.active[i] then
      ReceptionIsLocal(cfg, tab, i, job.pid, job.frame, job.sf, job.rx[i]);
      SequentialPass(cfg, Received(cfg, tab, i, job.pid, job.frame, job.sf, job.rx[i]),
                     job.(active := job.active[i := false]), i + 1)
    else SequentialPass(cfg, tab, job, i + 1)
  }

  lemma {:induction false} PassIsOutcome(cfg: Config, tab: seq<Ue>, job: Job, i: nat)
    requires Fits(cfg, tab, job) && i <= |tab|
    requires forall j :: 0 <= j < i ==> !job.active[j]
    ensures forall j :: 0 <= j < |tab| ==> SequentialPass(cfg, tab, job, i)[j] == Outcome(cfg, tab, job, j)
    decreases |tab| - i
  {
    if i < |tab| {
      if job.active[i] {
        ReceptionIsLocal(cfg, tab, i, job.pid, job.frame, job.sf, job.rx[i]);
        PassIsOutcome(cfg, Received(cfg, tab, i, job.pid, job.frame, job.sf, job.rx[i]),
                      job.(active := job.active[i := false]), i + 1);
      } else {
        PassIsOutcome(cfg, tab, job, i + 1);
      }
    }
  }

  // 1<<i
  function Mask(i: nat): bv32 {
    if i == 0 then 1 else Mask(i - 1) << 1
  }

  // The i-th binary digit of a word.
  predicate Digit(word: bv32, i: nat)
    decreases i
  {
    if i == 0 then word % 2 == 1 else Digit(word / 2, i - 1)
  }

  // complete_turbo & (1<<i)
  method TestBit(word: bv32, i: nat) returns (on: bool)
    ensures on <==> Digit(word, i)
  {
    var temp := word & Mask(i);
    TestsDigit(word, i, Mask(i));
    return temp != 0;
  }

  lemma {:induction false} TestsDigit(word: bv32, i: nat, mask: bv32)
    requires mask == Mask(i)
    ensures word & mask != 0 <==> Digit(word, i)
    decreases i
  {
    if i == 0 {
      LowestBit(word);
    } else {
      var half, before := word / 2, Mask(i - 1);
      MaskOfHalf(word, half, before, mask);
      TestsDigit(half, i - 1, before);
    }
  }

  lemma LowestBit(word: bv32)
    ensures word & 1 != 0 <==> word % 2 == 1
  {
  }

  lemma MaskOfHalf(word: bv32, half: bv32, mask: bv32, next: bv32)
    requires half == word / 2 && next == mask << 1
    ensures word & next != 0 <==> half & mask != 0
  {
  }

  // The decoders' word and results over time: digits are only ever set, from
  // look `covered` on every active UE's digit is, and a UE's result is final, as
  // in job.rx, from when its digit is set. Before that it may be anything.
  ghost predicate Completes(turbo: nat -> bv32, ret: (nat, nat) -> Reception, job: Job, covered: nat)
    requires |job.active| == |job.rx| <= 32
  {
    && (forall t: nat, u: nat, i: nat :: t <= u && i < |job.active| && Digit(turbo(t), i) ==> Digit(turbo(u), i))
    && (forall i: nat :: i < |job.active| && job.active[i] ==> Digit(turbo(covered), i))
    && (forall t: nat, i: nat :: i < |job.active| && Digit(turbo(t), i) ==> ret(t, i) == job.rx[i])
  }

  // The look at UE i in the k-th sweep over n UEs.
  function Look(n: nat, k: nat, i: nat): nat {
    k * n + i
  }

  // UE i need not be waited for at look t: it is not active or its decoder done.
  predicate Free(turbo: nat -> bv32, job: Job, i: nat, t: nat)
    requires i < |job.active|
  {
    job.active[i] ==> Digit(turbo(t), i)
  }

  // The k-th sweep is the first one that need not wait for UE i.
  ghost predicate FirstChance(turbo: nat -> bv32, job: Job, i: nat, k: nat)
    requires i < |job.active|
  {
    && Free(turbo, job, i, Look(|job.active|, k, i))
    && NoChance(turbo, job, i, k)
  }

  ghost predicate NoChance(turbo: nat -> bv32, job: Job, i: nat, k: nat)
    requires i < |job.active|
  {
    forall e: nat :: e < k ==> !Free(turbo, job, i, Look(|job.active|, e, i))
  }

  // The UEs were handled one after the other, each at its first chance.
  ghost predicate InTurn(turbo: nat -> bv32, job: Job, order: seq<nat>, sweeps: seq<nat>) {
    && |order| == |sweeps|
    && (forall a :: 0 <= a < |order| ==> order[a] < |job.active| && FirstChance(turbo, job, order[a], sweeps[a]))
    && (forall a, b :: 0 <= a < b < |order| ==>
          Look(|job.active|, sweeps[a], order[a]) < Look(|job.active|, sweeps[b], order[b]))
  }

  function Done(waiting: seq<bool>): nat {
    if waiting == [] then 0 else Done(waiting[..|waiting|-1]) + if waiting[|waiting|-1] then 0 else 1
  }

  lemma {:induction false} DoneUpdate(w: seq<bool>, i: nat)
    requires i < |w| && w[i]
    ensures Done(w[i := false]) == Done(w) + 1
  {
    if i < |w| - 1 {
      assert w[i := false][..|w|-1] == w[..|w|-1][i := false];
      DoneUpdate(w[..|w|-1], i);
    } else {
      assert w[i := false][..|w|-1] == w[..|w|-1];
    }
  }

  lemma {:induction false} DoneBound(w: seq<bool>)
    ensures Done(w) <= |w|
    ensures Done(w) == |w| <==> true !in w
    ensures Done(w) == 0 <==> false !in w
  {
    if w != [] {
      DoneBound(w[..|w|-1]);
      assert w == w[..|w|-1] + [w[|w|-1]];
    }
  }

  // The collecting loop of phy_procedures_eNB_uespec_RX. The n-th look at
  // complete_turbo sees turbo(n), and a decoding result taken then is ret(n, i).
  // `order` lists the UEs as they were handled, `sweeps` in which sweep each was:
  // in the first that need not wait for it.
  method Join(station: Station, job: Job, turbo: nat -> bv32, ret: (nat, nat) -> Reception, ghost covered: nat)
    returns (order: seq<nat>, sweeps: seq<nat>)
    requires station.Valid() && Fits(station.cfg, station.ues[..], job)
    requires station.ues.Length <= 32 && Completes(turbo, ret, job, covered)
    modifies station.ues
    ensures station.ues[..] == SequentialPass(station.cfg, old(station.ues[..]), job, 0)
    ensures |order| == |sweeps| == station.ues.Length
    ensures forall i :: 0 <= i < station.ues.Length ==> i in order
    ensures forall a, b :: 0 <= a < b < |order| ==> order[a] != order[b]
    ensures InTurn(turbo, job, order, sweeps)
  {
    var n := station.ues.Length;
    ghost var tab := station.ues[..];
    var waiting := new bool[n](_ => true);
    var complete, t, sweep := 0, 0, 0;
    order, sweeps := [], [];
    DoneBound(waiting[..]);
    while complete != n
      invariant JoinInv(station.cfg, tab, station.ues[..], job, waiting[..], order)
      invariant fresh(waiting) && complete == |order| <= n
      invariant t == Look(n, sweep, 0) && Timely(turbo, job, waiting[..], order, sweeps, sweep, 0)
      decreases if complete == n then 0 else 1 + if t < covered then covered - t else 0
    {
      order, sweeps, complete, t := Sweep(station, job, turbo, ret, t, covered, tab, waiting, order, sweeps, sweep);
      NextSweep(turbo, job, waiting[..], order, sweeps, sweep);
      sweep := sweep + 1;
      DoneBound(waiting[..]);
    }
    DoneBound(waiting[..]);
    AllInPlace(station.cfg, tab, station.ues[..], job, waiting[..], order);
  }

  // One pass over the UEs, complete_turbo being looked at anew for each.
  method Sweep(station: Station, job: Job, turbo: nat -> bv32, ret: (nat, nat) -> Reception, t0: nat, ghost covered: nat,
               ghost tab: seq<Ue>, waiting: array<bool>, order0: seq<nat>, sweeps0: seq<nat>, sweep: nat)
    returns (order: seq<nat>, sweeps: seq<nat>, complete: nat, t: nat)
    requires station.Valid() && station.ues.Length <= 32
    requires JoinInv(station.cfg, tab, station.ues[..], job, waiting[..], order0)
    requires Completes(turbo, ret, job, covered)
    requires t0 == Look(waiting.Length, sweep, 0) && Timely(turbo, job, waiting[..], order0, sweeps0, sweep, 0)
    modifies station.ues, waiting
    ensures JoinInv(station.cfg, tab, station.ues[..], job, waiting[..], order)
    ensures complete == |order| && t == t0 + station.ues.Length
    ensures Timely(turbo, job, waiting[..], order, sweeps, sweep, waiting.Length)
    ensures t0 >= covered ==> forall j :: 0 <= j < waiting.Length ==> !waiting[j]
  {
    order, sweeps, complete, t := order0, sweeps0, |order0|, t0;
    for i := 0 to station.ues.Length
      invariant JoinInv(station.cfg, tab, station.ues[..], job, waiting[..], order)
      invariant complete == |order| && t == t0 + i == Look(waiting.Length, sweep, i)
      invariant Timely(turbo, job, waiting[..], order, sweeps, sweep, i)
      invariant t0 >= covered ==> forall j :: 0 <= j < i ==> !waiting[j]
    {
      order, sweeps, complete := LookAt(station, job, turbo, ret, t, covered, tab, waiting, order, sweeps, sweep, i);
      t := t + 1;
    }
  }

  // One look at one UE.
  method LookAt(station: Station, job: Job, turbo: nat -> bv32, ret: (nat, nat) -> Reception, t: nat, ghost covered: nat,
                ghost tab: seq<Ue>, waiting: array<bool>, order0: seq<nat>, sweeps0: seq<nat>, sweep: nat, i: nat)
    returns (order: seq<nat>, sweeps: seq<nat>, complete: nat)
    requires station.Valid() && i < station.ues.Length <= 32
    requires JoinInv(station.cfg, tab, station.ues[..], job, waiting[..], order0)
    requires Completes(turbo, ret, job, covered)
    requires t == Look(waiting.Length, sweep, i) && Timely(turbo, job, waiting[..], order0, sweeps0, sweep, i)
    modifies station.ues, waiting
    ensures JoinInv(station.cfg, tab, station.ues[..], job, waiting[..], order)
    ensures complete == |order| && Timely(turbo, job, waiting[..], order, sweeps, sweep, i + 1)
    ensures forall j :: 0 <= j < waiting.Length && j != i ==> waiting[j] == old(waiting[j])
    ensures t >= covered ==> !waiting[i]
  {
    order, sweeps, complete := order0, sweeps0, |order0|;
    ghost var w := waiting[..];
    var ready := TestBit(turbo(t), i);
    if waiting[i] && (!job.active[i] || ready) {
      Handle(station, job, ret, t, tab, waiting, order, i);
      complete := complete + 1;
      TimelyHandled(turbo, job, w, order, sweeps, sweep, i);
      order, sweeps := order + [i], sweeps + [sweep];
    } else {
      TimelyPassed(turbo, job, w, order, sweeps, sweep, i);
    }
  }

  // What the loop does for UE i, at look t, when it neither waits for a decoder
  // nor has been handled before.
  method Handle(station: Station, job: Job, ret: (nat, nat) -> Reception, t: nat, ghost tab: seq<Ue>, waiting: array<bool>,
                ghost order: seq<nat>, i: nat)
    requires station.Valid()
    requires JoinInv(station.cfg, tab, station.ues[..], job, waiting[..], order)
    requires i < waiting.Length && waiting[i]
    requires job.active[i] ==> ret(t, i) == job.rx[i]
    modifies station.ues, waiting
    ensures JoinInv(station.cfg, tab, station.ues[..], job, waiting[..], order + [i])
    ensures waiting[..] == old(waiting[..])[i := false]
  {
    assert InPlace(station.cfg, tab, station.ues[..], job, waiting[..], i);
    Handled(station.cfg, tab, station.ues[..], job, waiting[..], order, i);
    waiting[i] := false;
    if job.active[i] {
      station.ReceiveUlsch(i, job.pid, job.frame, job.sf, ret(t, i));
    }
  }

  // Before UE i's turn in sweep k: the UEs handled were so at their first chance,
  // one after the other, and those still waited for have had none.
  ghost predicate Timely(turbo: nat -> bv32, job: Job, waiting: seq<bool>, order: seq<nat>, sweeps: seq<nat>, k: nat, i: nat) {
    && |waiting| == |job.active| && |order| == |sweeps|
    && (forall j :: 0 <= j < |waiting| && waiting[j] ==> NoChance(turbo, job, j, if j < i then k + 1 else k))
    && InTurn(turbo, job, order, sweeps)
    && (forall a :: 0 <= a < |order| ==> Look(|waiting|, sweeps[a], order[a]) < Look(|waiting|, k, i))
  }

  lemma TimelyHandled(turbo: nat -> bv32, job: Job, waiting: seq<bool>, order: seq<nat>, sweeps: seq<nat>, k: nat, i: nat)
    requires Timely(turbo, job, waiting, order, sweeps, k, i) && i < |waiting| && waiting[i]
    requires Free(turbo, job, i, Look(|waiting|, k, i))
    ensures Timely(turbo, job, waiting[i := false], order + [i], sweeps + [k], k, i + 1)
  {
  }

  lemma TimelyPassed(turbo: nat -> bv32, job: Job, waiting: seq<bool>, order: seq<nat>, sweeps: seq<nat>, k: nat, i: nat)
    requires Timely(turbo, job, waiting, order, sweeps, k, i) && i < |waiting|
    requires waiting[i] ==> !Free(turbo, job, i, Look(|waiting|, k, i))
    ensures Timely(turbo, job, waiting, order, sweeps, k, i + 1)
  {
  }

  lemma NextSweep(turbo: nat -> bv32, job: Job, waiting: seq<bool>, order: seq<nat>, sweeps: seq<nat>, k: nat)
    requires Timely(turbo, job, waiting, order, sweeps, k, |waiting|)
    ensures Timely(turbo, job, waiting, order, sweeps, k + 1, 0)
    ensures Look(|waiting|, k, |waiting|) == Look(|waiting|, k + 1, 0)
  {
  }

  // UE i has its outcome, or is as it was if it is still waited for.
  ghost predicate InPlace(cfg: Config, tab: seq<Ue>, now: seq<Ue>, job: Job, waiting: seq<bool>, i: nat)
    requires Fits(cfg, tab, job) && |now| == |tab| == |waiting| && i < |tab|
  {
    now[i] == if waiting[i] then tab[i] else Outcome(cfg, tab, job, i)
  }

  // UEs no longer waited for have their outcome and stand in `order` once; the
  // others are as they were.
  ghost predicate JoinInv(cfg: Config, tab: seq<Ue>, now: seq<Ue>, job: Job, waiting: seq<bool>, order: seq<nat>) {
    && Fits(cfg, tab, job)
    && |now| == |tab| == |waiting|
    && Shaped(cfg, now) && Consistent(now)
    && (forall i :: 0 <= i < |tab| ==> InPlace(cfg, tab, now, job, waiting, i))
    && |order| == Done(waiting)
    && (forall i :: i in order ==> i < |tab|)
    && (forall i :: 0 <= i < |tab| ==> (i in order <==> !waiting[i]))
    && (forall a, b :: 0 <= a < b < |order| ==> order[a] != order[b])
  }

  lemma Handled(cfg: Config, tab: seq<Ue>, now: seq<Ue>, job: Job, waiting: seq<bool>, order: seq<nat>, i: nat)
    requires JoinInv(cfg, tab, now, job, waiting, order)
    requires i < |tab| && waiting[i] && now[i] == tab[i]
    ensures
      var after := if job.active[i] then Received(cfg, now, i, job.pid, job.frame, job.sf, job.rx[i]) else now;
      JoinInv(cfg, tab, after, job, waiting[i := false], order + [i])
  {
    DoneUpdate(waiting, i);
    if job.active[i] {
      ReceptionIsLocal(cfg, now, i, job.pid, job.frame, job.sf, job.rx[i]);
    }
    var after := if job.active[i] then Received(cfg, now, i, job.pid, job.frame, job.sf, job.rx[i]) else now;
    var w := waiting[i := false];
    forall j | 0 <= j < |tab|
      ensures InPlace(cfg, tab, after, job, w, j)
    {
      assert InPlace(cfg, tab, now, job, waiting, j);
    }
  }

  lemma AllInPlace(cfg: Config, tab: seq<Ue>, now: seq<Ue>, job: Job, waiting: seq<bool>, order: seq<nat>)
    requires JoinInv(cfg, tab, now, job, waiting, order) && true !in waiting
    ensures now == SequentialPass(cfg, tab, job, 0)
  {
    PassIsOutcome(cfg, tab, job, 0);
    var pass := SequentialPass(cfg, tab, job, 0);
    forall j | 0 <= j < |tab|
      ensures now[j] == pass[j]
    {
      assert InPlace(cfg, tab, now, job, waiting, j);
    }
  }
}
