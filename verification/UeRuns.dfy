// Whole runs of the UE's random access in FDD, with MAC's contention-resolution
// timer: exactly when the UE transmits, that it stops, and whether it sends Msg3
// when the eNodeB listens for it.
module UeRuns {
  import opened Arithmetic
  import opened UeState
  import opened Msg3Timing
  import opened UlReception
  import opened RandomAccess
  import opened UeAccess

  // A run from time n on: what each subframe brings, the UE before it, and whether
  // it prepares a transmission. On processes that the eNodeB has not answered the
  // PHICH detector may say anything.
  datatype UeRun = UeRun(n: nat, inputs: seq<Input>, states: seq<State>, sent: seq<bool>)

  ghost predicate RunsFrom(cell: Cell, s: State, u: UeRun) {
    && |u.states| == |u.inputs| + 1 && |u.sent| == |u.inputs|
    && u.states[0] == s
    && forall j :: 0 <= j < |u.inputs| ==> Passes(cell, u, j)
  }

  ghost predicate Passes(cell: Cell, u: UeRun, j: nat)
    requires |u.states| == |u.inputs| + 1 && |u.sent| == |u.inputs| && j < |u.inputs|
  {
    && u.states[j].access.Valid()
    && (u.states[j + 1], u.sent[j]) == UeSubframe(cell, u.states[j], u.n + j, u.inputs[j])
  }

  // Not connected, no process in use, the timer stopped.
  predicate AtRest(s: State) {
    s.access.Quiet() && s.mode != Pusch && !s.timerOn
  }

  // No contention resolution.
  predicate Undecided(x: Input) {
    x.downlink == NoDownlink || x.downlink == Data
  }

  // In the first len subframes a grant comes in the first, and no other grant and
  // no contention resolution.
  predicate GrantOnly(u: UeRun, len: nat) {
    && len <= |u.inputs|
    && forall k :: 0 <= k < len ==>
         Undecided(u.inputs[k]) && (u.inputs[k].rar <==> k == 0) && (k == 0 ==> u.inputs[k].downlink == NoDownlink)
  }

  // UE_mode of random access, or already PUSCH.
  predicate InAccess(mode: Mode) {
    mode == RaResponse || mode == Pusch
  }

  // One access, granted at rest, in its first len subframes.
  ghost predicate IsAccess(cell: Cell, s: State, u: UeRun, len: nat) {
    AtRest(s) && RunsFrom(cell, s, u) && GrantOnly(u, len)
  }

  function Naks(inputs: seq<Input>): (r: seq<bool>) {
    seq(|inputs|, i requires 0 <= i < |inputs| => inputs[i].nak)
  }

  // r is what the physical layer would do from the grant on if MAC left it alone.
  ghost predicate Shadows(cell: Cell, s: State, u: UeRun, r: Run) {
    && s.access.Valid() && Starts(cell.maxTx, r, AfterGrant(s.access, u.n)) && r.n == u.n && |r.naks| == |u.inputs|
    && forall j :: 0 <= j < |u.inputs| ==> r.naks[j] == u.inputs[j].nak
  }

  function Alone(cell: Cell, s: State, u: UeRun): (r: Run)
    requires s.access.Valid()
    ensures Shadows(cell, s, u, r)
  {
    RunFrom(cell.maxTx, AfterGrant(s.access, u.n), u.n, Naks(u.inputs))
  }

  // On the PRACH with the timer stopped.
  predicate Asleep(s: State) {
    s.access.Valid() && s.mode == Prach && !s.timerOn
  }

  // ----- Before the timer starts -----

  predicate BeforeTimer(v: State, a: Access, raActive: bool) {
    v.access == a && InAccess(v.mode) && v.raActive == raActive && !v.timerOn
  }

  lemma FirstSubframe(cell: Cell, s: State, u: UeRun, r: Run)
    requires IsAccess(cell, s, u, 1) && Shadows(cell, s, u, r)
    ensures BeforeTimer(u.states[1], AfterGrant(s.access, u.n), s.raActive) && !u.sent[0]
    ensures r.states[1] == AfterGrant(s.access, u.n) && !r.sent[0]
  {
    var n, g := u.n, AfterGrant(s.access, u.n);
    assert Passes(cell, u, 0);
    GrantAims(s.access, n);
    TriggersIff(g, n + 6, SameFrame(n, 6), n, n + 4);
    Idles(cell.maxTx, g, n, false, MainPid(n), StrayPid(n), n + 6, SameFrame(n, 6), n);
    NothingYet(cell.maxTx, s.access, r, 1);
  }

  // A subframe in random access: the timer, if it does not run out, leaves the
  // physical layer alone.
  lemma PlainStep(cell: Cell, v: State, n: nat, x: Input, w: State, sent: bool, a: Access, phySent: bool)
    requires v.access.Valid() && InAccess(v.mode) && Undecided(x) && !x.rar
    requires (w, sent) == UeSubframe(cell, v, n, x) && (a, phySent) == PhySubframe(cell.maxTx, v.access, n, x.nak)
    ensures w.access.Valid()
    ensures
      var b := Answered(cell.maxTx, v.access, n / 10, n % 10, x.nak);
      if Expires(cell, v) then !sent && w.mode == Prach && !w.timerOn && w.access == b
      else sent == phySent && TimerGoesOn(v, a, Triggers(b, (n + 4) / 10, (n + 4) % 10), w)
  {
  }

  predicate TimerGoesOn(v: State, a: Access, msg3: bool, w: State) {
    && w.access == a && InAccess(w.mode) && w.raActive == v.raActive && w.timerOn == (v.timerOn || msg3)
    && w.cnt == if msg3 then 0 else if v.timerOn then v.cnt + 1 else v.cnt
  }

  // The uplink after the answer in subframe j.
  function HeardAt(maxTx: nat, r: Run, j: nat): Access
    requires j < |r.naks| && j < |r.states| && r.states[j].Valid()
  {
    Answered(maxTx, r.states[j], (r.n + j) / 10, (r.n + j) % 10, r.naks[j])
  }

  lemma PlainAt(cell: Cell, u: UeRun, r: Run, j: nat)
    requires |u.states| == |u.inputs| + 1 && |u.sent| == |u.inputs| && j < |u.inputs| && Passes(cell, u, j)
    requires |r.states| == |r.naks| + 1 && |r.sent| == |r.naks| && j < |r.naks| && Goes(cell.maxTx, r, j)
    requires r.n == u.n && r.naks[j] == u.inputs[j].nak && Undecided(u.inputs[j]) && !u.inputs[j].rar
    requires u.states[j].access == r.states[j] && InAccess(u.states[j].mode)
    ensures
      var v := u.states[j];
      if Expires(cell, v) then
        !u.sent[j] && Asleep(u.states[j + 1]) && u.states[j + 1].access == HeardAt(cell.maxTx, r, j)
      else u.sent[j] == r.sent[j] && TimerGoesOn(v, r.states[j + 1], TriggersAt(cell.maxTx, r, j), u.states[j + 1])
  {
    PlainStep(cell, u.states[j], u.n + j, u.inputs[j], u.states[j + 1], u.sent[j], r.states[j + 1], r.sent[j]);
  }

  lemma PlainSubframe(cell: Cell, s: State, u: UeRun, r: Run, j: nat)
    requires RunsFrom(cell, s, u) && Shadows(cell, s, u, r) && 1 <= j && GrantOnly(u, j + 1)
    requires u.states[j].access == r.states[j] && InAccess(u.states[j].mode)
    ensures
      var v := u.states[j];
      && r.states[j].Valid()
      && if Expires(cell, v) then
           !u.sent[j] && Asleep(u.states[j + 1]) && u.states[j + 1].access == HeardAt(cell.maxTx, r, j)
         else u.sent[j] == r.sent[j] && TimerGoesOn(v, r.states[j + 1], TriggersAt(cell.maxTx, r, j), u.states[j + 1])
  {
    assert Passes(cell, u, j);
    assert Goes(cell.maxTx, r, j);
    PlainAt(cell, u, r, j);
  }

  // Nothing is sent as long as Msg3 is not due.
  lemma {:induction false} BeforeMsg3(cell: Cell, s: State, u: UeRun, r: Run, c: nat)
    requires IsAccess(cell, s, u, c) && Shadows(cell, s, u, r) && 1 <= c && (SameFrame(u.n, 6) ==> c <= 2)
    ensures BeforeTimer(u.states[c], AfterGrant(s.access, u.n), s.raActive)
    ensures r.states[c] == AfterGrant(s.access, u.n)
    ensures forall k :: 0 <= k < c ==> !u.sent[k]
  {
    if c == 1 {
      FirstSubframe(cell, s, u, r);
    } else {
      BeforeMsg3(cell, s, u, r, c - 1);
      var g, n := AfterGrant(s.access, u.n), u.n;
      GrantAims(s.access, n);
      TriggersIff(g, n + 6, SameFrame(n, 6), n, n + (c - 1) + 4);
      PlainSubframe(cell, s, u, r, c - 1);
      NothingYet(cell.maxTx, s.access, r, c);
    }
  }

  // Whatever the PHICH detector says, Msg3 is sent 6 subframes after the grant,
  // and not before, exactly when the stored frame number is the one the UE counts
  // to: no frame boundary lies between or the UE's counter is still below 1023.
  // Otherwise the UE never sends it.
  lemma FirstMsg3SentIff(cell: Cell, s: State, u: UeRun, j: nat)
    requires IsAccess(cell, s, u, j + 1)
    ensures j < 2 ==> !u.sent[j]
    ensures j == 2 ==> (u.sent[j] <==> SameFrame(u.n, 6))
    ensures !SameFrame(u.n, 6) ==> !u.sent[j]
  {
    var r := Alone(cell, s, u);
    if !SameFrame(u.n, 6) || j < 2 {
      BeforeMsg3(cell, s, u, r, j + 1);
    } else if j == 2 {
      StartsTimer(cell, s, u, r);
    }
  }

  lemma StartsTimer(cell: Cell, s: State, u: UeRun, r: Run)
    requires IsAccess(cell, s, u, 3) && Shadows(cell, s, u, r) && SameFrame(u.n, 6)
    ensures u.sent[2]
    ensures
      var v := u.states[3];
      v.access == r.states[3] && InAccess(v.mode) && v.raActive == s.raActive && v.timerOn && v.cnt == 0
    ensures forall k :: 0 <= k < 2 ==> !u.sent[k]
  {
    BeforeMsg3(cell, s, u, r, 2);
    TriggersExactly(cell.maxTx, s.access, r, 2);
    SendsExactly(cell.maxTx, s.access, r, 2);
    PlainSubframe(cell, s, u, r, 2);
  }

  // ----- The timer -----

  // The subframe in which the timer will run out, after the q-th time of the other
  // process: counted from the last Msg3 trigger before it would have run out.
  function Deadline(cell: Cell, r: Run, round0: bool, q: nat): (d: nat)
    ensures 2 + cell.Limit() <= d
  {
    if q == 0 then 2 + cell.Limit()
    else
      var d := Deadline(cell, r, round0, q - 1);
      if StrayTriggers(cell.maxTx, r, round0, q) && 6 + 8 * q < d then 6 + 8 * q + cell.Limit() else d
  }

  // How many times of the other process lie before subframe j, but for the first.
  function TimesBefore(j: nat): nat {
    if j < 7 then 0 else (j - 7) / 8
  }

  // The timer has run out in subframe j or before.
  predicate Silent(cell: Cell, r: Run, round0: bool, j: nat) {
    j >= Deadline(cell, r, round0, TimesBefore(j))
  }

  lemma NextDeadline(cell: Cell, r: Run, round0: bool, j: nat)
    ensures
      var d := Deadline(cell, r, round0, TimesBefore(j));
      Deadline(cell, r, round0, TimesBefore(j + 1)) ==
      if j % 8 == 6 && StrayTriggers(cell.maxTx, r, round0, j / 8) && j < d then j + cell.Limit() else d
  {
    var i := j / 8;
    assert j == 8 * i + j % 8;
    if j >= 14 && j % 8 == 6 {
      assert TimesBefore(j + 1) == i && TimesBefore(j) == i - 1;
    } else {
      assert TimesBefore(j + 1) == TimesBefore(j);
    }
  }

  lemma WasNotSilent(cell: Cell, r: Run, round0: bool, j: nat)
    requires !Silent(cell, r, round0, j + 1)
    ensures !Silent(cell, r, round0, j)
  {
    NextDeadline(cell, r, round0, j);
  }

  // One count, with the trigger that may follow it.
  lemma TimerStep(cell: Cell, r: Run, round0: bool, j: nat, v: State, msg3: bool)
    requires v.timerOn && v.cnt + Deadline(cell, r, round0, TimesBefore(j)) == j - 1 + cell.Limit() && j > 0
    requires msg3 <==> j % 8 == 6 && StrayTriggers(cell.maxTx, r, round0, j / 8)
    requires !Silent(cell, r, round0, j)
    ensures !Expires(cell, v)
    ensures (if msg3 then 0 else v.cnt + 1) + Deadline(cell, r, round0, TimesBefore(j + 1)) == j + cell.Limit()
  {
    NextDeadline(cell, r, round0, j);
  }

  // The UE before subframe c, the timer running, as the physical layer alone.
  ghost predicate AwakeAt(cell: Cell, r: Run, round0: bool, raActive: bool, c: nat, v: State) {
    && c < |r.states| && v.access == r.states[c] && InAccess(v.mode) && v.raActive == raActive && v.timerOn
    && v.cnt + Deadline(cell, r, round0, TimesBefore(c)) == c - 1 + cell.Limit()
  }

  lemma AwakeStep(cell: Cell, s: State, u: UeRun, r: Run, j: nat)
    requires IsAccess(cell, s, u, j + 1) && Shadows(cell, s, u, r) && SameFrame(u.n, 6) && 3 <= j
    requires AwakeAt(cell, r, StartsAtRound0(s.access, u.n), s.raActive, j, u.states[j])
    requires !Silent(cell, r, StartsAtRound0(s.access, u.n), j)
    ensures AwakeAt(cell, r, StartsAtRound0(s.access, u.n), s.raActive, j + 1, u.states[j + 1]) && u.sent[j] == r.sent[j]
  {
    TriggersExactly(cell.maxTx, s.access, r, j);
    TimerStep(cell, r, StartsAtRound0(s.access, u.n), j, u.states[j], TriggersAt(cell.maxTx, r, j));
    PlainSubframe(cell, s, u, r, j);
  }

  lemma AwakeFirst(cell: Cell, s: State, u: UeRun, r: Run)
    requires IsAccess(cell, s, u, 3) && Shadows(cell, s, u, r) && SameFrame(u.n, 6)
    ensures AwakeAt(cell, r, StartsAtRound0(s.access, u.n), s.raActive, 3, u.states[3])
  {
    StartsTimer(cell, s, u, r);
    assert TimesBefore(3) == 0;
  }

  // As long as the timer has not run out the UE is as the physical layer alone.
  lemma {:induction false} Awake(cell: Cell, s: State, u: UeRun, r: Run, c: nat)
    requires IsAccess(cell, s, u, c) && Shadows(cell, s, u, r) && SameFrame(u.n, 6) && 3 <= c
    requires !Silent(cell, r, StartsAtRound0(s.access, u.n), c - 1)
    ensures AwakeAt(cell, r, StartsAtRound0(s.access, u.n), s.raActive, c, u.states[c])
  {
    if c == 3 {
      AwakeFirst(cell, s, u, r);
    } else {
      WasNotSilent(cell, r, StartsAtRound0(s.access, u.n), c - 2);
      Awake(cell, s, u, r, c - 1);
      AwakeStep(cell, s, u, r, c - 1);
    }
  }

  lemma SendsAlike(cell: Cell, s: State, u: UeRun, r: Run, j: nat)
    requires IsAccess(cell, s, u, j + 1) && Shadows(cell, s, u, r) && SameFrame(u.n, 6)
    requires !Silent(cell, r, StartsAtRound0(s.access, u.n), j)
    ensures u.sent[j] == r.sent[j]
  {
    if j < 2 {
      BeforeMsg3(cell, s, u, r, j + 1);
      NothingYet(cell.maxTx, s.access, r, j + 1);
    } else if j == 2 {
      StartsTimer(cell, s, u, r);
      FirstMain(cell.maxTx, s.access, r);
    } else {
      WasNotSilent(cell, r, StartsAtRound0(s.access, u.n), j - 1);
      Awake(cell, s, u, r, j);
      AwakeStep(cell, s, u, r, j);
    }
  }

  lemma MeetsDeadline(cell: Cell, r: Run, round0: bool, j: nat)
    requires !Silent(cell, r, round0, j) && Silent(cell, r, round0, j + 1)
    ensures Deadline(cell, r, round0, TimesBefore(j + 1)) == j + 1
  {
    NextDeadline(cell, r, round0, j);
  }

  lemma CountRunsOut(cell: Cell, r: Run, round0: bool, raActive: bool, j: nat, v: State)
    requires j > 0 && AwakeAt(cell, r, round0, raActive, j, v)
    requires !Silent(cell, r, round0, j - 1) && Silent(cell, r, round0, j)
    ensures Expires(cell, v)
  {
    MeetsDeadline(cell, r, round0, j - 1);
  }

  lemma RunsOut(cell: Cell, s: State, u: UeRun, r: Run, j: nat)
    requires IsAccess(cell, s, u, j + 1) && Shadows(cell, s, u, r) && SameFrame(u.n, 6) && j > 0
    requires !Silent(cell, r, StartsAtRound0(s.access, u.n), j - 1) && Silent(cell, r, StartsAtRound0(s.access, u.n), j)
    ensures !u.sent[j] && Asleep(u.states[j + 1])
    ensures r.states[j].Valid() && u.states[j + 1].access == HeardAt(cell.maxTx, r, j)
  {
    Awake(cell, s, u, r, j);
    CountRunsOut(cell, r, StartsAtRound0(s.access, u.n), s.raActive, j, u.states[j]);
    PlainSubframe(cell, s, u, r, j);
  }

  lemma AsleepStep(cell: Cell, u: UeRun, j: nat)
    requires |u.states| == |u.inputs| + 1 && |u.sent| == |u.inputs| && j < |u.inputs| && Passes(cell, u, j)
    requires Asleep(u.states[j]) && !u.inputs[j].rar
    ensures Asleep(u.states[j + 1]) && !u.sent[j]
  {
  }

  lemma {:induction false} SilentMeansAsleep(cell: Cell, s: State, u: UeRun, r: Run, j: nat)
    requires IsAccess(cell, s, u, j + 1) && Shadows(cell, s, u, r) && SameFrame(u.n, 6)
    requires Silent(cell, r, StartsAtRound0(s.access, u.n), j)
    ensures !u.sent[j] && Asleep(u.states[j + 1])
  {
    var round0 := StartsAtRound0(s.access, u.n);
    if Silent(cell, r, round0, j - 1) {
      SilentMeansAsleep(cell, s, u, r, j - 1);
      AsleepStep(cell, u, j);
    } else {
      RunsOut(cell, s, u, r, j);
    }
  }

  // Over every run, exactly when the UE transmits: 6+8i subframes after the grant
  // as MainSends says, 10+8q after it as StraySends says, at no other time, and
  // never again once the timer has run out.
  lemma TransmitsExactly(cell: Cell, s: State, u: UeRun, j: nat)
    requires IsAccess(cell, s, u, j + 1) && SameFrame(u.n, 6)
    ensures
      var r, round0 := Alone(cell, s, u), StartsAtRound0(s.access, u.n);
      u.sent[j] <==> SendsAt(cell.maxTx, r, round0, j) && !Silent(cell, r, round0, j)
  {
    var r, round0 := Alone(cell, s, u), StartsAtRound0(s.access, u.n);
    SendsExactly(cell.maxTx, s.access, r, j);
    if Silent(cell, r, round0, j) {
      SilentMeansAsleep(cell, s, u, r, j);
    } else {
      SendsAlike(cell, s, u, r, j);
    }
  }

  // ----- What follows from it -----

  lemma EarlyIsNotSilent(cell: Cell, r: Run, round0: bool, j: nat)
    requires j < 2 + cell.Limit()
    ensures !Silent(cell, r, round0, j)
  {
  }

  lemma {:induction false} DeadlineBound(cell: Cell, r: Run, round0: bool, q: nat)
    ensures Deadline(cell, r, round0, q) <= 2 + 8 * cell.maxTx + cell.Limit()
  {
    if q > 0 {
      DeadlineBound(cell, r, round0, q - 1);
    }
  }

  // With the other process at round 0 the first stray alone can restart the timer.
  lemma {:induction false} DeadlineOnce(cell: Cell, r: Run, q: nat)
    ensures
      var k, end := FirstStray(cell.maxTx, r, q), 2 + cell.Limit();
      Deadline(cell, r, true, q) == if 0 < k && 6 + 8 * k < end then 6 + 8 * k + cell.Limit() else end
  {
    if q > 0 {
      DeadlineOnce(cell, r, q - 1);
    }
  }

  // Every random access comes to an end without any ACK: the UE does not transmit
  // later than this.
  lemma TransmissionsEnd(cell: Cell, s: State, u: UeRun, j: nat)
    requires IsAccess(cell, s, u, j + 1)
    requires j >= 2 + 8 * cell.maxTx + cell.Limit() || (StartsAtRound0(s.access, u.n) && j >= 2 + 2 * cell.Limit())
    ensures !u.sent[j]
  {
    if SameFrame(u.n, 6) {
      var r, round0 := Alone(cell, s, u), StartsAtRound0(s.access, u.n);
      TransmitsExactly(cell, s, u, j);
      DeadlineBound(cell, r, round0, TimesBefore(j));
      if round0 {
        DeadlineOnce(cell, r, TimesBefore(j));
      }
    } else {
      FirstMsg3SentIff(cell, s, u, j);
    }
  }

  // While Msg3 is refused and transmissions are left, the UE transmits it 6, 14,
  // 22, ... subframes after the grant, whatever the PHICH detector makes of
  // subframes in which nothing was answered, until the timer has run out.
  lemma TransmitsEveryEighth(cell: Cell, s: State, u: UeRun, i: nat)
    requires IsAccess(cell, s, u, 3 + 8 * i) && SameFrame(u.n, 6)
    requires i < cell.maxTx && Refused(Alone(cell, s, u), i)
    ensures u.sent[2 + 8 * i] <==> !Silent(cell, Alone(cell, s, u), StartsAtRound0(s.access, u.n), 2 + 8 * i)
    ensures 8 * i < cell.Limit() ==> u.sent[2 + 8 * i]
  {
    TransmitsExactly(cell, s, u, 2 + 8 * i);
    RemainderIs(8, i, 2);
  }

  // The first retransmission, 14 subframes after the grant, is followed by
  // another transmission 4 subframes later on another process, at which nobody
  // listens, unless the frame counter hides it or the timer is the shortest, with
  // which there is no retransmission either: the new Msg3 time is counted from the
  // answer and not from the transmission that it answers.
  lemma StrayTransmissionIff(cell: Cell, s: State, u: UeRun)
    requires IsAccess(cell, s, u, 15) && SameFrame(u.n, 6)
    requires cell.maxTx >= 2 && u.inputs[10].nak
    ensures u.sent[10] <==> cell.timer > 0
    ensures u.sent[14] <==> cell.timer > 0 && SameFrame(u.n + 10, 8)
    ensures PidOf(u.n + 18) != PidOf(u.n + 6)
  {
    var r, round0 := Alone(cell, s, u), StartsAtRound0(s.access, u.n);
    ShortShift(u.n + 14, 4);
    SameProcess(u.n + 6, 1);
    assert Refused(r, 1) by { assert MainNak(r, 1); }
    TransmitsEveryEighth(cell, s, u, 1);
    TransmitsExactly(cell, s, u, 14);
    OneStraySends(cell.maxTx, r, round0);
    assert Silent(cell, r, round0, 10) <==> cell.timer == 0;
    assert Silent(cell, r, round0, 14) <==> cell.timer == 0;
  }

  lemma OneStraySends(maxTx: nat, r: Run, round0: bool)
    requires maxTx >= 2 && Refused(r, 1)
    ensures StraySends(maxTx, r, round0, 1) <==> SameFrame(r.n + 10, 8)
  {
    assert FirstStray(maxTx, r, 0) == 0;
    assert FirstStray(maxTx, r, 1) == if StrayDue(maxTx, r, 1) then 1 else 0;
  }

  // No stray falls due while the timer started by the first Msg3 runs.
  ghost predicate NoStrayInTime(cell: Cell, r: Run) {
    forall q :: 1 <= q && 6 + 8 * q < |r.naks| && 6 + 8 * q < 2 + cell.Limit() ==> !StrayDue(cell.maxTx, r, q)
  }

  lemma {:induction false} DeadlineUnmoved(cell: Cell, r: Run, round0: bool, q: nat)
    requires NoStrayInTime(cell, r) && (q > 0 ==> 6 + 8 * q < |r.naks|)
    ensures Deadline(cell, r, round0, q) == 2 + cell.Limit()
  {
    if q > 0 {
      DeadlineUnmoved(cell, r, round0, q - 1);
    }
  }

  // The UE keeps to the times and the number of Msg3's transmissions, that is it
  // sends only 6+8i subframes after the grant and but once or less than
  // maxHARQ_Msg3Tx times again, if and only if no refusal that leaves
  // transmissions stores a time that the UE counts to and that comes before the
  // timer started by the first Msg3 has run out.
  lemma KeepsToMsg3Iff(cell: Cell, s: State, u: UeRun)
    requires IsAccess(cell, s, u, |u.inputs|) && SameFrame(u.n, 6)
    ensures (forall j :: 0 <= j < |u.inputs| && u.sent[j] ==> j % 8 == 2 && (j / 8 == 0 || j / 8 < cell.maxTx)) <==>
            NoStrayInTime(cell, Alone(cell, s, u))
  {
    var r := Alone(cell, s, u);
    if NoStrayInTime(cell, r) {
      forall j | 0 <= j < |u.inputs| && u.sent[j]
        ensures j % 8 == 2 && (j / 8 == 0 || j / 8 < cell.maxTx)
      {
        TransmitsExactly(cell, s, u, j);
        NoStrayNoExcess(cell, r, StartsAtRound0(s.access, u.n), j);
      }
    } else {
      var q :| 1 <= q && 6 + 8 * q < |r.naks| && 6 + 8 * q < 2 + cell.Limit() && StrayDue(cell.maxTx, r, q);
      FirstIsFirst(cell.maxTx, r, q, q);
      FirstOfItself(cell.maxTx, r, q);
      StrayIsSent(cell, s, u, FirstStray(cell.maxTx, r, q));
    }
  }

  lemma StrayIsSent(cell: Cell, s: State, u: UeRun, k: nat)
    requires IsAccess(cell, s, u, 7 + 8 * k) && SameFrame(u.n, 6)
    requires k >= 1 && 6 + 8 * k < 2 + cell.Limit() && FirstStray(cell.maxTx, Alone(cell, s, u), k) == k
    ensures u.sent[6 + 8 * k] && (6 + 8 * k) % 8 == 6
  {
    TransmitsExactly(cell, s, u, 6 + 8 * k);
    RemainderIs(8, k, 6);
  }

  lemma NoStrayNoExcess(cell: Cell, r: Run, round0: bool, j: nat)
    requires j < |r.naks| && NoStrayInTime(cell, r) && !Silent(cell, r, round0, j)
    ensures j % 8 == 6 ==> !StraySends(cell.maxTx, r, round0, j / 8)
    ensures j % 8 == 2 && MainSends(cell.maxTx, r, round0, j / 8) ==> j / 8 == 0 || j / 8 < cell.maxTx
  {
    DeadlineUnmoved(cell, r, round0, TimesBefore(j));
    var maxTx, i := cell.maxTx, j / 8;
    assert j == 8 * i + j % 8;
    if j % 8 == 6 && i > 0 {
      assert !StrayDue(maxTx, r, i);
      var k := FirstStray(maxTx, r, i);
      assert k > 0 ==> !StrayDue(maxTx, r, k);
    } else if j % 8 == 2 && i >= maxTx > 0 {
      var k := FirstStray(maxTx, r, maxTx - 1);
      assert k > 0 ==> !StrayDue(maxTx, r, k);
    }
  }

  // ----- The latest transmissions -----

  lemma FirstStrayIsOne(maxTx: nat, r: Run, q: nat)
    requires StrayDue(maxTx, r, 1)
    ensures FirstStray(maxTx, r, q) == if q == 0 then 0 else 1
  {
    if q > 0 {
      FirstIsFirst(maxTx, r, 1, q);
    }
  }

  // The first stray, 14 subframes on, is due: it restarts the timer if that is not
  // the shortest.
  lemma OneStray(cell: Cell, r: Run, j: nat)
    requires j >= 10 ==> StrayDue(cell.maxTx, r, 1)
    ensures j >= 10 ==> FirstStray(cell.maxTx, r, j / 8) == 1
    ensures Silent(cell, r, true, j) <==> j >= if j > 14 && cell.timer > 0 then 14 + cell.Limit() else 2 + cell.Limit()
  {
    DeadlineOnce(cell, r, TimesBefore(j));
    if j >= 10 {
      FirstStrayIsOne(cell.maxTx, r, j / 8);
      FirstStrayIsOne(cell.maxTx, r, TimesBefore(j));
    }
  }

  // An input without any ACK: two transmissions allowed and everything refused.
  // The other process goes on for as long as the timer allows it, up to 10 + Limit
  // subframes after the grant.
  lemma RefusedUntilExpiry(cell: Cell, s: State, u: UeRun, j: nat)
    requires IsAccess(cell, s, u, j + 1) && StartsAtRound0(s.access, u.n)
    requires cell.maxTx == 2 && SameFrame(u.n, 6) && SameFrame(u.n + 10, 8)
    requires forall k :: 0 <= k < |u.inputs| ==> u.inputs[k].nak
    ensures u.sent[j] <==> j == 2 || (cell.timer > 0 && (j == 10 || (j % 8 == 6 && 14 <= j <= 6 + cell.Limit())))
  {
    var r := Alone(cell, s, u);
    TransmitsExactly(cell, s, u, j);
    RefusedSends(cell, r, j);
    RefusedTimes(j, cell.timer, Silent(cell, r, true, j));
  }

  lemma RefusedTimes(j: nat, timer: nat, silent: bool)
    requires silent <==> j >= if j > 14 && timer > 0 then 22 + 8 * timer else 10 + 8 * timer
    ensures !silent && (j == 2 || j == 10 || (j % 8 == 6 && j >= 14)) <==>
            j == 2 || (timer > 0 && (j == 10 || (j % 8 == 6 && 14 <= j <= 14 + 8 * timer)))
  {
    LastTime(j, 6, timer + 1);
  }

  lemma RefusedSends(cell: Cell, r: Run, j: nat)
    requires cell.maxTx == 2 && SameFrame(r.n + 10, 8) && j < |r.naks|
    requires forall k :: 0 <= k < |r.naks| ==> r.naks[k]
    ensures SendsAt(2, r, true, j) <==> j == 2 || j == 10 || (j % 8 == 6 && j >= 14)
    ensures Silent(cell, r, true, j) <==> j >= if j > 14 && cell.timer > 0 then 14 + cell.Limit() else 2 + cell.Limit()
  {
    var i := j / 8;
    assert j == 8 * i + j % 8;
    if j >= 10 {
      assert Refused(r, 1) by { assert MainNak(r, 1); }
      FirstStrayIsOne(2, r, 1);
    }
    OneStray(cell, r, j);
    if j % 8 == 6 && i > 0 {
      assert forall m :: 1 < m <= i ==> StrayNak(r, m);
    }
  }

  // The times of one process are 8 apart.
  lemma LastTime(j: nat, rest: nat, m: nat)
    requires rest < 8
    ensures j % 8 == rest && j < 8 * m + rest + 8 ==> j <= 8 * m + rest
  {
    assert j == 8 * (j / 8) + j % 8;
  }

  // An input with one ACK, for the other process: Msg3's own process goes on in
  // its place, up to 14 + Limit subframes after the grant.
  lemma ForgottenUntilExpiry(cell: Cell, s: State, u: UeRun, j: nat)
    requires IsAccess(cell, s, u, j + 1) && StartsAtRound0(s.access, u.n)
    requires cell.maxTx >= 3 && SameFrame(u.n, 6) && SameFrame(u.n + 10, 8)
    requires forall k :: 0 <= k < |u.inputs| ==> u.inputs[k].nak == (k != 22)
    ensures u.sent[j] <==> j == 2 || (cell.timer > 0 && (j == 14 || (j % 8 == 2 && 10 <= j <= 10 + cell.Limit())))
  {
    var r := Alone(cell, s, u);
    TransmitsExactly(cell, s, u, j);
    ForgottenSends(cell, r, j);
    ForgottenTimes(j, cell.timer, Silent(cell, r, true, j));
  }

  // This is beyond its limit exactly if maxTx is at most timer + 2.
  lemma ForgottenBeyondLimitIff(cell: Cell, s: State, u: UeRun)
    requires IsAccess(cell, s, u, 3 + 8 * cell.maxTx) && StartsAtRound0(s.access, u.n)
    requires cell.maxTx >= 3 && SameFrame(u.n, 6) && SameFrame(u.n + 10, 8)
    requires forall k :: 0 <= k < |u.inputs| ==> u.inputs[k].nak == (k != 22)
    ensures u.sent[2 + 8 * cell.maxTx] <==> cell.maxTx <= cell.timer + 2
  {
    RemainderIs(8, cell.maxTx, 2);
    ForgottenUntilExpiry(cell, s, u, 2 + 8 * cell.maxTx);
  }

  lemma ForgottenTimes(j: nat, timer: nat, silent: bool)
    requires silent <==> j >= if j > 14 && timer > 0 then 22 + 8 * timer else 10 + 8 * timer
    ensures !silent && (j % 8 == 2 || j == 14) <==>
            j == 2 || (timer > 0 && (j == 14 || (j % 8 == 2 && 10 <= j <= 18 + 8 * timer)))
  {
    LastTime(j, 2, timer + 2);
  }

  lemma ForgottenSends(cell: Cell, r: Run, j: nat)
    requires cell.maxTx >= 3 && SameFrame(r.n + 10, 8) && j < |r.naks|
    requires forall k :: 0 <= k < |r.naks| ==> r.naks[k] == (k != 22)
    ensures SendsAt(cell.maxTx, r, true, j) <==> j % 8 == 2 || j == 14
    ensures Silent(cell, r, true, j) <==> j >= if j > 14 && cell.timer > 0 then 14 + cell.Limit() else 2 + cell.Limit()
  {
    if j >= 10 {
      assert Refused(r, 1) by { assert MainNak(r, 1); }
    }
    OneStray(cell, r, j);
    if j % 8 == 2 {
      ForgottenMain(cell.maxTx, r, j);
    } else if j % 8 == 6 {
      ForgottenStray(cell.maxTx, r, j);
    }
  }

  lemma ForgottenMain(maxTx: nat, r: Run, j: nat)
    requires maxTx >= 3 && SameFrame(r.n + 10, 8) && j < |r.naks| && j % 8 == 2
    requires forall k :: 0 <= k < |r.naks| ==> r.naks[k] == (k != 22)
    ensures MainSends(maxTx, r, true, j / 8)
  {
    var i := j / 8;
    assert j == 8 * i + 2;
    assert Refused(r, i);
    if i > 0 {
      assert MainNak(r, 1) && StrayDue(maxTx, r, 1);
      FirstStrayIsOne(maxTx, r, maxTx - 1);
      assert !StrayNak(r, 2);
    }
  }

  lemma ForgottenStray(maxTx: nat, r: Run, j: nat)
    requires maxTx >= 3 && SameFrame(r.n + 10, 8) && j < |r.naks| && j % 8 == 6
    requires forall k :: 0 <= k < |r.naks| ==> r.naks[k] == (k != 22)
    ensures StraySends(maxTx, r, true, j / 8) <==> j == 14
  {
    var i := j / 8;
    assert j == 8 * i + 6;
    if i > 0 {
      assert Refused(r, 1) by { assert MainNak(r, 1); }
      FirstStrayIsOne(maxTx, r, i);
      assert !StrayNak(r, 2);
    }
  }

  // Such inputs: a grant at time 0.
  function UeRunFrom(cell: Cell, s: State, n: nat, inputs: seq<Input>): (u: UeRun)
    requires s.access.Valid()
    ensures RunsFrom(cell, s, u) && u.n == n && u.inputs == inputs && u.states[|inputs|].access.Valid()
  {
    if inputs == [] then UeRun(n, [], [s], [])
    else
      var j := |inputs| - 1;
      var before := UeRunFrom(cell, s, n, inputs[..j]);
      var (v, sends) := UeSubframe(cell, before.states[j], n + j, inputs[j]);
      var u := UeRun(n, inputs, before.states + [v], before.sent + [sends]);
      RunGoesOn(cell, before, u, s);
      u
  }

  lemma RunGoesOn(cell: Cell, before: UeRun, u: UeRun, s: State)
    requires RunsFrom(cell, s, before) && u.n == before.n
    requires |u.inputs| == |before.inputs| + 1 && u.inputs[..|before.inputs|] == before.inputs
    requires |u.states| == |before.states| + 1 && u.states[..|before.states|] == before.states
    requires |u.sent| == |before.sent| + 1 && u.sent[..|before.sent|] == before.sent
    requires Passes(cell, u, |before.inputs|)
    ensures RunsFrom(cell, s, u)
  {
    var states, sent, inputs := u.states[..|before.states|], u.sent[..|before.sent|], u.inputs[..|before.inputs|];
    assert u.states[0] == states[0];
    forall j | 0 <= j < |u.inputs|
      ensures Passes(cell, u, j)
    {
      if j < |before.inputs| {
        assert Passes(cell, before, j);
        assert u.states[j] == states[j] && u.states[j + 1] == states[j + 1];
        assert u.sent[j] == sent[j] && u.inputs[j] == inputs[j];
      }
    }
  }

  function AtStart(): (s: State)
    ensures AtRest(s)
  {
    State(Access(false, 0, 0, seq(8, _ => Proc(false, false, 0))), Prach, true, false, 0)
  }

  lemma RefusedFromTime0(timer: nat, j: nat)
    ensures
      var u := UeRunFrom(Cell(2, timer), AtStart(), 0, seq(j + 1, k => Input(true, NoDownlink, k == 0, false)));
      u.sent[j] <==> j == 2 || (timer > 0 && (j == 10 || (j % 8 == 6 && 14 <= j <= 14 + 8 * timer)))
  {
    var inputs := seq(j + 1, k => Input(true, NoDownlink, k == 0, false));
    RefusedUntilExpiry(Cell(2, timer), AtStart(), UeRunFrom(Cell(2, timer), AtStart(), 0, inputs), j);
  }

  lemma ForgottenFromTime0(maxTx: nat, timer: nat, j: nat)
    requires maxTx >= 3
    ensures
      var u := UeRunFrom(Cell(maxTx, timer), AtStart(), 0, seq(j + 1, k => Input(k != 22, NoDownlink, k == 0, false)));
      u.sent[j] <==> j == 2 || (timer > 0 && (j == 14 || (j % 8 == 2 && 10 <= j <= 18 + 8 * timer)))
  {
    var inputs := seq(j + 1, k => Input(k != 22, NoDownlink, k == 0, false));
    ForgottenUntilExpiry(Cell(maxTx, timer), AtStart(), UeRunFrom(Cell(maxTx, timer), AtStart(), 0, inputs), j);
  }

  // ----- Every run ends -----

  // How often a process may still be refused in random access.
  function Weight(maxTx: nat, p: Proc): nat {
    if p.round < maxTx then maxTx - p.round else 0
  }

  function Weights(maxTx: nat, procs: seq<Proc>): nat {
    if procs == [] then 0 else Weights(maxTx, procs[..|procs|-1]) + Weight(maxTx, procs[|procs|-1])
  }

  lemma {:induction false} WeightsUpdate(maxTx: nat, procs: seq<Proc>, p: nat, q: Proc)
    requires p < |procs|
    ensures Weights(maxTx, procs[p := q]) == Weights(maxTx, procs) - Weight(maxTx, procs[p]) + Weight(maxTx, q)
  {
    var last := |procs| - 1;
    if p < last {
      WeightsUpdate(maxTx, procs[..last], p, q);
      assert procs[p := q][..last] == procs[..last][p := q];
    } else {
      assert procs[p := q][..last] == procs[..last];
    }
  }

  lemma {:induction false} WeightsBound(maxTx: nat, procs: seq<Proc>)
    ensures Weights(maxTx, procs) <= maxTx * |procs|
  {
    if procs != [] {
      WeightsBound(maxTx, procs[..|procs|-1]);
    }
  }

  // How often Msg3 may still be triggered, and the timer so be restarted: at the
  // stored time if that is not past, and once for each refusal that stores one.
  function Chances(maxTx: nat, a: Access, n: nat): nat {
    if !a.active then 0 else Weights(maxTx, a.procs) + if 10 * a.frame + a.subframe >= n + 4 then 1 else 0
  }

  lemma ChancesAnswered(maxTx: nat, a: Access, n: nat, nak: bool)
    requires a.Valid()
    ensures Chances(maxTx, Answered(maxTx, a, n / 10, n % 10, nak), n) <= Chances(maxTx, a, n)
  {
    var p := PhichPid(n / 10, n % 10);
    var b := Answered(maxTx, a, n / 10, n % 10, nak);
    if a.procs[p].live && b.active {
      WeightsUpdate(maxTx, a.procs, p, b.procs[p]);
    }
  }

  lemma ChancesTransmitted(maxTx: nat, b: Access, n: nat)
    requires b.Valid()
    ensures
      var c := Transmitted(b, (n + 4) / 10, (n + 4) % 10).0;
      Chances(maxTx, c, n + 1) + (if Triggers(b, (n + 4) / 10, (n + 4) % 10) then 1 else 0) <= Chances(maxTx, b, n)
  {
    var p := HarqPid((n + 4) / 10, (n + 4) % 10);
    WeightsUpdate(maxTx, b.procs, p, Transmitted(b, (n + 4) / 10, (n + 4) % 10).0.procs[p]);
  }

  // The timer is running.
  predicate Ticking(cell: Cell, v: State) {
    v.access.Valid() && v.timerOn && v.cnt < cell.Limit()
  }

  function Rank(cell: Cell, v: State, n: nat): int {
    cell.Limit() * Chances(cell.maxTx, v.access, n) + cell.Limit() - v.cnt
  }

  lemma Scaled(l: nat, c: nat, bound: nat)
    requires c <= bound
    ensures l * c <= l * bound && l * (1 + bound) == l + l * bound
  {
  }

  lemma RankStep(l: nat, before: nat, after: nat, cnt: nat, msg3: bool)
    requires after + (if msg3 then 1 else 0) <= before && cnt + 1 < l
    ensures l * after + l - (if msg3 then 0 else cnt + 1) < l * before + l - cnt
  {
    Scaled(l, after, if msg3 then before - 1 else before);
  }

  lemma RankAnswered(cell: Cell, v: State, n: nat, nak: bool)
    requires Ticking(cell, v)
    ensures Rank(cell, v.(access := Answered(cell.maxTx, v.access, n / 10, n % 10, nak)), n) <= Rank(cell, v, n)
  {
    var b := Answered(cell.maxTx, v.access, n / 10, n % 10, nak);
    var before, after := Chances(cell.maxTx, v.access, n), Chances(cell.maxTx, b, n);
    ChancesAnswered(cell.maxTx, v.access, n, nak);
    Scaled(cell.Limit(), after, before);
  }

  lemma RankTransmitted(cell: Cell, v: State, n: nat, preamble: bool)
    requires Ticking(cell, v)
    ensures
      var (w, sent) := AfterTx(TimerCounted(cell, v), (n + 4) / 10, (n + 4) % 10, preamble);
      (Asleep(w) && !sent) || (Ticking(cell, w) && Rank(cell, w, n + 1) < Rank(cell, v, n))
  {
    var b, l, before := v.access, cell.Limit(), Chances(cell.maxTx, v.access, n);
    if !Expires(cell, v) {
      ChancesTransmitted(cell.maxTx, b, n);
      if v.mode == Prach {
        RankStep(l, before, Chances(cell.maxTx, b, n + 1), v.cnt, false);
      } else {
        RankStep(l, before, Chances(cell.maxTx, Transmitted(b, (n + 4) / 10, (n + 4) % 10).0, n + 1), v.cnt,
                 Triggers(b, (n + 4) / 10, (n + 4) % 10));
      }
    }
  }

  lemma TickStep(cell: Cell, v: State, n: nat, x: Input)
    requires Ticking(cell, v) && !x.rar && x.downlink != Resolved
    ensures
      var (w, sent) := UeSubframe(cell, v, n, x);
      (Asleep(w) && !sent) || (Ticking(cell, w) && Rank(cell, w, n + 1) < Rank(cell, v, n))
  {
    var answered := v.(access := Answered(cell.maxTx, v.access, n / 10, n % 10, x.nak));
    var told := Told(answered, x.downlink);
    RankAnswered(cell, v, n, x.nak);
    if told.timerOn {
      assert Rank(cell, told, n) == Rank(cell, answered, n);
      RankTransmitted(cell, told, n, x.preamble);
    }
  }

  // MAC reports no success and there is no further grant, in subframes i to k-1.
  predicate NoSuccess(u: UeRun, i: nat, k: nat) {
    i <= k <= |u.inputs| && forall m :: i <= m < k ==> !u.inputs[m].rar && u.inputs[m].downlink != Resolved
  }

  // Once on the PRACH the UE stays there until the next grant, and sends nothing.
  lemma {:induction false} SleepsOn(cell: Cell, s: State, u: UeRun, i: nat, k: nat)
    requires RunsFrom(cell, s, u) && i <= k <= |u.inputs| && Asleep(u.states[i])
    requires forall m :: i <= m < k ==> !u.inputs[m].rar
    ensures Asleep(u.states[k]) && forall m :: i <= m < k ==> !u.sent[m]
  {
    if i < k {
      SleepsOn(cell, s, u, i, k - 1);
      assert Passes(cell, u, k - 1);
      AsleepStep(cell, u, k - 1);
    }
  }

  lemma TickAt(cell: Cell, s: State, u: UeRun, j: nat)
    requires RunsFrom(cell, s, u) && NoSuccess(u, j, j + 1) && Ticking(cell, u.states[j])
    ensures
      var w := u.states[j + 1];
      Asleep(w) || (Ticking(cell, w) && Rank(cell, w, u.n + (j + 1)) < Rank(cell, u.states[j], u.n + j))
  {
    NextState(cell, s, u, j);
    assert u.n + (j + 1) == u.n + j + 1;
    TickStep(cell, u.states[j], u.n + j, u.inputs[j]);
  }

  lemma {:induction false} RankDrops(cell: Cell, s: State, u: UeRun, k: nat)
    requires RunsFrom(cell, s, u) && NoSuccess(u, 0, k) && Ticking(cell, s)
    ensures Asleep(u.states[k]) ||
            (Ticking(cell, u.states[k]) && Rank(cell, u.states[k], u.n + k) + k <= Rank(cell, s, u.n))
  {
    if k > 0 {
      RankDrops(cell, s, u, k - 1);
      if Asleep(u.states[k - 1]) {
        SleepsOn(cell, s, u, k - 1, k);
      } else {
        TickAt(cell, s, u, k - 1);
      }
    }
  }

  lemma ChancesBound(maxTx: nat, a: Access, n: nat)
    requires a.Valid()
    ensures Chances(maxTx, a, n) <= 1 + 8 * maxTx
  {
    WeightsBound(maxTx, a.procs);
  }

  lemma RankBound(cell: Cell, v: State, n: nat)
    requires Ticking(cell, v)
    ensures Rank(cell, v, n) <= cell.Limit() * (2 + 8 * cell.maxTx)
  {
    ChancesBound(cell.maxTx, v.access, n);
    Scaled(cell.Limit(), Chances(cell.maxTx, v.access, n), 1 + 8 * cell.maxTx);
  }

  // Whatever earlier accesses have left behind, live processes included: once Msg3
  // has been triggered and the timer runs, all transmissions end, unless MAC
  // reports success or there is another grant.
  lemma EveryRunEnds(cell: Cell, s: State, u: UeRun, j: nat)
    requires RunsFrom(cell, s, u) && Ticking(cell, s) && NoSuccess(u, 0, j + 1)
    requires j >= cell.Limit() * (2 + 8 * cell.maxTx)
    ensures !u.sent[j]
  {
    RankDrops(cell, s, u, j);
    RankBound(cell, s, u.n);
    assert Passes(cell, u, j);
    AsleepStep(cell, u, j);
  }

  // When MAC finds another UE's Msg3 in the contention resolution, the UE sends
  // nothing from that subframe on, until the next grant.
  lemma FailureEnds(cell: Cell, s: State, u: UeRun, e: nat, j: nat)
    requires RunsFrom(cell, s, u) && e <= j < |u.inputs| && forall m :: e <= m <= j ==> !u.inputs[m].rar
    requires u.states[e].raActive && Listens(u.states[e].mode) && u.inputs[e].downlink == Contended
    ensures !u.sent[j]
  {
    FailureStep(cell, s, u, e);
    SleepsOn(cell, s, u, e + 1, j + 1);
  }

  lemma FailureStep(cell: Cell, s: State, u: UeRun, e: nat)
    requires RunsFrom(cell, s, u) && e < |u.inputs| && !u.inputs[e].rar
    requires u.states[e].raActive && Listens(u.states[e].mode) && u.inputs[e].downlink == Contended
    ensures !u.sent[e] && Asleep(u.states[e + 1])
  {
    NextState(cell, s, u, e);
  }

  // An expiry of the timer, and contention, leave RA_active cleared, unless a new
  // access starts on the PRACH in that very subframe.
  lemma FailureClears(cell: Cell, s: State, u: UeRun, j: nat)
    requires RunsFrom(cell, s, u) && j < |u.inputs|
    requires
      var v, x := u.states[j], u.inputs[j];
      || (v.timerOn && v.cnt + 1 == 8 * (1 + cell.timer))
      || (v.raActive && v.mode != NotSynched && v.mode != Prach && x.downlink == Contended)
    ensures u.states[j + 1].raActive ==> u.inputs[j].preamble && u.states[j + 1].mode == Prach
  {
    NextState(cell, s, u, j);
    ModeAndTimer(cell, u.states[j], u.n + j, u.inputs[j]);
  }

  lemma SetHere(cell: Cell, s: State, u: UeRun, j: nat)
    requires RunsFrom(cell, s, u) && j < |u.inputs| && !u.states[j].raActive && u.states[j + 1].raActive
    ensures u.inputs[j].preamble && u.states[j + 1].mode == Prach
  {
    NextState(cell, s, u, j);
    ModeAndTimer(cell, u.states[j], u.n + j, u.inputs[j]);
  }

  // Nothing but such a start ever sets it again, in any run.
  lemma {:induction false} SetByPreambleOnly(cell: Cell, s: State, u: UeRun, b: nat, k: nat) returns (m: nat)
    requires RunsFrom(cell, s, u) && b <= k <= |u.inputs| && !u.states[b].raActive && u.states[k].raActive
    ensures b <= m < k && u.inputs[m].preamble && u.states[m + 1].mode == Prach
  {
    if u.states[k - 1].raActive {
      m := SetByPreambleOnly(cell, s, u, b, k - 1);
    } else {
      SetHere(cell, s, u, k - 1);
      m := k - 1;
    }
  }

  // After success: all processes idle, and no timer.
  predicate Done(v: State) {
    && v.access.Valid() && v.mode == Pusch && !v.raActive && !v.timerOn && !v.access.active
    && forall p :: 0 <= p < 8 ==> !v.access.procs[p].live
  }

  lemma DoneStep(cell: Cell, v: State, n: nat, x: Input)
    requires Done(v)
    ensures
      var (w, sent) := UeSubframe(cell, v, n, x);
      var p := PidOf(n + 4);
      && Done(w) && sent == v.access.procs[p].scheduled
      && w.access.procs == v.access.procs[p := v.access.procs[p].(scheduled := false)]
  {
    PidsOfTime(n + 4);
  }

  lemma SuccessStep(cell: Cell, v: State, n: nat, x: Input)
    requires v.access.Valid() && v.raActive && Listens(v.mode) && x.downlink == Resolved
    ensures
      var w := UeSubframe(cell, v, n, x).0;
      Done(w) && !w.access.procs[PidOf(n + 4)].scheduled
  {
    PidsOfTime(n + 4);
  }

  lemma {:induction false} StaysDone(cell: Cell, s: State, u: UeRun, e: nat, k: nat)
    requires RunsFrom(cell, s, u) && e < k <= |u.inputs|
    requires u.states[e].raActive && Listens(u.states[e].mode) && u.inputs[e].downlink == Resolved
    ensures Done(u.states[k])
  {
    assert Passes(cell, u, k - 1);
    if e == k - 1 {
      SuccessStep(cell, u.states[e], u.n + e, u.inputs[e]);
    } else {
      StaysDone(cell, s, u, e, k - 1);
      DoneStep(cell, u.states[k - 1], u.n + (k - 1), u.inputs[k - 1]);
    }
  }

  // The process of subframe d has transmitted then, if at all.
  lemma {:induction false} StaysClear(cell: Cell, s: State, u: UeRun, e: nat, d: nat, k: nat)
    requires RunsFrom(cell, s, u) && e <= d < k <= |u.inputs|
    requires u.states[e].raActive && Listens(u.states[e].mode) && u.inputs[e].downlink == Resolved
    ensures Done(u.states[k]) && !u.states[k].access.procs[PidOf(u.n + d + 4)].scheduled
  {
    if k == d + 1 {
      IsCleared(cell, s, u, e, d);
    } else {
      StaysClear(cell, s, u, e, d, k - 1);
      NextState(cell, s, u, k - 1);
      DoneStep(cell, u.states[k - 1], u.n + (k - 1), u.inputs[k - 1]);
    }
  }

  lemma IsCleared(cell: Cell, s: State, u: UeRun, e: nat, d: nat)
    requires RunsFrom(cell, s, u) && e <= d < |u.inputs|
    requires u.states[e].raActive && Listens(u.states[e].mode) && u.inputs[e].downlink == Resolved
    ensures Done(u.states[d + 1]) && !u.states[d + 1].access.procs[PidOf(u.n + d + 4)].scheduled
  {
    NextState(cell, s, u, d);
    if e == d {
      SuccessStep(cell, u.states[e], u.n + e, u.inputs[e]);
    } else {
      StaysDone(cell, s, u, e, d);
      DoneStep(cell, u.states[d], u.n + d, u.inputs[d]);
    }
  }

  // When MAC reports success in subframe e, what is still scheduled goes out
  // within 8 subframes, and then nothing more, whatever is detected or received.
  lemma SuccessEnds(cell: Cell, s: State, u: UeRun, e: nat, j: nat)
    requires RunsFrom(cell, s, u) && e + 8 <= j < |u.inputs|
    requires u.states[e].raActive && Listens(u.states[e].mode) && u.inputs[e].downlink == Resolved
    ensures !u.sent[j]
  {
    StaysClear(cell, s, u, e, j - 8, j);
    SameProcess(u.n + (j - 8) + 4, 1);
    assert u.n + (j - 8) + 4 + 8 * 1 == u.n + j + 4;
    assert Passes(cell, u, j);
    DoneStep(cell, u.states[j], u.n + j, u.inputs[j]);
  }

  // ----- Leftovers of an earlier access -----

  // One answer for a process that awaits it. A NAK leads to a transmission 4
  // subframes later exactly if transmissions are left or the UE no longer takes
  // itself to be in random access, and neither is it on the PRACH nor does the
  // timer run out. On the PRACH the process stays scheduled. An ACK ends random
  // access, the process's own or not.
  lemma RetransmitsIff(cell: Cell, v: State, n: nat, x: Input, i: nat)
    requires v.access.Valid() && v.access.procs[PidOf(n + 4)] == Proc(true, false, i)
    requires Undecided(x) && !x.rar
    ensures
      var (w, sent) := UeSubframe(cell, v, n, x);
      var again, mustWait := x.nak && (i + 1 < cell.maxTx || !v.access.active), v.mode == Prach || Expires(cell, v);
      && (sent <==> again && !mustWait)
      && w.access.procs[PidOf(n + 4)] ==
         (if again then Proc(true, mustWait, i + 1) else Proc(false, false, if x.nak then i + 1 else 0))
      && w.access.active == (again && v.access.active)
      && (sent ==> w.timerOn == v.timerOn)
  {
    PidsOfTime(n);
    PidsOfTime(n + 4);
    LiveDoesNotTrigger(cell.maxTx, v.access, n, x.nak);
  }

  // After the grant and before Msg3: the two processes that matter are m, Msg3's
  // own, and p, answered in the subframe between.
  ghost predicate Expecting(v: State, n: nat, m: Proc) {
    v.access.Valid() && InAccess(v.mode) && !v.timerOn && v.access.procs[MainPid(n)] == m
  }

  lemma GrantWithLeftovers(cell: Cell, s: State, n: nat, x: Input)
    requires s.access.Valid() && s.mode != Pusch && !s.timerOn && x.rar && x.downlink == NoDownlink
    ensures
      var w := UeSubframe(cell, s, n, x).0;
      && Expecting(w, n, s.access.procs[MainPid(n)].(round := 0))
      && w.access.procs[PidOf(n + 5)] == s.access.procs[PidOf(n + 5)]
      && Aims(w.access, n + 6, SameFrame(n, 6), n)
  {
    var b := Answered(cell.maxTx, s.access, n / 10, n % 10, x.nak);
    AnsweredElsewhere(cell.maxTx, s.access, n, x.nak, 1);
    AnsweredElsewhere(cell.maxTx, s.access, n, x.nak, 2);
    ShortShift(n + 5, 1);
    StoredByGrant(n);
    TriggersIff(AfterGrant(b, n), n + 6, SameFrame(n, 6), n, n + 4);
    PidsOfTime(n + 4);
  }

  lemma AnsweredElsewhere(maxTx: nat, a: Access, n: nat, nak: bool, d: nat)
    requires a.Valid() && 0 < d < 8
    ensures PidOf(n + 4 + d) != PidOf(n + 4)
    ensures Answered(maxTx, a, n / 10, n % 10, nak).procs[PidOf(n + 4 + d)] == a.procs[PidOf(n + 4 + d)]
  {
    PidsOfTime(n);
    ShortShift(n + 4, d);
  }

  lemma SecondWithLeftovers(cell: Cell, v: State, n: nat, x: Input, m: Proc, p: Proc)
    requires Expecting(v, n, m) && Aims(v.access, n + 6, SameFrame(n, 6), n) && v.access.procs[PidOf(n + 5)] == p
    requires !x.rar && Undecided(x)
    ensures
      var w := UeSubframe(cell, v, n + 1, x).0;
      && Expecting(w, n, m)
      && if p.live then
           && w.access.active == (x.nak && p.round + 1 < cell.maxTx)
           && (w.access.active ==> w.access.subframe == (n + 9) % 10)
         else Aims(w.access, n + 6, SameFrame(n, 6), n)
  {
    assert n + 1 + 4 == n + 5;
    PidsOfTime(n + 5);
    SecondAnswer(cell.maxTx, v.access, n, x.nak, m, p);
    if !p.live {
      TriggersIff(v.access, n + 6, SameFrame(n, 6), n, n + 5);
    }
  }

  lemma SecondAnswer(maxTx: nat, a: Access, n: nat, nak: bool, m: Proc, p: Proc)
    requires a.Valid() && a.active && a.procs[MainPid(n)] == m && a.procs[PidOf(n + 5)] == p
    ensures
      var b := Answered(maxTx, a, (n + 1) / 10, (n + 1) % 10, nak);
      && PidOf(n + 5) != MainPid(n) && b.procs[MainPid(n)] == m
      && if p.live then b.active == (nak && p.round + 1 < maxTx) && (b.active ==> b.subframe == (n + 9) % 10)
         else b == a
    ensures (n + 9) % 10 != (n + 5) % 10
  {
    PidsOfTime(n + 1);
    assert n + 1 + 4 == n + 5 && n + 1 + 8 == n + 9;
    StoredByNak(n + 1, a.frame, a.subframe);
    ShortShift(n + 5, 1);
    ShortShift(n + 5, 4);
  }

  lemma ThirdWithLeftovers(cell: Cell, v: State, n: nat, x: Input, m: Proc)
    requires Expecting(v, n, m) && !x.rar && Undecided(x)
    requires v.access.active ==> Aims(v.access, n + 6, SameFrame(n, 6), n) || v.access.subframe == (n + 9) % 10
    ensures
      var (w, sent) := UeSubframe(cell, v, n + 2, x);
      var due := v.access.active && v.access.subframe == (n + 6) % 10 && SameFrame(n, 6);
      && (w.timerOn <==> !m.live && due)
      && (sent <==> if m.live then x.nak && (v.access.active ==> m.round + 1 < cell.maxTx) else m.scheduled || due)
  {
    assert n + 2 + 4 == n + 6;
    PidsOfTime(n + 6);
    ThirdAnswer(cell.maxTx, v.access, n, x.nak, m);
    ShortShift(n + 6, 3);
  }

  lemma ThirdAnswer(maxTx: nat, a: Access, n: nat, nak: bool, m: Proc)
    requires a.Valid() && a.procs[MainPid(n)] == m
    ensures
      var b := Answered(maxTx, a, (n + 2) / 10, (n + 2) % 10, nak);
      if m.live then
        && b.procs[MainPid(n)].scheduled == (nak && (a.active ==> m.round + 1 < maxTx))
        && (b.active ==> b.subframe != (n + 6) % 10)
      else b == a
  {
    PidsOfTime(n + 2);
    assert n + 2 + 4 == n + 6 && n + 2 + 8 == n + 10;
    StoredByNak(n + 2, a.frame, a.subframe);
    ShortShift(n + 6, 4);
  }

  // Msg3 with whatever earlier accesses have left behind. It goes out as Msg3, and
  // the timer starts, exactly if the stored frame number is the one the UE counts
  // to and neither its own process nor the one answered just before awaits an
  // answer. A leftover that waits for an answer is retransmitted in its place if
  // refused, and without the timer.
  lemma Msg3WithLeftoversIff(cell: Cell, s: State, u: UeRun)
    requires s.access.Valid() && s.mode != Pusch && !s.timerOn && RunsFrom(cell, s, u) && GrantOnly(u, 3)
    ensures
      var m, p := s.access.procs[MainPid(u.n)], s.access.procs[PidOf(u.n + 5)];
      var active := p.live ==> u.inputs[1].nak && p.round + 1 < cell.maxTx;
      && (u.states[3].timerOn <==> SameFrame(u.n, 6) && !m.live && !p.live)
      && (u.sent[2] <==> if m.live then u.inputs[2].nak && (active ==> 1 < cell.maxTx)
                         else m.scheduled || (SameFrame(u.n, 6) && !p.live))
  {
    var m := s.access.procs[MainPid(u.n)].(round := 0);
    AfterSecondOfLeftovers(cell, s, u, m, s.access.procs[PidOf(u.n + 5)]);
    NextState(cell, s, u, 2);
    ThirdWithLeftovers(cell, u.states[2], u.n, u.inputs[2], m);
    ShortShift(u.n + 6, 3);
  }

  lemma AfterFirstOfLeftovers(cell: Cell, s: State, u: UeRun)
    requires s.access.Valid() && s.mode != Pusch && !s.timerOn && RunsFrom(cell, s, u) && GrantOnly(u, 1)
    ensures Expecting(u.states[1], u.n, s.access.procs[MainPid(u.n)].(round := 0))
    ensures u.states[1].access.procs[PidOf(u.n + 5)] == s.access.procs[PidOf(u.n + 5)]
    ensures Aims(u.states[1].access, u.n + 6, SameFrame(u.n, 6), u.n)
  {
    NextState(cell, s, u, 0);
    GrantWithLeftovers(cell, s, u.n, u.inputs[0]);
  }

  lemma AfterSecondOfLeftovers(cell: Cell, s: State, u: UeRun, m: Proc, p: Proc)
    requires s.access.Valid() && s.mode != Pusch && !s.timerOn && RunsFrom(cell, s, u) && GrantOnly(u, 2)
    requires m == s.access.procs[MainPid(u.n)].(round := 0) && p == s.access.procs[PidOf(u.n + 5)]
    ensures
      var w, n := u.states[2], u.n;
      && Expecting(w, n, m)
      && if p.live then
           && w.access.active == (u.inputs[1].nak && p.round + 1 < cell.maxTx)
           && (w.access.active ==> w.access.subframe == (n + 9) % 10)
         else Aims(w.access, n + 6, SameFrame(n, 6), n)
  {
    AfterFirstOfLeftovers(cell, s, u);
    NextState(cell, s, u, 1);
    SecondWithLeftovers(cell, u.states[1], u.n, u.inputs[1], m, p);
  }

  lemma NextState(cell: Cell, s: State, u: UeRun, j: nat)
    requires RunsFrom(cell, s, u) && j < |u.inputs|
    ensures u.states[j].access.Valid()
    ensures (u.states[j + 1], u.sent[j]) == UeSubframe(cell, u.states[j], u.n + j, u.inputs[j])
  {
    assert Passes(cell, u, j);
  }

  // A failed access may leave both processes live: everything refused, the timer
  // runs out 16 subframes after the stray that restarted it.
  lemma FailureLeavesLive(cell: Cell, s: State, u: UeRun)
    requires IsAccess(cell, s, u, 31) && StartsAtRound0(s.access, u.n)
    requires cell.maxTx >= 4 && cell.timer == 1 && SameFrame(u.n, 6) && SameFrame(u.n + 10, 8)
    requires forall k :: 0 <= k < |u.inputs| ==> u.inputs[k].nak
    ensures
      var v := u.states[31];
      && Asleep(v) && v.access.active
      && (forall o :: 0 <= o < 8 ==> (v.access.procs[o].live <==> o == MainPid(u.n) || o == StrayPid(u.n)))
      && v.access.procs[MainPid(u.n)].round == 3 && v.access.procs[StrayPid(u.n)].round == 2
  {
    var r := Alone(cell, s, u);
    assert Refused(r, 1) by { assert MainNak(r, 1); }
    OneStray(cell, r, 29);
    OneStray(cell, r, 30);
    RunsOut(cell, s, u, r, 30);
    BothLive(cell.maxTx, s.access, r);
  }

  lemma BothLive(maxTx: nat, a: Access, r: Run)
    requires a.Quiet() && StartsAtRound0(a, r.n) && Starts(maxTx, r, AfterGrant(a, r.n)) && maxTx >= 4
    requires SameFrame(r.n, 6) && SameFrame(r.n + 10, 8) && |r.naks| > 30 && forall k :: 0 <= k < |r.naks| ==> r.naks[k]
    ensures
      && r.states[30].Valid()
      && var b := HeardAt(maxTx, r, 30);
         && b.active
         && (forall o :: 0 <= o < 8 ==> (b.procs[o].live <==> o == MainPid(r.n) || o == StrayPid(r.n)))
         && b.procs[MainPid(r.n)].round == 3 && b.procs[StrayPid(r.n)].round == 2
  {
    var n := r.n;
    MainState(maxTx, a, r, 3);
    QuietBetween(maxTx, r, AfterGrant(a, n), 6, 30, MainAim(n, 3), MainAimOk(n, 3), n + 26);
    RefusedThrice(maxTx, r);
    PidsOfTime(n + 30);
    TimesOfPids(n, 3);
  }

  lemma RefusedThrice(maxTx: nat, r: Run)
    requires maxTx >= 4 && SameFrame(r.n + 10, 8) && |r.naks| > 30 && forall k :: 0 <= k < |r.naks| ==> r.naks[k]
    ensures MainSends(maxTx, r, true, 3) && ActiveAfterMain(maxTx, r, true, 3)
    ensures StraySends(maxTx, r, true, 2) && FirstStray(maxTx, r, 2) == 1
  {
    assert MainNak(r, 1) && MainNak(r, 2) && MainNak(r, 3) && StrayNak(r, 2);
    assert Refused(r, 1) && Refused(r, 3);
    FirstStrayIsOne(maxTx, r, 2);
  }

  // p is live while the UE is in random access, has forgotten its Msg3 and has not
  // started the timer.
  predicate Stale(v: State, p: nat) {
    p < 8 && v.access.Valid() && InAccess(v.mode) && !v.timerOn && !v.access.active && v.access.procs[p].live
  }

  // In subframes b to k-1 p is refused whenever it is answered, and MAC is silent.
  predicate KeptStale(u: UeRun, p: nat, b: nat, k: nat) {
    b <= k <= |u.inputs| && forall m: nat :: b <= m < k ==>
      !u.inputs[m].rar && Undecided(u.inputs[m]) && (PidOf(u.n + m + 4) == p ==> u.inputs[m].nak)
  }

  lemma StaleStep(cell: Cell, v: State, n: nat, x: Input, p: nat)
    requires Stale(v, p) && Undecided(x) && !x.rar && (p == PidOf(n + 4) ==> x.nak)
    ensures
      var (w, sent) := UeSubframe(cell, v, n, x);
      Stale(w, p) && (p == PidOf(n + 4) ==> sent)
  {
    PidsOfTime(n);
    PidsOfTime(n + 4);
  }

  lemma {:induction false} StaleStays(cell: Cell, s: State, u: UeRun, p: nat, b: nat, k: nat)
    requires RunsFrom(cell, s, u) && KeptStale(u, p, b, k) && Stale(u.states[b], p)
    ensures Stale(u.states[k], p)
  {
    if b < k {
      StaleStays(cell, s, u, p, b, k - 1);
      NextState(cell, s, u, k - 1);
      StaleStep(cell, u.states[k - 1], u.n + (k - 1), u.inputs[k - 1], p);
    }
  }

  // With the timer stopped there need be no end: such a process is transmitted for
  // as long as it is refused.
  lemma StaleWithoutEnd(cell: Cell, s: State, u: UeRun, p: nat, b: nat, j: nat)
    requires RunsFrom(cell, s, u) && b <= j && KeptStale(u, p, b, j + 1)
    requires Stale(u.states[b], p) && PidOf(u.n + j + 4) == p
    ensures u.sent[j]
  {
    StaleStays(cell, s, u, p, b, j);
    NextState(cell, s, u, j);
    StaleStep(cell, u.states[j], u.n + j, u.inputs[j], p);
  }

  // p and q alone are live, and the UE waits for a Msg3 time that it never meets.
  ghost predicate Missed(v: State, n: nat, p: nat, q: nat) {
    && v.access.Valid() && InAccess(v.mode) && !v.timerOn && Aims(v.access, n + 6, false, n)
    && forall o :: 0 <= o < 8 ==> (v.access.procs[o].live <==> o == p || o == q)
  }

  lemma MissedStep(cell: Cell, v: State, n: nat, d: nat, x: Input, p: nat, q: nat)
    requires Missed(v, n, p, q) && Undecided(x) && !x.rar
    requires PidOf(n + d + 4) != p && PidOf(n + d + 4) != q
    ensures Missed(UeSubframe(cell, v, n + d, x).0, n, p, q)
  {
    PidsOfTime(n + d);
    PidsOfTime(n + d + 4);
    TriggersIff(v.access, n + 6, false, n, n + d + 4);
  }

  lemma MissedGrant(cell: Cell, s: State, n: nat, x: Input, p: nat, q: nat)
    requires s.access.Valid() && s.mode != Pusch && !s.timerOn && x.rar && x.downlink == NoDownlink && !SameFrame(n, 6)
    requires p == PidOf(n + 4) && p != q && forall o :: 0 <= o < 8 ==> (s.access.procs[o].live <==> o == p || o == q)
    requires x.nak && (s.access.active ==> s.access.procs[p].round + 1 < cell.maxTx)
    ensures Missed(UeSubframe(cell, s, n, x).0, n, p, q)
  {
    PidsOfTime(n);
    PidsOfTime(n + 4);
    StoredByGrant(n);
    var b := Answered(cell.maxTx, s.access, n / 10, n % 10, x.nak);
    TriggersIff(AfterGrant(b, n), n + 6, false, n, n + 4);
  }

  lemma ForgetsMissed(cell: Cell, v: State, n: nat, x: Input, p: nat)
    requires Missed(v, n, p, PidOf(n + 8)) && Undecided(x) && !x.rar && !x.nak && p < 8 && p != PidOf(n + 8)
    ensures Stale(UeSubframe(cell, v, n + 4, x).0, p)
  {
    PidsOfTime(n + 4);
    PidsOfTime(n + 8);
    assert n + 4 + 4 == n + 8;
  }

  // So it comes about: two processes are left live, as FailureLeavesLive has it,
  // the frame counter hides the next Msg3, and one of the two is acknowledged. The
  // other then transmits every 8 subframes, and no timer ends it.
  lemma LeftoverWithoutEnd(cell: Cell, s: State, u: UeRun, i: nat)
    requires s.access.Valid() && s.mode != Pusch && !s.timerOn && RunsFrom(cell, s, u) && !SameFrame(u.n, 6)
    requires forall o :: 0 <= o < 8 ==> (s.access.procs[o].live <==> o == PidOf(u.n + 4) || o == PidOf(u.n + 8))
    requires s.access.active ==> s.access.procs[PidOf(u.n + 4)].round + 1 < cell.maxTx
    requires i >= 1 && GrantOnly(u, 8 * i + 1)
    requires forall m :: 0 <= m <= 8 * i ==> u.inputs[m].nak == (m != 4)
    ensures u.sent[8 * i]
  {
    var n, p := u.n, PidOf(u.n + 4);
    ShortShift(n + 4, 4);
    MissedFirst(cell, s, u, p, PidOf(n + 8));
    MissedNext(cell, s, u, 1);
    MissedNext(cell, s, u, 2);
    MissedNext(cell, s, u, 3);
    ForgottenAt4(cell, s, u, p);
    assert KeptStale(u, p, 5, 8 * i + 1);
    SameProcess(n + 4, i);
    assert n + 4 + 8 * i == n + 8 * i + 4;
    StaleWithoutEnd(cell, s, u, p, 5, 8 * i);
  }

  lemma PidsBetween(n: nat, d: nat)
    requires 0 < d < 4
    ensures PidOf(n + 4) != PidOf(n + d + 4) && PidOf(n + d + 4) != PidOf(n + 8)
  {
    ShortShift(n + 4, d);
    ShortShift(n + d + 4, 4 - d);
  }

  lemma ForgottenAt4(cell: Cell, s: State, u: UeRun, p: nat)
    requires RunsFrom(cell, s, u) && GrantOnly(u, 5) && !u.inputs[4].nak
    requires p == PidOf(u.n + 4) && p != PidOf(u.n + 8) && Missed(u.states[4], u.n, p, PidOf(u.n + 8))
    ensures Stale(u.states[5], p)
  {
    NextState(cell, s, u, 4);
    ForgetsMissed(cell, u.states[4], u.n, u.inputs[4], p);
  }

  lemma MissedFirst(cell: Cell, s: State, u: UeRun, p: nat, q: nat)
    requires s.access.Valid() && s.mode != Pusch && !s.timerOn && RunsFrom(cell, s, u) && !SameFrame(u.n, 6)
    requires p == PidOf(u.n + 4) && p != q && forall o :: 0 <= o < 8 ==> (s.access.procs[o].live <==> o == p || o == q)
    requires s.access.active ==> s.access.procs[p].round + 1 < cell.maxTx
    requires GrantOnly(u, 1) && u.inputs[0].nak
    ensures Missed(u.states[1], u.n, p, q)
  {
    NextState(cell, s, u, 0);
    MissedGrant(cell, s, u.n, u.inputs[0], p, q);
  }

  lemma MissedNext(cell: Cell, s: State, u: UeRun, d: nat)
    requires RunsFrom(cell, s, u) && 1 <= d <= 3 && GrantOnly(u, d + 1)
    requires Missed(u.states[d], u.n, PidOf(u.n + 4), PidOf(u.n + 8))
    ensures Missed(u.states[d + 1], u.n, PidOf(u.n + 4), PidOf(u.n + 8))
  {
    NextState(cell, s, u, d);
    PidsBetween(u.n, d);
    MissedStep(cell, u.states[d], u.n, d, u.inputs[d], PidOf(u.n + 4), PidOf(u.n + 8));
  }

  // ----- Both ends -----

  // The PHICH detector is right about the process of Msg3: 4 subframes after the
  // reception it says NAK exactly if the decoding failed. In other subframes it
  // says anything.
  ghost predicate Answers(us: seq<UeState.Ue>, t: nat, es: seq<RandomAccess.Subframe>, u: UeRun)
    requires |us| == |es| + 1
  {
    forall y | 0 <= y < |es| && DueAt(us, t, y) && 0 <= t + y + 4 - u.n < |u.inputs| ::
      u.inputs[t + y + 4 - u.n].nak == !es[y].rx.decoded
  }

  // From a grant at time n on: whenever the eNodeB expects Msg3 until random access
  // ends, at its (i+1)-st time 6+8i subframes after the grant, the UE transmits for
  // that time, exactly if its timer has not run out by then and provided that MAC
  // has not heard of contention resolution. With a timer longer than 8 subframes
  // for each retransmission allowed it always transmits.
  lemma SentWheneverExpected(cfg: Config, us: seq<UeState.Ue>, t: nat, es: seq<RandomAccess.Subframe>, k: nat,
                             timer: nat, s: State, u: UeRun) returns (last: nat)
    requires IsRun(cfg, us, t, es) && Awaiting(cfg, us[0], t, k) && Msg3Round(us[0], t + k) == 0
    requires t + k == u.n + 6 && k + 8 * cfg.maxMsg3Tx < |es| && 2 + 8 * cfg.maxMsg3Tx < |u.inputs|
    requires AtRest(s) && RunsFrom(Cell(cfg.maxMsg3Tx, timer), s, u) && SameFrame(u.n, 6)
    requires Answers(us, t, es, u)
    ensures last < cfg.maxMsg3Tx && us[k + 8 * last + 1].mode != RaResponse
    ensures forall y :: 0 <= y <= k + 8 * last ==> (DueAt(us, t, y) <==> y >= k && (y - k) % 8 == 0)
    ensures
      var cell := Cell(cfg.maxMsg3Tx, timer);
      forall i: nat :: i <= last && GrantOnly(u, 3 + 8 * i) ==>
        && (u.sent[2 + 8 * i] <==> !Silent(cell, Alone(cell, s, u), StartsAtRound0(s.access, u.n), 2 + 8 * i))
        && (i <= timer ==> u.sent[2 + 8 * i])
  {
    last := RandomAccessEnds(cfg, us, t, es, 0, k);
    var cell := Cell(cfg.maxMsg3Tx, timer);
    forall i: nat | i <= last && GrantOnly(u, 3 + 8 * i)
      ensures u.sent[2 + 8 * i] <==> !Silent(cell, Alone(cell, s, u), StartsAtRound0(s.access, u.n), 2 + 8 * i)
      ensures i <= timer ==> u.sent[2 + 8 * i]
    {
      SentFromGrant(us, t, es, k, last, cell, s, u, i);
      TransmitsEveryEighth(cell, s, u, i);
    }
  }

  // All answers before the i-th retransmission are refusals, heard as such.
  lemma SentFromGrant(us: seq<UeState.Ue>, t: nat, es: seq<RandomAccess.Subframe>, k: nat, last: nat,
                      cell: Cell, s: State, u: UeRun, i: nat)
    requires EndsAfter(us, t, es, 0, k, last) && Answers(us, t, es, u) && t + k == u.n + 6
    requires i <= last && 2 + 8 * i < |u.inputs| && s.access.Valid()
    ensures Refused(Alone(cell, s, u), i)
  {
    var r := Alone(cell, s, u);
    forall m: nat | 1 <= m <= i
      ensures MainNak(r, m)
    {
      HeardRefusal(us, t, es, k, last, u, m);
    }
  }

  lemma HeardRefusal(us: seq<UeState.Ue>, t: nat, es: seq<RandomAccess.Subframe>, k: nat, last: nat, u: UeRun, m: nat)
    requires EndsAfter(us, t, es, 0, k, last) && Answers(us, t, es, u) && t + k == u.n + 6
    requires 1 <= m <= last && 2 + 8 * m < |u.inputs|
    ensures u.inputs[2 + 8 * m].nak
  {
    var z := k + 8 * (m - 1);
    RemainderIs(8, m - 1, 0);
    assert DueAt(us, t, z);
    assert t + z + 4 - u.n == 2 + 8 * m;
  }
}
