// The UE's side of random access in FDD: what it does in one subframe, and what
// its physical layer does for as long as MAC leaves it in random access. UeRuns
// adds MAC's contention-resolution timer. The UE's frame counter is not reduced
// to 10 bits, so its time n is frame n/10 and subframe n%10 for all n. In the
// subframe at time n the UE receives, and prepares what it transmits at time n+4.
module UeAccess {
  import opened Arithmetic
  import opened UeState
  import opened Msg3Timing
  import opened UlReception
  import opened RandomAccess

  // An uplink HARQ process: its status is ACTIVE, it is to transmit, its round.
  datatype Proc = Proc(live: bool, scheduled: bool, round: nat)

  // ulsch_Msg3_active, _frame and _subframe, with the HARQ processes.
  datatype Access = Access(active: bool, frame: nat, subframe: nat, procs: seq<Proc>)
  {
    predicate Valid() {
      |procs| == 8
    }

    // No process awaits an answer or is to transmit.
    predicate Quiet() {
      Valid() && forall p :: 0 <= p < 8 ==> !procs[p].live && !procs[p].scheduled
    }
  }

  // phich_subframe_to_harq_pid: the process whose transmission 4 subframes
  // before is answered. The frame number goes through 8 bits.
  function PhichPid(frame: nat, sf: nat): (p: nat)
    ensures p < 8
  {
    if sf < 4 then HarqPid((frame - 1) % 256, sf + 6) else HarqPid(frame % 256, sf - 4)
  }

  // All numberings of processes are the time modulo 8, and a PHICH at time n
  // answers the process of time n-4, which is also that of time n+4.
  lemma PidsOfTime(n: nat)
    ensures HarqPid(n / 10, n % 10) == PidOf(n)
    ensures PhichPid(n / 10, n % 10) == PidOf(n + 4)
  {
    var f, s := n / 10, n % 10;
    SameRemainder(8, f, 2 * f + s);
    if s < 4 {
      AnsweredPid(f - 1, s + 6);
    } else {
      AnsweredPid(f, s - 4);
    }
  }

  lemma AnsweredPid(f: int, s: nat)
    ensures HarqPid(f % 256, s) == (10 * f + s + 8) % 8
  {
    var q, g := f / 256, f % 256;
    SameRemainder(8, f + 64 * q + 1, 2 * g + s);
  }

  // The Msg3 part of process_rar.
  function Granted(a: Access, frame: nat, sf: nat): (r: Access)
    requires a.Valid()
    ensures r.Valid()
  {
    var (f, s) := InitialAlloc(sf, frame);
    var p := HarqPid(f, s);
    Access(true, f, s, a.procs[p := a.procs[p].(round := 0)])
  }

  // rx_phich: an answer, true for NAK, counts only for a live process.
  function Answered(maxTx: nat, a: Access, frame: nat, sf: nat, nak: bool): (r: Access)
    requires a.Valid()
    ensures r.Valid()
  {
    var p := PhichPid(frame, sf);
    var round := a.procs[p].round + 1;
    if !a.procs[p].live then a
    else if !nak then a.(active := false, procs := a.procs[p := Proc(false, false, 0)])
    else if !a.active then a.(procs := a.procs[p := Proc(true, true, round)])
    else
      var (f, s) := RetransmissionAlloc(FDD, sf, frame, a.frame, a.subframe);
      Access(round < maxTx, f, s, a.procs[p := Proc(round < maxTx, round < maxTx, round)])
  }

  // The Msg3 trigger of ue_ulsch_uespec_procedures.
  predicate Triggers(a: Access, frameTx: nat, sfTx: nat) {
    a.active && a.frame == frameTx && a.subframe == sfTx
  }

  // ue_ulsch_uespec_procedures: whether a PUSCH is sent.
  function Transmitted(a: Access, frameTx: nat, sfTx: nat): (r: (Access, bool))
    requires a.Valid()
    ensures r.0.Valid()
  {
    var p := HarqPid(frameTx, sfTx);
    var q := a.procs[p];
    var sent := q.scheduled || Triggers(a, frameTx, sfTx);
    (a.(procs := a.procs[p := Proc(q.live || (Triggers(a, frameTx, sfTx) && q.round == 0), false, q.round)]), sent)
  }

  // ----- MAC -----

  // maxHARQ_Msg3Tx, and the cell's mac_ContentionResolutionTimer: 0, 1, ..., 7
  // stand for 8, 16, ..., 64 subframes.
  datatype Cell = Cell(maxTx: nat, timer: nat)
  {
    function Limit(): (l: nat) {
      8 * (1 + timer)
    }
  }

  // The UE: its uplink, UE_mode, and MAC's RA_active with the
  // contention-resolution timer.
  datatype State = State(access: Access, mode: Mode, raActive: bool, timerOn: bool, cnt: nat)

  // What comes for the UE's C-RNTI: nothing, a downlink assignment, one whose block
  // holds a contention-resolution element with the UE's own Msg3, or with another.
  datatype Downlink = NoDownlink | Data | Resolved | Contended

  // What one subframe brings: the PHICH detector's word, the downlink, a
  // random-access response to the UE's preamble, and, on the PRACH, a new access.
  datatype Input = Input(nak: bool, downlink: Downlink, rar: bool, preamble: bool)

  // UE_mode above PRACH: downlink assignments are acted upon.
  predicate Listens(mode: Mode) {
    mode != NotSynched && mode != Prach
  }

  // ra_succeeded: all uplink processes IDLE, Msg3 forgotten.
  function Released(a: Access): (r: Access)
    requires a.Valid()
    ensures r.Valid()
  {
    a.(active := false, procs := seq(8, p requires 0 <= p < 8 => a.procs[p].(live := false)))
  }

  // ue_send_sdu on a contention-resolution element, with ra_succeeded or
  // ra_failed; the latter changes UE_mode only.
  function Decided(s: State, same: bool): (r: State)
    requires s.access.Valid()
    ensures r.access.Valid()
  {
    if !s.raActive then s
    else if same then State(Released(s.access), Pusch, false, false, s.cnt)
    else s.(mode := Prach, raActive := false, timerOn := false)
  }

  // The PDCCH and then the PDSCH: an assignment alone already means mode PUSCH.
  function Told(s: State, d: Downlink): (r: State)
    requires s.access.Valid()
    ensures r.access.Valid()
  {
    if d == NoDownlink || !Listens(s.mode) then s
    else if d == Data then s.(mode := Pusch)
    else Decided(s.(mode := Pusch), d == Resolved)
  }

  // process_rar
  function Admitted(s: State, frame: nat, sf: nat): (r: State)
    requires s.access.Valid()
    ensures r.access.Valid()
  {
    if s.mode == Pusch then s else s.(access := Granted(s.access, frame, sf), mode := RaResponse)
  }

  // The timer runs out in this subframe.
  predicate Expires(cell: Cell, s: State) {
    s.timerOn && s.cnt + 1 == cell.Limit()
  }

  // The contention-resolution timer in ue_scheduler.
  function TimerCounted(cell: Cell, s: State): (r: State)
    ensures r.access == s.access
  {
    if !s.timerOn then s
    else if Expires(cell, s) then State(s.access, Prach, false, false, s.cnt + 1)
    else s.(cnt := s.cnt + 1)
  }

  // phy_procedures_UE_TX: on the PRACH nothing but preambles is sent. A Msg3
  // trigger, unlike a retransmission, makes MAC start the timer.
  function AfterTx(s: State, frameTx: nat, sfTx: nat, preamble: bool): (r: (State, bool))
    requires s.access.Valid()
    ensures r.0.access.Valid()
  {
    if s.mode == Prach then (s.(raActive := s.raActive || preamble), false)
    else
      var (a, sent) := Transmitted(s.access, frameTx, sfTx);
      var msg3 := Triggers(s.access, frameTx, sfTx);
      (State(a, s.mode, s.raActive, s.timerOn || msg3, if msg3 then 0 else s.cnt), sent)
  }

  // The whole subframe at time n: reception, MAC's scheduler, transmission.
  function UeSubframe(cell: Cell, s: State, n: nat, x: Input): (r: (State, bool))
    requires s.access.Valid()
    ensures r.0.access.Valid()
  {
    var answered := s.(access := Answered(cell.maxTx, s.access, n / 10, n % 10, x.nak));
    var told := Told(answered, x.downlink);
    var admitted := if x.rar then Admitted(told, n / 10, n % 10) else told;
    AfterTx(TimerCounted(cell, admitted), (n + 4) / 10, (n + 4) % 10, x.preamble)
  }

  // What one subframe does to mode, RA_active and timer. A downlink assignment
  // means PUSCH; MAC's decision and the timer's expiry both clear RA_active, and
  // only a new access on the PRACH sets it; a timer that starts starts at 0.
  lemma ModeAndTimer(cell: Cell, s: State, n: nat, x: Input)
    requires s.access.Valid()
    ensures
      var w := UeSubframe(cell, s, n, x).0;
      var heard := x.downlink != NoDownlink && s.mode != NotSynched && s.mode != Prach;
      var decided := heard && x.downlink != Data && s.raActive;
      var expired := s.timerOn && !decided && s.cnt + 1 == 8 * (1 + cell.timer);
      var told := if decided && x.downlink == Contended then Prach else if heard then Pusch else s.mode;
      && w.mode == (if expired then Prach else if x.rar && told != Pusch then RaResponse else told)
      && (w.raActive <==> (s.raActive && !decided && !expired) || (w.mode == Prach && x.preamble))
      && (s.timerOn && !decided && !expired ==> w.timerOn && (w.cnt == s.cnt + 1 || w.cnt == 0))
      && (w.timerOn && (!s.timerOn || decided || expired) ==> w.cnt == 0 && w.mode != Prach)
  {
  }

  class Ue {
    const cell: Cell
    var access: Access
    var mode: Mode
    var raActive: bool
    var timerOn: bool
    var cnt: nat

    constructor (cell: Cell)
      ensures this.cell == cell && access.Quiet() && !access.active && mode == Prach && !raActive && !timerOn
    {
      this.cell := cell;
      access := Access(false, 0, 0, seq(8, _ => Proc(false, false, 0)));
      mode, raActive, timerOn, cnt := Prach, false, false, 0;
    }

    function Now(): State
      reads this
    {
      State(access, mode, raActive, timerOn, cnt)
    }

    // process_rar
    method ProcessRar(frame: nat, sf: nat)
      requires access.Valid() && sf < 10
      modifies this
      ensures Now() == Admitted(old(Now()), frame, sf)
      ensures old(mode) == Pusch ==> Now() == old(Now())
      ensures old(mode) != Pusch ==> mode == RaResponse && access.active && (raActive, timerOn, cnt) == old((raActive, timerOn, cnt))
    {
      if mode == Pusch {
        return;
      }
      access := access.(active := true);
      var f, s := GetMsg3Alloc(FDD, sf, frame, access.frame, access.subframe);
      access := access.(frame := f, subframe := s);
      var harqPid := HarqPid(f, s);
      access := access.(procs := access.procs[harqPid := access.procs[harqPid].(round := 0)]);
      mode := RaResponse;
    }

    // rx_phich
    method RxPhich(frame: nat, sf: nat, nak: bool)
      requires access.Valid() && sf < 10
      modifies `access
      ensures access == Answered(cell.maxTx, old(access), frame, sf, nak)
    {
      var harqPid := PhichPid(frame, sf);
      var p := access.procs[harqPid];
      if p.live {
        if nak {
          if access.active {
            var (f, s) := RetransmissionAlloc(FDD, sf, frame, access.frame, access.subframe);
            access := access.(frame := f, subframe := s);
            p := p.(scheduled := true, round := p.round + 1);
            if p.round >= cell.maxTx {
              p := p.(scheduled := false, live := false);
              access := access.(active := false);
            }
          } else {
            p := p.(scheduled := true, round := p.round + 1);
          }
        } else {
          p := p.(scheduled := false, live := false, round := 0);
          access := access.(active := false);
        }
        access := access.(procs := access.procs[harqPid := p]);
      }
    }

    // The UE_CONT_RES part of ue_send_sdu; same: it carries the UE's own Msg3.
    method ContentionResolution(same: bool)
      requires access.Valid()
      modifies this
      ensures Now() == Decided(old(Now()), same)
      ensures !old(raActive) ==> Now() == old(Now())
      ensures old(raActive) ==> !raActive && !timerOn && mode == if same then Pusch else Prach
      ensures !same ==> access == old(access)
    {
      if raActive {
        raActive, timerOn := false, false;
        if same {
          RaSucceeded();
        } else {
          mode := Prach;
        }
      }
    }

    method RaSucceeded()
      requires access.Valid()
      modifies `access, `mode
      ensures access == Released(old(access)) && mode == Pusch && !access.active
      ensures forall p :: 0 <= p < 8 ==> access.procs[p] == old(access.procs[p]).(live := false)
    {
      access, mode := access.(active := false), Pusch;
      for i := 0 to 8
        invariant mode == Pusch && access.Valid()
        invariant access.(procs := old(access.procs)) == old(access).(active := false)
        invariant forall p :: 0 <= p < 8 ==> access.procs[p] == old(access.procs[p]).(live := old(access.procs[p].live) && p >= i)
      {
        access := access.(procs := access.procs[i := access.procs[i].(live := false)]);
      }
    }

    // The contention-resolution timer in ue_scheduler
    method CountTimer()
      modifies this
      ensures Now() == TimerCounted(cell, old(Now()))
      ensures !old(timerOn) ==> Now() == old(Now())
      ensures old(timerOn) && old(cnt) + 1 == 8 * (1 + cell.timer) ==>
                !raActive && !timerOn && mode == Prach && access == old(access)
      ensures old(timerOn) && old(cnt) + 1 != 8 * (1 + cell.timer) ==> Now() == old(Now()).(cnt := old(cnt) + 1)
    {
      if timerOn {
        cnt := cnt + 1;
        if cnt == cell.Limit() {
          raActive, timerOn := false, false;
          mode := Prach;
        }
      }
    }

    // ue_ulsch_uespec_procedures
    method UlschProcedures(frameTx: nat, sfTx: nat) returns (sent: bool)
      requires access.Valid() && sfTx < 10 && mode != Prach
      modifies this
      ensures (Now(), sent) == AfterTx(old(Now()), frameTx, sfTx, false)
    {
      var harqPid := HarqPid(frameTx, sfTx);
      var p := access.procs[harqPid];
      var msg3 := false;
      if access.active && access.frame == frameTx && access.subframe == sfTx {
        msg3 := true;
        p := p.(scheduled := true);
        if p.round == 0 {
          p := p.(live := true);
        }
      }
      sent := false;
      if p.scheduled {
        sent := true;
        p := p.(scheduled := false);
        if msg3 {
          Msg3Transmitted();
        }
      }
      access := access.(procs := access.procs[harqPid := p]);
    }

    // Msg3_transmitted
    method Msg3Transmitted()
      modifies `timerOn, `cnt
      ensures timerOn && cnt == 0
    {
      cnt, timerOn := 0, true;
    }

    // phy_procedures_UE_TX
    method UeTx(frameTx: nat, sfTx: nat, preamble: bool) returns (sent: bool)
      requires access.Valid() && sfTx < 10
      modifies this
      ensures (Now(), sent) == AfterTx(old(Now()), frameTx, sfTx, preamble)
    {
      sent := false;
      if mode != Prach {
        sent := UlschProcedures(frameTx, sfTx);
      } else if preamble {
        raActive := true;
      }
    }

    // What the receive-transmit thread does in the subframe at time n.
    method RunSubframe(n: nat, x: Input) returns (sent: bool)
      requires access.Valid()
      modifies this
      ensures (Now(), sent) == UeSubframe(cell, old(Now()), n, x)
    {
      RxPhich(n / 10, n % 10, x.nak);
      if x.downlink != NoDownlink && Listens(mode) {
        mode := Pusch;
        if x.downlink != Data {
          ContentionResolution(x.downlink == Resolved);
        }
      }
      if x.rar {
        ProcessRar(n / 10, n % 10);
      }
      CountTimer();
      sent := UeTx((n + 4) / 10, (n + 4) % 10, x.preamble);
    }
  }

  // ----- Runs of the physical layer -----

  // The subframe at time n while MAC leaves the UE in random access: receive, then
  // prepare the transmission for n+4.
  function PhySubframe(maxTx: nat, a: Access, n: nat, nak: bool): (r: (Access, bool))
    requires a.Valid()
    ensures r.0.Valid()
  {
    Transmitted(Answered(maxTx, a, n / 10, n % 10, nak), (n + 4) / 10, (n + 4) % 10)
  }

  // A run from time n on: the state before each subframe, whether that subframe
  // prepares a transmission, and what its PHICH detector says. On processes that
  // the eNodeB has not answered the detector may say anything.
  datatype Run = Run(n: nat, naks: seq<bool>, states: seq<Access>, sent: seq<bool>)

  ghost predicate Starts(maxTx: nat, r: Run, a: Access) {
    && |r.states| == |r.naks| + 1 && |r.sent| == |r.naks|
    && r.states[0] == a
    && forall j :: 0 <= j < |r.naks| ==> Goes(maxTx, r, j)
  }

  ghost predicate Goes(maxTx: nat, r: Run, j: nat)
    requires |r.states| == |r.naks| + 1 && |r.sent| == |r.naks| && j < |r.naks|
  {
    r.states[j].Valid() && (r.states[j + 1], r.sent[j]) == PhySubframe(maxTx, r.states[j], r.n + j, r.naks[j])
  }

  // The run from state a at time n for given detections.
  function RunFrom(maxTx: nat, a: Access, n: nat, naks: seq<bool>): (r: Run)
    requires a.Valid()
    ensures Starts(maxTx, r, a) && r.n == n && r.naks == naks && r.states[|naks|].Valid()
  {
    if naks == [] then Run(n, [], [a], [])
    else
      var j := |naks| - 1;
      var before := RunFrom(maxTx, a, n, naks[..j]);
      var (b, sends) := PhySubframe(maxTx, before.states[j], n + j, naks[j]);
      var r := Run(n, naks, before.states + [b], before.sent + [sends]);
      GoesOn(maxTx, before, r, a);
      r
  }

  lemma GoesOn(maxTx: nat, before: Run, r: Run, a: Access)
    requires Starts(maxTx, before, a) && r.n == before.n && |r.naks| == |before.naks| + 1 && r.naks[..|before.naks|] == before.naks
    requires |r.states| == |before.states| + 1 && r.states[..|before.states|] == before.states
    requires |r.sent| == |before.sent| + 1 && r.sent[..|before.sent|] == before.sent
    requires Goes(maxTx, r, |before.naks|)
    ensures Starts(maxTx, r, a)
  {
    var states, sent, naks := r.states[..|before.states|], r.sent[..|before.sent|], r.naks[..|before.naks|];
    assert r.states[0] == states[0];
    forall j | 0 <= j < |r.naks|
      ensures Goes(maxTx, r, j)
    {
      if j < |before.naks| {
        assert Goes(maxTx, before, j);
        assert r.states[j] == states[j] && r.states[j + 1] == states[j + 1] && r.sent[j] == sent[j] && r.naks[j] == naks[j];
      }
    }
  }

  // The frame number stored at time n for a transmission `ahead` subframes on is
  // the one the UE counts to.
  predicate SameFrame(n: nat, ahead: nat) {
    n / 10 == (n + ahead) / 10 || n / 10 + 1 < 1024
  }

  lemma StoredByGrant(n: nat)
    ensures
      var (f, s) := InitialAlloc(n % 10, n / 10);
      && s == (n + 6) % 10 && HarqPid(f, s) == PidOf(n + 6)
      && if SameFrame(n, 6) then f == (n + 6) / 10 else f < n / 10
  {
    var f := n / 10;
    Wraps(f);
    if n % 10 + 6 > 9 {
      RemainderIs(10, f + 1, n % 10 - 4);
      PidOfWrapped(f + 1, n % 10 - 4);
    } else {
      RemainderIs(10, f, n % 10 + 6);
      PidsOfTime(n + 6);
    }
  }

  lemma Wraps(f: nat)
    ensures if f + 1 < 1024 then (f + 1) % 1024 == f + 1 else (f + 1) % 1024 + 1 < f
  {
  }

  lemma StoredByNak(n: nat, f0: nat, s0: nat)
    ensures
      var (f, s) := RetransmissionAlloc(FDD, n % 10, n / 10, f0, s0);
      && s == (n + 8) % 10
      && if SameFrame(n, 8) then f == (n + 8) / 10 else f + 1 < n / 10
  {
    var f := n / 10;
    Wraps(f);
    if n % 10 + 8 > 9 {
      RemainderIs(10, f + 1, n % 10 - 2);
    } else {
      RemainderIs(10, f, n % 10 + 8);
    }
  }

  // The Msg3 time stored in a is t, or, if not ok, a frame number that the UE,
  // whose time is past lo, no longer meets.
  ghost predicate Aims(a: Access, t: nat, ok: bool, lo: nat) {
    a.active && a.subframe == t % 10 && if ok then a.frame == t / 10 else a.frame < lo / 10
  }

  lemma TriggersIff(a: Access, t: nat, ok: bool, lo: nat, x: nat)
    requires Aims(a, t, ok, lo) && x >= lo
    ensures Triggers(a, x / 10, x % 10) <==> ok && x == t
  {
  }

  // No process but p and q is live, and none is to transmit.
  ghost predicate Settled(a: Access, p: nat, q: nat) {
    && a.Valid() && p < 8 && q < 8
    && forall o :: 0 <= o < 8 ==> !a.procs[o].scheduled && (o != p && o != q ==> !a.procs[o].live)
  }

  // Nothing is answered and no Msg3 is due: the subframe changes nothing.
  lemma Idles(maxTx: nat, a: Access, n: nat, nak: bool, p: nat, q: nat, t: nat, ok: bool, lo: nat)
    requires Settled(a, p, q) && (a.active ==> Aims(a, t, ok, lo) && lo <= n + 4 && !(ok && t == n + 4))
    requires !a.procs[PidOf(n + 4)].live
    ensures PhySubframe(maxTx, a, n, nak) == (a, false)
  {
    PidsOfTime(n);
    PidsOfTime(n + 4);
    if a.active {
      TriggersIff(a, t, ok, lo, n + 4);
    }
    IdlesAt(maxTx, a, n / 10, n % 10, (n + 4) / 10, (n + 4) % 10, nak);
  }

  lemma IdlesAt(maxTx: nat, a: Access, frame: nat, sf: nat, frameTx: nat, sfTx: nat, nak: bool)
    requires a.Valid() && PhichPid(frame, sf) == HarqPid(frameTx, sfTx) && !Triggers(a, frameTx, sfTx)
    requires !a.procs[PhichPid(frame, sf)].live && !a.procs[PhichPid(frame, sf)].scheduled
    ensures Transmitted(Answered(maxTx, a, frame, sf, nak), frameTx, sfTx) == (a, false)
  {
    var o := PhichPid(frame, sf);
    assert a.procs[o := a.procs[o]] == a.procs;
  }

  // ----- The first Msg3 -----

  function AfterGrant(a: Access, n: nat): (g: Access)
    requires a.Valid()
    ensures g.Valid()
  {
    Granted(a, n / 10, n % 10)
  }

  // Msg3's process, and the process of the times 4 subframes off.
  function MainPid(n: nat): (p: nat)
    ensures p < 8
  {
    PidOf(n + 6)
  }

  function StrayPid(n: nat): (p: nat)
    ensures p < 8 && p != MainPid(n)
  {
    ShortShift(n + 6, 4);
    PidOf(n + 10)
  }

  lemma GrantAims(a: Access, n: nat)
    requires a.Quiet()
    ensures
      var g := AfterGrant(a, n);
      && g.Quiet() && Settled(g, MainPid(n), StrayPid(n))
      && g.procs[MainPid(n)].round == 0 && g.procs[StrayPid(n)] == a.procs[StrayPid(n)]
      && Aims(g, n + 6, SameFrame(n, 6), n)
  {
    StoredByGrant(n);
  }

  // Nothing is sent as long as Msg3 is not due.
  lemma {:induction false} NothingYet(maxTx: nat, a: Access, r: Run, j: nat)
    requires a.Quiet() && Starts(maxTx, r, AfterGrant(a, r.n)) && j <= |r.naks| && (SameFrame(r.n, 6) ==> j <= 2)
    ensures r.states[j] == AfterGrant(a, r.n) && forall k :: 0 <= k < j ==> !r.sent[k]
  {
    if j > 0 {
      NothingYet(maxTx, a, r, j - 1);
      var n := r.n;
      GrantAims(a, n);
      assert Goes(maxTx, r, j - 1);
      Idles(maxTx, r.states[j - 1], n + (j - 1), r.naks[j - 1], MainPid(n), StrayPid(n), n + 6, SameFrame(n, 6), n);
    }
  }

  // Msg3 goes out at its time: its process is live from then on.
  lemma SendsMsg3(maxTx: nat, g: Access, n: nat, nak: bool, q: nat)
    requires Settled(g, PidOf(n + 4), q) && g.Quiet() && Aims(g, n + 4, true, n) && g.procs[PidOf(n + 4)].round == 0
    requires q != PidOf(n + 4)
    ensures
      var (b, sent) := PhySubframe(maxTx, g, n, nak);
      && sent && Settled(b, PidOf(n + 4), q) && b.procs[PidOf(n + 4)] == Proc(true, false, 0)
      && b.procs[q] == g.procs[q] && Aims(b, n + 4, true, n)
  {
    PidsOfTime(n);
    PidsOfTime(n + 4);
    TriggersIff(g, n + 4, true, n, n + 4);
  }

  // ----- When the physical layer transmits -----

  // The i-th answer for Msg3's process, and the q-th for the other, is a NAK.
  predicate MainNak(r: Run, i: nat) {
    2 + 8 * i < |r.naks| && r.naks[2 + 8 * i]
  }

  predicate StrayNak(r: Run, q: nat) {
    6 + 8 * q < |r.naks| && r.naks[6 + 8 * q]
  }

  // The first i transmissions of Msg3 are refused.
  predicate Refused(r: Run, i: nat) {
    forall m :: 1 <= m <= i ==> MainNak(r, m)
  }

  // The q-th refusal leaves transmissions and stores a time that the UE counts
  // to: 4 subframes after the retransmission, on the other process.
  predicate StrayDue(maxTx: nat, r: Run, q: nat) {
    1 <= q < maxTx && Refused(r, q) && SameFrame(r.n + 2 + 8 * q, 8)
  }

  // The first of these up to the q-th, 0 if there is none.
  function FirstStray(maxTx: nat, r: Run, q: nat): (k: nat)
    ensures k <= q && (k > 0 ==> StrayDue(maxTx, r, k))
  {
    if q == 0 then 0
    else
      var k := FirstStray(maxTx, r, q - 1);
      if k > 0 then k else if StrayDue(maxTx, r, q) then q else 0
  }

  // The other process transmits after its q-th time. With its round at 0 the
  // first stray makes it live, and it goes on for as long as it is refused, with
  // no limit. Otherwise it sends when a stray is due and awaits no answer.
  predicate StraySends(maxTx: nat, r: Run, round0: bool, q: nat) {
    if round0 then
      var k := FirstStray(maxTx, r, q);
      k > 0 && forall m :: k < m <= q ==> StrayNak(r, m)
    else StrayDue(maxTx, r, q)
  }

  // The other process was live and has been acknowledged: the UE has forgotten
  // its random access.
  predicate Forgotten(maxTx: nat, r: Run, round0: bool, q: nat) {
    round0 && FirstStray(maxTx, r, q) > 0 && !StraySends(maxTx, r, round0, q)
  }

  // Msg3's process transmits for the i+1-st time: as long as it is refused, up to
  // the limit, or beyond if by then random access was forgotten.
  predicate MainSends(maxTx: nat, r: Run, round0: bool, i: nat) {
    i == 0 || (Refused(r, i) && (i < maxTx || (maxTx > 0 && Forgotten(maxTx, r, round0, maxTx - 1))))
  }

  // At 6+8i and 10+8i subframes after the grant the process of that time transmits.
  predicate SendsAt(maxTx: nat, r: Run, round0: bool, j: nat) {
    || (j % 8 == 2 && MainSends(maxTx, r, round0, j / 8))
    || (j % 8 == 6 && StraySends(maxTx, r, round0, j / 8))
  }

  // ulsch_Msg3_active after the i-th answer for Msg3's process, and after the
  // i-th for the other.
  predicate ActiveAfterMain(maxTx: nat, r: Run, round0: bool, i: nat) {
    MainSends(maxTx, r, round0, i) && (i == 0 || i < maxTx) && !(i > 0 && Forgotten(maxTx, r, round0, i - 1))
  }

  predicate ActiveAfterStray(maxTx: nat, r: Run, round0: bool, i: nat) {
    MainSends(maxTx, r, round0, i) && (i == 0 || i < maxTx) && !Forgotten(maxTx, r, round0, i)
  }

  // What one more answer for Msg3's process does to these.
  lemma NextMain(maxTx: nat, r: Run, round0: bool, i: nat)
    ensures
      var live, active := MainSends(maxTx, r, round0, i), ActiveAfterStray(maxTx, r, round0, i);
      var sends := live && MainNak(r, i + 1) && (active ==> i + 1 < maxTx);
      && MainSends(maxTx, r, round0, i + 1) == sends
      && ActiveAfterMain(maxTx, r, round0, i + 1) == (sends && active)
      && (active ==> live)
  {
    assert Refused(r, i + 1) <==> Refused(r, i) && MainNak(r, i + 1);
  }

  // And one more for the other process.
  lemma NextStray(maxTx: nat, r: Run, round0: bool, i: nat)
    ensures
      var live := i > 0 && round0 && StraySends(maxTx, r, round0, i - 1);
      var active := ActiveAfterMain(maxTx, r, round0, i);
      var due := active && i > 0 && SameFrame(r.n + 2 + 8 * i, 8);
      var k := if i == 0 then 0 else FirstStray(maxTx, r, i - 1);
      && StraySends(maxTx, r, round0, i) == (if live then StrayNak(r, i) else due)
      && ActiveAfterStray(maxTx, r, round0, i) == (active && !(live && !StrayNak(r, i)))
      && (active && live ==> i - k < maxTx)
      && (live ==> FirstStray(maxTx, r, i) == k && 0 < k < i)
      && (round0 && !live && due ==> FirstStray(maxTx, r, i) == i && k == 0)
      && (round0 && !live && !due && FirstStray(maxTx, r, i) == 0 ==> k == 0)
  {
    if i > 0 && FirstStray(maxTx, r, i - 1) == i {
      assert false;
    }
  }

  // ----- The states of the UE -----

  // The other process at its q-th time.
  ghost predicate StrayProc(maxTx: nat, r: Run, round0: bool, q: nat, p: Proc) {
    && p.live == (round0 && StraySends(maxTx, r, round0, q))
    && (p.live ==> p.round == q - FirstStray(maxTx, r, q))
    && (round0 && FirstStray(maxTx, r, q) == 0 ==> p.round == 0)
    && (!round0 ==> p.round != 0)
  }

  // The Msg3 time stored last is one of 6, 10, 14, ... subframes after the grant,
  // or not one that the UE counts to.
  ghost predicate Aligned(a: Access, n: nat, t: nat, ok: bool, lo: nat) {
    a.active ==> Aims(a, t, ok, lo) && t % 4 == (n + 6) % 4
  }

  function MainAim(n: nat, i: nat): nat {
    if i == 0 then n + 6 else n + 10 + 8 * i
  }

  predicate MainAimOk(n: nat, i: nat) {
    i == 0 || SameFrame(n + 2 + 8 * i, 8)
  }

  // After the i-th answer for Msg3's process.
  ghost predicate AtMain(maxTx: nat, r: Run, round0: bool, i: nat, a: Access) {
    && Settled(a, MainPid(r.n), StrayPid(r.n))
    && a.active == ActiveAfterMain(maxTx, r, round0, i)
    && MainProc(maxTx, r, round0, i, a.procs[MainPid(r.n)])
    && StrayProc(maxTx, r, round0, if i == 0 then 0 else i - 1, a.procs[StrayPid(r.n)])
    && Aligned(a, r.n, MainAim(r.n, i), MainAimOk(r.n, i), r.n + 2 + 8 * i)
  }

  ghost predicate MainProc(maxTx: nat, r: Run, round0: bool, i: nat, p: Proc) {
    p.live == MainSends(maxTx, r, round0, i) && (p.live ==> p.round == i)
  }

  // After the i-th answer for the other process.
  ghost predicate AtStray(maxTx: nat, r: Run, round0: bool, i: nat, a: Access) {
    && Settled(a, MainPid(r.n), StrayPid(r.n))
    && a.active == ActiveAfterStray(maxTx, r, round0, i)
    && MainProc(maxTx, r, round0, i, a.procs[MainPid(r.n)])
    && StrayProc(maxTx, r, round0, i, a.procs[StrayPid(r.n)])
    && SomeAim(a, r.n, r.n + 6 + 8 * i)
  }

  ghost predicate SomeAim(a: Access, n: nat, lo: nat) {
    exists t, ok :: Aligned(a, n, t, ok, lo)
  }

  // An answer for a live process o of p and q, at time n, takes a to b.
  ghost predicate AnswerTaken(maxTx: nat, a: Access, n: nat, nak: bool, p: nat, q: nat, o: nat, b: Access, sent: bool)
    requires Settled(a, p, q) && o < 8
  {
    && sent == (nak && (a.active ==> a.procs[o].round + 1 < maxTx))
    && b.active == (sent && a.active)
    && Settled(b, p, q) && b.procs == a.procs[o := b.procs[o]] && b.procs[o].live == sent
    && (sent ==> b.procs[o].round == a.procs[o].round + 1)
    && (b.active ==> Aims(b, n + 8, SameFrame(n, 8), n))
  }

  lemma AnswerToLive(maxTx: nat, a: Access, n: nat, nak: bool, p: nat, q: nat)
    requires Settled(a, p, q) && PidOf(n + 4) in {p, q} && a.procs[PidOf(n + 4)].live
    ensures
      var (b, sent) := PhySubframe(maxTx, a, n, nak);
      AnswerTaken(maxTx, a, n, nak, p, q, PidOf(n + 4), b, sent)
  {
    PidsOfTime(n);
    PidsOfTime(n + 4);
    StoredByNak(n, a.frame, a.subframe);
    var b := Answered(maxTx, a, n / 10, n % 10, nak);
    assert !Triggers(b, (n + 4) / 10, (n + 4) % 10);
  }

  // A time at which a process that awaits no answer sends Msg3, if that is due.
  lemma TimeOfIdle(maxTx: nat, a: Access, n: nat, nak: bool, p: nat, q: nat, t: nat, ok: bool, lo: nat)
    requires Settled(a, p, q) && PidOf(n + 4) in {p, q} && !a.procs[PidOf(n + 4)].live
    requires (a.active ==> Aims(a, t, ok, lo)) && lo <= n + 4
    ensures
      var o := PidOf(n + 4);
      var (b, sent) := PhySubframe(maxTx, a, n, nak);
      && sent == (a.active && ok && t == n + 4)
      && (b.active, b.frame, b.subframe) == (a.active, a.frame, a.subframe)
      && Settled(b, p, q) && b.procs == a.procs[o := Proc(sent && a.procs[o].round == 0, false, a.procs[o].round)]
  {
    PidsOfTime(n);
    PidsOfTime(n + 4);
    if a.active {
      TriggersIff(a, t, ok, lo, n + 4);
    }
  }

  // Subframes 4h+3 up to 4h+6, of whose times none is of either process.
  lemma {:induction false} QuietBetween(maxTx: nat, r: Run, g: Access, h: nat, j: nat, t: nat, ok: bool, lo: nat)
    requires Starts(maxTx, r, g) && 4 * h + 3 <= j <= |r.naks| && j <= 4 * h + 6 && lo <= r.n + 4 * h + 7
    requires Settled(r.states[4 * h + 3], MainPid(r.n), StrayPid(r.n)) && Aligned(r.states[4 * h + 3], r.n, t, ok, lo)
    ensures r.states[j] == r.states[4 * h + 3]
    ensures forall k :: 4 * h + 3 <= k < j ==> !r.sent[k]
  {
    if j > 4 * h + 3 {
      QuietBetween(maxTx, r, g, h, j - 1, t, ok, lo);
      assert Goes(maxTx, r, j - 1);
      BetweenTimes(r.n, h, j - 1);
      Idles(maxTx, r.states[j - 1], r.n + (j - 1), r.naks[j - 1], MainPid(r.n), StrayPid(r.n), t, ok, lo);
    }
  }

  lemma BetweenTimes(n: nat, h: nat, j: nat)
    requires 4 * h + 3 <= j < 4 * h + 6
    ensures PidOf(n + j + 4) != MainPid(n) && PidOf(n + j + 4) != StrayPid(n)
    ensures (n + j + 4) % 4 != (n + 6) % 4
  {
    BetweenModulo4(n, h, j);
    PidsModulo4(n, j + 4);
    assert n + (j + 4) == n + j + 4;
  }

  lemma BetweenModulo4(n: nat, h: nat, j: nat)
    requires 4 * h + 3 <= j < 4 * h + 6
    ensures (n + j + 4) % 4 != (n + 6) % 4
  {
    var e := j - 4 * h - 2;
    SameRemainder(4, h, n + 6 + e);
    assert (n + 6 + e) % 4 != (n + 6) % 4;
  }

  // The process of a time tells the time modulo 4.
  lemma PidsModulo4(n: nat, d: nat)
    ensures PidOf(n + d) % 4 == (n + d) % 4 && MainPid(n) % 4 == (n + 6) % 4 && StrayPid(n) % 4 == (n + 6) % 4
  {
    Modulo84(n + d);
    Modulo84(n + 6);
    Modulo84(n + 10);
    SameRemainder(4, 1, n + 6);
  }

  lemma Modulo84(x: nat)
    ensures x % 8 % 4 == x % 4
  {
    SameRemainder(4, 2 * (x / 8), x % 8);
  }

  lemma TimesOfPids(n: nat, i: nat)
    ensures PidOf(n + 2 + 8 * i + 4) == MainPid(n) && PidOf(n + 6 + 8 * i + 4) == StrayPid(n)
  {
    SameProcess(n + 6, i);
    SameProcess(n + 10, i);
  }

  // The other process is at round 0 when the grant comes.
  predicate StartsAtRound0(a: Access, n: nat)
    requires a.Valid()
  {
    a.procs[StrayPid(n)].round == 0
  }

  lemma FirstMain(maxTx: nat, a: Access, r: Run)
    requires a.Quiet() && Starts(maxTx, r, AfterGrant(a, r.n)) && SameFrame(r.n, 6) && |r.naks| > 2
    ensures r.sent[2] && AtMain(maxTx, r, StartsAtRound0(a, r.n), 0, r.states[3])
  {
    var g, n := AfterGrant(a, r.n), r.n;
    NothingYet(maxTx, a, r, 2);
    GrantAims(a, n);
    assert Goes(maxTx, r, 2);
    assert n + 2 + 4 == n + 6;
    AimsLater(g, n + 6, n, n + 2);
    SendsMsg3(maxTx, g, n + 2, r.naks[2], StrayPid(n));
  }

  lemma AimsLater(a: Access, t: nat, lo: nat, hi: nat)
    requires Aims(a, t, true, lo)
    ensures Aims(a, t, true, hi)
  {
  }

  // From one answer for Msg3's process to the next one for the other.
  lemma MainToStray(maxTx: nat, r: Run, g: Access, round0: bool, i: nat, at: nat)
    requires Starts(maxTx, r, g) && at == 6 + 8 * i < |r.naks| && AtMain(maxTx, r, round0, i, r.states[at])
    ensures AtStray(maxTx, r, round0, i, r.states[at + 1]) && r.sent[at] == StraySends(maxTx, r, round0, i)
  {
    var a, b, sent := r.states[at], r.states[at + 1], r.sent[at];
    assert Goes(maxTx, r, at);
    if a.procs[StrayPid(r.n)].live {
      TimesOfPids(r.n, i);
      AnswerToLive(maxTx, a, r.n + at, r.naks[at], MainPid(r.n), StrayPid(r.n));
      AnswerToStray(maxTx, r, round0, i, at, a, b, sent);
    } else {
      StrayOrNot(maxTx, r, round0, i, at, a, b, sent);
    }
  }

  lemma AnswerToStray(maxTx: nat, r: Run, round0: bool, i: nat, at: nat, a: Access, b: Access, sent: bool)
    requires at == 6 + 8 * i < |r.naks| && AtMain(maxTx, r, round0, i, a) && a.procs[StrayPid(r.n)].live
    requires AnswerTaken(maxTx, a, r.n + at, r.naks[at], MainPid(r.n), StrayPid(r.n), StrayPid(r.n), b, sent)
    ensures AtStray(maxTx, r, round0, i, b) && sent == StraySends(maxTx, r, round0, i)
  {
    NextStray(maxTx, r, round0, i);
    AlignedAgain(b, r.n, 2 * i + 2, r.n + at);
  }

  lemma AlignedAgain(b: Access, n: nat, h: nat, at: nat)
    requires at + 8 == n + 6 + 4 * h && (b.active ==> Aims(b, at + 8, SameFrame(at, 8), at))
    ensures Aligned(b, n, at + 8, SameFrame(at, 8), at) && SomeAim(b, n, at)
  {
    SameRemainder(4, h, n + 6);
    assert Aligned(b, n, at + 8, SameFrame(at, 8), at);
  }

  lemma StrayOrNot(maxTx: nat, r: Run, round0: bool, i: nat, at: nat, a: Access, b: Access, sent: bool)
    requires at == 6 + 8 * i < |r.naks| && AtMain(maxTx, r, round0, i, a) && !a.procs[StrayPid(r.n)].live
    requires (b, sent) == PhySubframe(maxTx, a, r.n + at, r.naks[at])
    ensures AtStray(maxTx, r, round0, i, b) && sent == StraySends(maxTx, r, round0, i)
  {
    var n, lo := r.n, r.n + 2 + 8 * i;
    TimesOfPids(n, i);
    TimeOfIdle(maxTx, a, n + at, r.naks[at], MainPid(n), StrayPid(n), MainAim(n, i), MainAimOk(n, i), lo);
    AlignedLater(a, b, n, MainAim(n, i), MainAimOk(n, i), lo, n + at);
    StrayDecided(maxTx, r, round0, i, a, b, sent);
  }

  lemma StrayDecided(maxTx: nat, r: Run, round0: bool, i: nat, a: Access, b: Access, sent: bool)
    requires AtMain(maxTx, r, round0, i, a) && !a.procs[StrayPid(r.n)].live && Settled(b, MainPid(r.n), StrayPid(r.n))
    requires sent == (a.active && MainAimOk(r.n, i) && i > 0) && b.active == a.active && SomeAim(b, r.n, r.n + 6 + 8 * i)
    requires
      var p := a.procs[StrayPid(r.n)];
      b.procs == a.procs[StrayPid(r.n) := Proc(sent && p.round == 0, false, p.round)]
    ensures AtStray(maxTx, r, round0, i, b) && sent == StraySends(maxTx, r, round0, i)
  {
    NextStray(maxTx, r, round0, i);
  }

  lemma AlignedLater(a: Access, b: Access, n: nat, t: nat, ok: bool, lo: nat, hi: nat)
    requires Aligned(a, n, t, ok, lo) && lo <= hi && (b.active, b.frame, b.subframe) == (a.active, a.frame, a.subframe)
    ensures SomeAim(b, n, hi)
  {
    assert Aligned(b, n, t, ok, hi);
  }

  // And on to the next one for Msg3's process.
  lemma StrayToMain(maxTx: nat, r: Run, g: Access, round0: bool, i: nat, at: nat)
    requires Starts(maxTx, r, g) && at == 2 + 8 * (i + 1) < |r.naks| && AtStray(maxTx, r, round0, i, r.states[at])
    ensures AtMain(maxTx, r, round0, i + 1, r.states[at + 1]) && r.sent[at] == MainSends(maxTx, r, round0, i + 1)
  {
    var a, b, sent := r.states[at], r.states[at + 1], r.sent[at];
    assert Goes(maxTx, r, at);
    if a.procs[MainPid(r.n)].live {
      TimesOfPids(r.n, i + 1);
      AnswerToLive(maxTx, a, r.n + at, r.naks[at], MainPid(r.n), StrayPid(r.n));
      AnswerToMain(maxTx, r, round0, i, at, a, b, sent);
    } else {
      MainIsDead(maxTx, r, round0, i, at, a, b, sent);
    }
  }

  lemma AnswerToMain(maxTx: nat, r: Run, round0: bool, i: nat, at: nat, a: Access, b: Access, sent: bool)
    requires at == 2 + 8 * (i + 1) < |r.naks| && AtStray(maxTx, r, round0, i, a) && a.procs[MainPid(r.n)].live
    requires AnswerTaken(maxTx, a, r.n + at, r.naks[at], MainPid(r.n), StrayPid(r.n), MainPid(r.n), b, sent)
    ensures AtMain(maxTx, r, round0, i + 1, b) && sent == MainSends(maxTx, r, round0, i + 1)
  {
    var n := r.n;
    NextMain(maxTx, r, round0, i);
    assert Aligned(b, n, MainAim(n, i + 1), MainAimOk(n, i + 1), n + at) by {
      AlignedAgain(b, n, 2 * (i + 1) + 1, n + at);
    }
  }

  lemma MainIsDead(maxTx: nat, r: Run, round0: bool, i: nat, at: nat, a: Access, b: Access, sent: bool)
    requires at == 2 + 8 * (i + 1) < |r.naks| && AtStray(maxTx, r, round0, i, a) && !a.procs[MainPid(r.n)].live
    requires (b, sent) == PhySubframe(maxTx, a, r.n + at, r.naks[at])
    ensures AtMain(maxTx, r, round0, i + 1, b) && sent == MainSends(maxTx, r, round0, i + 1)
  {
    TimesOfPids(r.n, i + 1);
    NextMain(maxTx, r, round0, i);
    TimeOfIdle(maxTx, a, r.n + at, r.naks[at], MainPid(r.n), StrayPid(r.n), 0, true, 0);
  }

  lemma QuietAfterStray(maxTx: nat, r: Run, g: Access, i: nat, j: nat)
    requires Starts(maxTx, r, g) && 7 + 8 * i <= j <= |r.naks| && j <= 10 + 8 * i
    requires Settled(r.states[7 + 8 * i], MainPid(r.n), StrayPid(r.n))
    requires SomeAim(r.states[7 + 8 * i], r.n, r.n + 6 + 8 * i)
    ensures r.states[j] == r.states[7 + 8 * i]
    ensures forall k :: 7 + 8 * i <= k < j ==> !r.sent[k]
  {
    var t, ok :| Aligned(r.states[7 + 8 * i], r.n, t, ok, r.n + 6 + 8 * i);
    assert 4 * (2 * i + 1) + 3 == 7 + 8 * i;
    QuietBetween(maxTx, r, g, 2 * i + 1, j, t, ok, r.n + 6 + 8 * i);
  }

  // The states at all answers, and what is sent there.
  lemma {:induction false} MainState(maxTx: nat, a: Access, r: Run, i: nat)
    requires a.Quiet() && Starts(maxTx, r, AfterGrant(a, r.n)) && SameFrame(r.n, 6) && 2 + 8 * i < |r.naks|
    ensures AtMain(maxTx, r, StartsAtRound0(a, r.n), i, r.states[3 + 8 * i])
    ensures r.sent[2 + 8 * i] == MainSends(maxTx, r, StartsAtRound0(a, r.n), i)
    decreases i, 0
  {
    if i == 0 {
      FirstMain(maxTx, a, r);
    } else {
      StrayState(maxTx, a, r, i - 1);
      var g, n := AfterGrant(a, r.n), r.n;
      QuietAfterStray(maxTx, r, g, i - 1, 2 + 8 * i);
      StrayToMain(maxTx, r, g, StartsAtRound0(a, n), i - 1, 2 + 8 * i);
    }
  }

  lemma {:induction false} StrayState(maxTx: nat, a: Access, r: Run, i: nat)
    requires a.Quiet() && Starts(maxTx, r, AfterGrant(a, r.n)) && SameFrame(r.n, 6) && 6 + 8 * i < |r.naks|
    ensures AtStray(maxTx, r, StartsAtRound0(a, r.n), i, r.states[7 + 8 * i])
    ensures r.sent[6 + 8 * i] == StraySends(maxTx, r, StartsAtRound0(a, r.n), i)
    decreases i, 1
  {
    MainState(maxTx, a, r, i);
    var g, n := AfterGrant(a, r.n), r.n;
    QuietBetween(maxTx, r, g, 2 * i, 6 + 8 * i, MainAim(n, i), MainAimOk(n, i), n + 2 + 8 * i);
    MainToStray(maxTx, r, g, StartsAtRound0(a, n), i, 6 + 8 * i);
  }

  // Over every run, exactly when the physical layer transmits: 6+8i subframes
  // after the grant as MainSends says, 10+8q after it as StraySends says, and at
  // no other time.
  lemma SendsExactly(maxTx: nat, a: Access, r: Run, j: nat)
    requires a.Quiet() && Starts(maxTx, r, AfterGrant(a, r.n)) && SameFrame(r.n, 6) && j < |r.naks|
    ensures r.sent[j] <==> SendsAt(maxTx, r, StartsAtRound0(a, r.n), j)
  {
    var i, s, n, g := j / 8, j % 8, r.n, AfterGrant(a, r.n);
    assert j == 8 * i + s;
    if s == 2 {
      MainState(maxTx, a, r, i);
      assert r.sent[j] == MainSends(maxTx, r, StartsAtRound0(a, n), i);
    } else if s == 6 {
      StrayState(maxTx, a, r, i);
      assert r.sent[j] == StraySends(maxTx, r, StartsAtRound0(a, n), i);
    } else if j < 2 {
      NothingYet(maxTx, a, r, j + 1);
    } else if 3 <= s < 6 {
      MainState(maxTx, a, r, i);
      QuietBetween(maxTx, r, g, 2 * i, j + 1, MainAim(n, i), MainAimOk(n, i), n + 2 + 8 * i);
    } else {
      var q := if s == 7 then i else i - 1;
      StrayState(maxTx, a, r, q);
      QuietAfterStray(maxTx, r, g, q, j + 1);
    }
  }

  // The transmission prepared in subframe j is one of Msg3 itself, with Msg3_flag.
  predicate TriggersAt(maxTx: nat, r: Run, j: nat)
    requires j < |r.naks| && j < |r.states| && r.states[j].Valid()
  {
    var n := r.n + j;
    Triggers(Answered(maxTx, r.states[j], n / 10, n % 10, r.naks[j]), (n + 4) / 10, (n + 4) % 10)
  }

  lemma ValidAt(maxTx: nat, r: Run, g: Access, j: nat)
    requires Starts(maxTx, r, g) && j < |r.naks|
    ensures r.states[j].Valid() && (TriggersAt(maxTx, r, j) ==> r.sent[j])
  {
    assert Goes(maxTx, r, j);
  }

  // Such is the first, and a stray that is due on a process which awaits no answer.
  predicate StrayTriggers(maxTx: nat, r: Run, round0: bool, q: nat) {
    StrayDue(maxTx, r, q) && (round0 ==> FirstStray(maxTx, r, q) == q)
  }

  lemma LiveDoesNotTrigger(maxTx: nat, a: Access, n: nat, nak: bool)
    requires a.Valid() && a.procs[PidOf(n + 4)].live
    ensures !Triggers(Answered(maxTx, a, n / 10, n % 10, nak), (n + 4) / 10, (n + 4) % 10)
  {
    PidsOfTime(n);
    StoredByNak(n, a.frame, a.subframe);
  }

  lemma IdleTriggers(maxTx: nat, a: Access, n: nat, nak: bool)
    requires a.Valid() && !a.procs[PidOf(n + 4)].live && !a.procs[PidOf(n + 4)].scheduled
    ensures PhySubframe(maxTx, a, n, nak).1 == Triggers(Answered(maxTx, a, n / 10, n % 10, nak), (n + 4) / 10, (n + 4) % 10)
  {
    PidsOfTime(n);
    PidsOfTime(n + 4);
  }

  lemma TriggersExactly(maxTx: nat, a: Access, r: Run, j: nat)
    requires a.Quiet() && Starts(maxTx, r, AfterGrant(a, r.n)) && SameFrame(r.n, 6) && j < |r.naks|
    ensures r.states[j].Valid()
    ensures TriggersAt(maxTx, r, j) <==> j == 2 || (j % 8 == 6 && StrayTriggers(maxTx, r, StartsAtRound0(a, r.n), j / 8))
  {
    ValidAt(maxTx, r, AfterGrant(a, r.n), j);
    SendsExactly(maxTx, a, r, j);
    var i := j / 8;
    if j % 8 == 2 {
      assert j == 2 + 8 * i;
      MainTriggers(maxTx, a, r, i);
    } else if j % 8 == 6 {
      assert j == 6 + 8 * i;
      StrayTriggersExactly(maxTx, a, r, i);
    }
  }

  lemma MainTriggers(maxTx: nat, a: Access, r: Run, i: nat)
    requires a.Quiet() && Starts(maxTx, r, AfterGrant(a, r.n)) && SameFrame(r.n, 6) && 2 + 8 * i < |r.naks|
    ensures r.states[2 + 8 * i].Valid()
    ensures TriggersAt(maxTx, r, 2 + 8 * i) <==> i == 0
  {
    var at, n, g := 2 + 8 * i, r.n, AfterGrant(a, r.n);
    ValidAt(maxTx, r, g, at);
    if i == 0 {
      NothingYet(maxTx, a, r, 2);
      GrantAims(a, n);
      TriggersIff(g, n + 6, true, n, n + 6);
      PidsOfTime(n + 2);
    } else {
      StrayState(maxTx, a, r, i - 1);
      QuietAfterStray(maxTx, r, g, i - 1, at);
      DeadMain(maxTx, r, StartsAtRound0(a, n), i, r.states[at]);
    }
  }

  lemma DeadMain(maxTx: nat, r: Run, round0: bool, i: nat, a: Access)
    requires i > 0 && 2 + 8 * i < |r.naks| && AtStray(maxTx, r, round0, i - 1, a)
    ensures
      var n := r.n + (2 + 8 * i);
      !Triggers(Answered(maxTx, a, n / 10, n % 10, r.naks[2 + 8 * i]), (n + 4) / 10, (n + 4) % 10)
  {
    var at := 2 + 8 * i;
    TimesOfPids(r.n, i);
    NextMain(maxTx, r, round0, i - 1);
    if a.procs[MainPid(r.n)].live {
      LiveDoesNotTrigger(maxTx, a, r.n + at, r.naks[at]);
    }
  }

  lemma StrayTriggersExactly(maxTx: nat, a: Access, r: Run, i: nat)
    requires a.Quiet() && Starts(maxTx, r, AfterGrant(a, r.n)) && SameFrame(r.n, 6) && 6 + 8 * i < |r.naks|
    ensures r.states[6 + 8 * i].Valid()
    ensures TriggersAt(maxTx, r, 6 + 8 * i) <==> StrayTriggers(maxTx, r, StartsAtRound0(a, r.n), i)
  {
    var at, n, g := 6 + 8 * i, r.n, AfterGrant(a, r.n);
    ValidAt(maxTx, r, g, at);
    MainState(maxTx, a, r, i);
    StrayState(maxTx, a, r, i);
    QuietBetween(maxTx, r, g, 2 * i, at, MainAim(n, i), MainAimOk(n, i), n + 2 + 8 * i);
    StrayTriggersAt(maxTx, r, g, StartsAtRound0(a, n), i);
  }

  lemma StrayTriggersAt(maxTx: nat, r: Run, g: Access, round0: bool, i: nat)
    requires Starts(maxTx, r, g) && 6 + 8 * i < |r.naks| && AtMain(maxTx, r, round0, i, r.states[6 + 8 * i])
    requires r.sent[6 + 8 * i] == StraySends(maxTx, r, round0, i)
    ensures TriggersAt(maxTx, r, 6 + 8 * i) <==> StrayTriggers(maxTx, r, round0, i)
  {
    var at, n := 6 + 8 * i, r.n;
    TimesOfPids(n, i);
    LiveStray(maxTx, r, round0, i);
    if r.states[at].procs[StrayPid(n)].live {
      LiveDoesNotTrigger(maxTx, r.states[at], n + at, r.naks[at]);
    } else {
      assert Goes(maxTx, r, at);
      IdleTriggers(maxTx, r.states[at], n + at, r.naks[at]);
    }
  }

  lemma LiveStray(maxTx: nat, r: Run, round0: bool, i: nat)
    ensures
      var live := i > 0 && round0 && StraySends(maxTx, r, round0, i - 1);
      StrayTriggers(maxTx, r, round0, i) <==> !live && StraySends(maxTx, r, round0, i)
  {
    NextStray(maxTx, r, round0, i);
  }

  lemma {:induction false} FirstIsFirst(maxTx: nat, r: Run, k: nat, q: nat)
    requires 1 <= k <= q && StrayDue(maxTx, r, k)
    ensures 0 < FirstStray(maxTx, r, q) <= k
  {
    if k < q {
      FirstIsFirst(maxTx, r, k, q - 1);
    }
  }

  lemma {:induction false} FirstOfItself(maxTx: nat, r: Run, q: nat)
    requires FirstStray(maxTx, r, q) > 0
    ensures FirstStray(maxTx, r, FirstStray(maxTx, r, q)) == FirstStray(maxTx, r, q)
  {
    if FirstStray(maxTx, r, q - 1) > 0 {
      FirstOfItself(maxTx, r, q - 1);
    }
  }
}
