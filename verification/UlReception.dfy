// One uplink reception of one UE, from the turbo decoder's result to the UE's
// HARQ process, statistics and random-access state.
module UlReception {
  import opened UeState
  import opened Msg3Timing
  import DlFeedback

  // What the decoder and the MAC contribute to a reception.
  datatype Reception = Reception(
    decoded: bool,        // ret != 1+MAX_TURBO_ITERATIONS
    oAck0: bool,          // ACK bits multiplexed on the PUSCH
    oAck1: bool,
    macClearsMsg3: bool)  // rx_sdu clears Msg3_flag: an empty Msg3

  // Steps common to every reception: count the attempt, clear the grant.
  function Counted(ul: Ul, pid: nat): (r: Ul)
    requires ul.Shaped() && pid < 8 && ul.procs[pid].round < 8
    ensures r.Shaped()
  {
    ul.(attempts := Bump(ul.attempts, pid, ul.procs[pid].round),
        procs := ul.procs[pid := ul.procs[pid].(scheduled := false)])
  }

  // A failed decoding, before the retransmission limits are looked at.
  function Failed(ul: Ul, pid: nat): (r: Ul)
    requires ul.Shaped() && pid < 8 && ul.procs[pid].round < 8
    ensures r.Shaped()
  {
    var p := ul.procs[pid];
    ul.(roundErrors := Bump(ul.roundErrors, pid, p.round),
        procs := ul.procs[pid := p.(phichActive := true, phichAck := false, round := p.round + 1)])
  }

  function Exhausted(ul: Ul, pid: nat): (r: Ul)
    requires ul.Shaped() && pid < 8
    ensures r.Shaped()
  {
    ul.(procs := ul.procs[pid := ul.procs[pid].(round := 0, phichActive := false)],
        errors := ul.errors[pid := ul.errors[pid] + 1],
        consecutive := ul.consecutive + 1)
  }

  function Succeeded(ul: Ul, pid: nat): (r: Ul)
    requires ul.Shaped() && pid < 8
    ensures r.Shaped()
  {
    ul.(procs := ul.procs[pid := ul.procs[pid].(phichActive := true, phichAck := true, round := 0)],
        consecutive := 0)
  }

  // The statistics reset that ends a random access.
  function ResetStats(cfg: Config, u: Ue): Ue
    requires cfg.Valid() && u.dl.Valid(cfg) && u.ul.Shaped()
  {
    u.(dl := DlFeedback.Step(cfg, u.dl, DlFeedback.StatsReset),
       ul := u.ul.(attempts := ZeroRounds(u.ul.attempts, cfg.mlimit),
                   roundErrors := ZeroRounds(u.ul.roundErrors, cfg.mlimit),
                   errors := Zeros(8), consecutive := 0))
  }

  ghost predicate Ready(cfg: Config, u: Ue, pid: nat) {
    cfg.Valid() && u.dl.Valid(cfg) && u.ul.Shaped() && pid < 8 && u.ul.procs[pid].round < 8
  }

  // What becomes of the UE: `Keep` or free the slot and then finish.
  datatype Fate = Keep(u: Ue) | Abandon(u: Ue) | OneShot(u: Ue)

  // The reception up to the point where the UE may be removed from the table.
  function Receive(cfg: Config, u: Ue, pid: nat, frame: nat, sf: nat, rx: Reception): (f: Fate)
    requires Ready(cfg, u, pid)
    ensures f.u.dl.Valid(cfg) && f.u.ul.Shaped() && f.u.crnti == u.crnti
  {
    var ul := Counted(u.ul, pid);
    if !rx.decoded then
      var bad := Failed(ul, pid);
      if ul.msg3Flag then
        if bad.procs[pid].round == cfg.maxMsg3Tx then
          Abandon(u.(ul := bad, mode := Prach))
        else
          var (f, s) := RetransmissionAlloc(cfg.duplex, sf, frame, bad.msg3Frame, bad.msg3Subframe);
          Keep(u.(ul := bad.(msg3Active := true, msg3Frame := f, msg3Subframe := s)))
      else if bad.procs[pid].round == cfg.mlimit then
        Keep(u.(ul := Exhausted(bad, pid)))
      else
        Keep(u.(ul := bad))
    else
      var good := u.(ul := Succeeded(ul, pid));
      if ul.msg3Flag then
        if cfg.macEnabled && rx.macClearsMsg3 then
          OneShot(good.(mode := Prach, ul := good.ul.(msg3Flag := false)))
        else
          Keep(Connected(cfg, good))
      else
        Keep(good)
  }

  // Msg3 has been received: the UE is connected and its statistics start anew.
  function Connected(cfg: Config, u: Ue): (r: Ue)
    requires cfg.Valid() && u.dl.Valid(cfg) && u.ul.Shaped()
    ensures r.dl.Valid(cfg) && r.ul.Shaped() && r.crnti == u.crnti
  {
    var v := ResetStats(cfg, u);
    v.(mode := Pusch, ul := v.ul.(msg3Flag := false))
  }

  // What follows the removal, on the slot of the UE that was received.
  function AfterRemoval(cfg: Config, f: Fate, u: Ue): (r: Ue)
    requires cfg.Valid() && u.dl.Valid(cfg) && u.ul.Shaped()
    ensures r.dl.Valid(cfg) && r.ul.Shaped() && r.crnti == u.crnti
  {
    match f
    case Keep(_) => u
    case Abandon(_) => u.(ul := u.ul.(msg3Active := false))
    case OneShot(_) => Connected(cfg, u.(ul := u.ul.(msg3Active := false)))
  }

  // Last, the downlink feedback carried by the PUSCH.
  function WithFeedback(cfg: Config, u: Ue, sf: nat, rx: Reception): (r: Ue)
    requires cfg.Valid() && u.dl.Valid(cfg) && u.ul.Shaped() && sf < 10
    ensures r.dl.Valid(cfg) && r.ul.Shaped() && r.crnti == u.crnti && r.ul == u.ul && r.mode == u.mode
  {
    u.(dl := DlFeedback.Feedback(cfg, u.dl, DlFeedback.OnPusch(rx.oAck0, rx.oAck1), sf))
  }

  // The whole reception for a UE that is alone in using its RNTI: a removal, if
  // any, frees its own slot.
  function ReceiveAlone(cfg: Config, u: Ue, pid: nat, frame: nat, sf: nat, rx: Reception): (r: Ue)
    requires Ready(cfg, u, pid) && sf < 10
    ensures r.dl.Valid(cfg) && r.ul.Shaped()
  {
    var f := Receive(cfg, u, pid, frame, sf, rx);
    var v := if f.Keep? then f.u else Cleaned(cfg, f.u);
    WithFeedback(cfg, AfterRemoval(cfg, f, v), sf, rx)
  }

  // ----- Flow conservation of the rounds -----

  // Uplink events of a UE other than receptions: a new-data grant or a PHICH
  // acknowledgement puts a process back to round 0.
  datatype Event =
    | Heard(pid: nat, frame: nat, sf: nat, rx: Reception)
    | Restart(pid: nat)

  predicate Admissible(e: Event) {
    e.pid < 8 && (e.Heard? ==> e.sf < 10)
  }

  // Of a process since its last restart of statistics: what it had waiting at
  // each round then, and what Restart threw away at each round.
  datatype Books = Books(carried: seq<nat>, lost: seq<nat>)

  function AtRound(ul: Ul, pid: nat, r: nat): nat
    requires ul.Shaped() && pid < 8
  {
    if ul.procs[pid].round == r then 1 else 0
  }

  // A block that failed at round r-1 has been tried at round r, waits there or
  // was thrown away; the failures of the last round are the errors; and no round
  // has more failures than attempts.
  ghost predicate Balanced(cfg: Config, ul: Ul, b: Books, pid: nat)
    requires cfg.Valid() && ul.Shaped() && pid < 8
  {
    && |b.carried| == 8 && |b.lost| == 8
    && (forall r :: 1 <= r < cfg.mlimit ==>
          ul.roundErrors[pid][r - 1] + b.carried[r] == ul.attempts[pid][r] + AtRound(ul, pid, r) + b.lost[r])
    && ul.roundErrors[pid][cfg.mlimit - 1] == ul.errors[pid]
    && (forall r :: 0 <= r < 8 ==> ul.roundErrors[pid][r] <= ul.attempts[pid][r])
    && ul.procs[pid].round < cfg.mlimit
  }

  function Step(cfg: Config, u: Ue, e: Event): (r: Ue)
    requires cfg.Valid() && u.dl.Valid(cfg) && u.ul.Shaped() && Admissible(e)
    requires e.Heard? ==> u.ul.procs[e.pid].round < 8
    ensures r.dl.Valid(cfg) && r.ul.Shaped()
  {
    match e
    case Heard(pid, frame, sf, rx) => ReceiveAlone(cfg, u, pid, frame, sf, rx)
    case Restart(pid) => u.(ul := u.ul.(procs := u.ul.procs[pid := u.ul.procs[pid].(round := 0)]))
  }

  // The books of a process whose statistics have just been zeroed.
  function Opening(ul: Ul, pid: nat): Books
    requires ul.Shaped() && pid < 8 && ul.procs[pid].round < 8
  {
    var round := ul.procs[pid].round;
    Books(if round == 0 then Zeros(8) else Zeros(8)[round := 1], Zeros(8))
  }

  function KeepBooks(ul: Ul, b: Books, e: Event, pid: nat): Books
    requires ul.Shaped() && pid < 8 && ul.procs[pid].round < 8 && |b.lost| == 8
  {
    var round := ul.procs[pid].round;
    if e == Restart(pid) && round > 0 then b.(lost := b.lost[round := b.lost[round] + 1]) else b
  }

  ghost predicate Runs(cfg: Config, u: Ue, events: seq<Event>) {
    && cfg.Valid() && u.dl.Valid(cfg) && u.ul.Shaped() && !u.ul.msg3Flag
    && (forall p :: 0 <= p < 8 ==> u.ul.procs[p].round < cfg.mlimit)
    && (forall e :: e in events ==> Admissible(e))
  }

  // Outside random access a reception is one of three changes.
  lemma HeardNormally(cfg: Config, u: Ue, pid: nat, frame: nat, sf: nat, rx: Reception)
    requires Ready(cfg, u, pid) && sf < 10 && !u.ul.msg3Flag
    ensures
      var c := Counted(u.ul, pid);
      ReceiveAlone(cfg, u, pid, frame, sf, rx).ul ==
      if rx.decoded then Succeeded(c, pid)
      else if c.procs[pid].round + 1 == cfg.mlimit then Exhausted(Failed(c, pid), pid)
      else Failed(c, pid)
  {
  }

  // The same in figures, v being u after the reception: one more attempt at the
  // block's round, the grant used up; decoded, the PHICH says ACK and the process
  // starts anew; not decoded, it says NAK and the process is one round further, or,
  // after the last round, the PHICH is silent and the block is given up. Nothing
  // else of the uplink changes.
  ghost predicate HeardAs(cfg: Config, u: Ue, v: Ue, pid: nat, decoded: bool)
    requires Ready(cfg, u, pid)
  {
    && v.ul.Shaped() && v.dl.Valid(cfg)
    && v == Ue(u.crnti, u.dlRnti, u.ulRnti, u.mode, v.dl, v.ul)
    && var p, q, a, b := u.ul.procs[pid], v.ul.procs[pid], u.ul, v.ul;
    var last := p.round + 1 == cfg.mlimit;
    && !q.scheduled && q.round == (if decoded || last then 0 else p.round + 1)
    && (decoded ==> q.phichActive && q.phichAck)
    && (!decoded && !last ==> q.phichActive && !q.phichAck)
    && (!decoded && last ==> !q.phichActive)
    && (forall o :: 0 <= o < 8 && o != pid ==> b.procs[o] == a.procs[o])
    && (forall o, r :: 0 <= o < 8 && 0 <= r < 8 ==>
          && b.attempts[o][r] == a.attempts[o][r] + (if o == pid && r == p.round then 1 else 0)
          && b.roundErrors[o][r] == a.roundErrors[o][r] + (if !decoded && o == pid && r == p.round then 1 else 0))
    && (forall o :: 0 <= o < 8 ==> b.errors[o] == a.errors[o] + (if !decoded && last && o == pid then 1 else 0))
    && b.consecutive == (if decoded then 0 else if last then a.consecutive + 1 else a.consecutive)
    && (b.msg3Active, b.msg3Flag, b.msg3Frame, b.msg3Subframe) == (a.msg3Active, a.msg3Flag, a.msg3Frame, a.msg3Subframe)
  }

  lemma NormalOutcome(cfg: Config, u: Ue, pid: nat, frame: nat, sf: nat, rx: Reception)
    requires Ready(cfg, u, pid) && sf < 10 && !u.ul.msg3Flag
    ensures
      var v := ReceiveAlone(cfg, u, pid, frame, sf, rx);
      && HeardAs(cfg, u, v, pid, rx.decoded)
      && (cfg.duplex.FDD? ==> DlFeedback.SettledAs(cfg, u.dl, v.dl, (sf + 6) % 10, rx.oAck0))
  {
    HeardNormally(cfg, u, pid, frame, sf, rx);
    if cfg.duplex.FDD? {
      DlFeedback.FddFeedbackBooks(cfg, u.dl, DlFeedback.OnPusch(rx.oAck0, rx.oAck1), sf);
    }
  }

  // The uplink statistics of the rounds in use are zero.
  ghost predicate Cleared(cfg: Config, ul: Ul)
    requires ul.Shaped()
  {
    ul.consecutive == 0
    && forall p, r :: 0 <= p < 8 && 0 <= r < 8 && r < cfg.mlimit ==>
         ul.errors[p] == 0 && ul.attempts[p][r] == 0 && ul.roundErrors[p][r] == 0
  }

  // What becomes of a UE whose Msg3 was received, by result, MAC verdict and
  // round. A freed slot ends without RNTI; after a one-shot Msg3 its mode is
  // nevertheless that of a connected UE.
  lemma Msg3Outcome(cfg: Config, u: Ue, pid: nat, frame: nat, sf: nat, rx: Reception)
    requires Ready(cfg, u, pid) && sf < 10 && u.ul.msg3Flag
    ensures
      var v, again := ReceiveAlone(cfg, u, pid, frame, sf, rx), u.ul.procs[pid].round + 1 != cfg.maxMsg3Tx;
      var freed := if rx.decoded then cfg.macEnabled && rx.macClearsMsg3 else !again;
      && v.mode == (if rx.decoded then Pusch else if again then u.mode else NotSynched)
      && (v.ul.msg3Active <==> !freed && (u.ul.msg3Active || !rx.decoded))
      && (v.ul.msg3Flag <==> !rx.decoded)
      && (if freed then v.crnti == v.dlRnti == v.ulRnti == 0
          else v.crnti == u.crnti && v.dlRnti == u.dlRnti && v.ulRnti == u.ulRnti)
      && (!freed ==> v.ul.procs[pid] == UlProc(if rx.decoded then 0 else u.ul.procs[pid].round + 1, false, true, rx.decoded))
      && (freed ==> forall p :: 0 <= p < 8 ==> v.ul.procs[p].round == 0 && !v.ul.procs[p].scheduled)
      && (!freed ==> forall o :: 0 <= o < 8 && o != pid ==> v.ul.procs[o] == u.ul.procs[o])
      && (freed || rx.decoded ==> Cleared(cfg, v.ul))
      && (!freed && !rx.decoded ==> CountedOnce(u.ul, v.ul, pid))
      && (!freed && !rx.decoded ==>
            (v.ul.msg3Frame, v.ul.msg3Subframe) ==
            RetransmissionAlloc(cfg.duplex, sf, frame, u.ul.msg3Frame, u.ul.msg3Subframe))
  {
  }

  // One more attempt and one more failure at the block's round, and no block given up.
  ghost predicate CountedOnce(a: Ul, b: Ul, pid: nat)
    requires a.Shaped() && b.Shaped() && pid < 8
  {
    && (forall o, r :: 0 <= o < 8 && 0 <= r < 8 ==>
          var one := if o == pid && r == a.procs[pid].round then 1 else 0;
          b.attempts[o][r] == a.attempts[o][r] + one && b.roundErrors[o][r] == a.roundErrors[o][r] + one)
    && b.errors == a.errors && b.consecutive == a.consecutive
  }

  // The downlink of such a UE: cleaned with the slot, or with its statistics
  // zeroed when Msg3 was received, or as it was; and then, in FDD, with the block
  // of 4 subframes before settled by o_ACK[0].
  lemma Msg3Downlink(cfg: Config, u: Ue, pid: nat, frame: nat, sf: nat, rx: Reception) returns (mid: Dl)
    requires Ready(cfg, u, pid) && sf < 10 && u.ul.msg3Flag
    ensures mid.Valid(cfg)
    ensures
      var v := ReceiveAlone(cfg, u, pid, frame, sf, rx);
      var freed := if rx.decoded then cfg.macEnabled && rx.macClearsMsg3 else u.ul.procs[pid].round + 1 == cfg.maxMsg3Tx;
      && (freed ==> (forall s :: 0 <= s < 10 ==> mid.harqIds[s] == cfg.mdlharq)
                    && (forall p :: 0 <= p < cfg.mdlharq ==> mid.procs[p].status == Idle && mid.procs[p].round == 0))
      && (!freed ==> (mid.harqIds, mid.procs) == (u.dl.harqIds, u.dl.procs))
      && (freed || rx.decoded ==> NothingSent(cfg, mid))
      && (!freed && !rx.decoded ==> mid == u.dl)
      && mid.subframeTx == u.dl.subframeTx
      && (cfg.duplex.FDD? ==> DlFeedback.SettledAs(cfg, mid, v.dl, (sf + 6) % 10, rx.oAck0))
  {
    var f := Receive(cfg, u, pid, frame, sf, rx);
    mid := AfterRemoval(cfg, f, if f.Keep? then f.u else Cleaned(cfg, f.u)).dl;
    if cfg.duplex.FDD? {
      DlFeedback.FddFeedbackBooks(cfg, mid, DlFeedback.OnPusch(rx.oAck0, rx.oAck1), sf);
    }
  }

  // The downlink statistics of the rounds in use are zero.
  ghost predicate NothingSent(cfg: Config, dl: Dl)
    requires dl.Valid(cfg)
  {
    && (forall p, r :: 0 <= p < 8 && 0 <= r < 8 && r < cfg.mlimit ==> dl.ack[p][r] == 0 && dl.nak[p][r] == 0)
    && (forall p :: 0 <= p < 8 ==> dl.l2Errors[p] == 0)
    && dl.slidingCnt == 0 && dl.nakRound0 == 0 && dl.mcsOffset == 0
  }

  lemma SuccessBalanced(cfg: Config, ul: Ul, b: Books, q: nat, pid: nat)
    requires cfg.Valid() && ul.Shaped() && pid < 8 && q < 8 && ul.procs[q].round < 8
    requires Balanced(cfg, ul, b, pid)
    ensures Balanced(cfg, Succeeded(Counted(ul, q), q), b, pid)
  {
    var v := Succeeded(Counted(ul, q), q);
    forall r | 1 <= r < cfg.mlimit
      ensures v.attempts[pid][r] + AtRound(v, pid, r) == ul.attempts[pid][r] + AtRound(ul, pid, r)
    {
    }
  }

  // A failure counts one attempt and one error at the block's round, and moves
  // the block to the next round or drops it.
  lemma FailureCounts(cfg: Config, ul: Ul, q: nat, pid: nat)
    requires cfg.Valid() && ul.Shaped() && pid < 8 && q < 8 && ul.procs[q].round < cfg.mlimit
    ensures
      var v, at, one := AfterFailure(cfg, ul, q), ul.procs[q].round, if q == pid then 1 else 0;
      && (forall r :: 0 <= r < 8 ==>
            && v.attempts[pid][r] == ul.attempts[pid][r] + (if r == at then one else 0)
            && v.roundErrors[pid][r] == ul.roundErrors[pid][r] + (if r == at then one else 0))
      && v.procs[pid].round == (if q != pid then ul.procs[pid].round else if at + 1 == cfg.mlimit then 0 else at + 1)
      && v.errors[pid] == ul.errors[pid] + (if at + 1 == cfg.mlimit then one else 0)
  {
  }

  function AfterFailure(cfg: Config, ul: Ul, q: nat): (v: Ul)
    requires cfg.Valid() && ul.Shaped() && q < 8 && ul.procs[q].round < cfg.mlimit
    ensures v.Shaped()
  {
    var f := Failed(Counted(ul, q), q);
    if f.procs[q].round == cfg.mlimit then Exhausted(f, q) else f
  }

  lemma FailureBalanced(cfg: Config, ul: Ul, b: Books, q: nat, pid: nat)
    requires cfg.Valid() && ul.Shaped() && pid < 8 && q < 8 && ul.procs[q].round < cfg.mlimit
    requires Balanced(cfg, ul, b, pid)
    ensures Balanced(cfg, AfterFailure(cfg, ul, q), b, pid)
  {
    FailureCounts(cfg, ul, q, pid);
    var v := AfterFailure(cfg, ul, q);
    forall r | 1 <= r < cfg.mlimit
      ensures v.roundErrors[pid][r - 1] + b.carried[r] == v.attempts[pid][r] + AtRound(v, pid, r) + b.lost[r]
    {
      FailureFlow(cfg, ul, q, pid, r);
    }
  }

  // A failure changes both sides of the books of a round alike.
  lemma FailureFlow(cfg: Config, ul: Ul, q: nat, pid: nat, r: nat)
    requires cfg.Valid() && ul.Shaped() && pid < 8 && q < 8 && ul.procs[q].round < cfg.mlimit && 1 <= r < cfg.mlimit
    ensures
      var v := AfterFailure(cfg, ul, q);
      v.roundErrors[pid][r - 1] - ul.roundErrors[pid][r - 1] ==
      v.attempts[pid][r] + AtRound(v, pid, r) - ul.attempts[pid][r] - AtRound(ul, pid, r)
  {
    FailureCounts(cfg, ul, q, pid);
  }

  lemma RestartBalanced(cfg: Config, ul: Ul, b: Books, q: nat, pid: nat)
    requires cfg.Valid() && ul.Shaped() && pid < 8 && q < 8
    requires Balanced(cfg, ul, b, pid)
    ensures Balanced(cfg, ul.(procs := ul.procs[q := ul.procs[q].(round := 0)]), KeepBooks(ul, b, Restart(q), pid), pid)
  {
  }

  lemma StepBalanced(cfg: Config, u: Ue, b: Books, e: Event, pid: nat)
    requires Runs(cfg, u, [e]) && e in [e] && pid < 8
    requires Balanced(cfg, u.ul, b, pid)
    ensures Balanced(cfg, Step(cfg, u, e).ul, KeepBooks(u.ul, b, e, pid), pid)
  {
    match e
    case Heard(q, frame, sf, rx) =>
      HeardNormally(cfg, u, q, frame, sf, rx);
      if rx.decoded {
        SuccessBalanced(cfg, u.ul, b, q, pid);
      } else {
        FailureBalanced(cfg, u.ul, b, q, pid);
      }
    case Restart(q) =>
      RestartBalanced(cfg, u.ul, b, q, pid);
  }

  function After(cfg: Config, u: Ue, events: seq<Event>): (v: Ue)
    requires Runs(cfg, u, events)
    ensures Runs(cfg, v, [])
  {
    if events == [] then u
    else
      var w, e := After(cfg, u, events[..|events|-1]), events[|events|-1];
      var v := Step(cfg, w, e);
      assert e in events;
      assert Runs(cfg, v, []) by {
        if e.Heard? {
          HeardNormally(cfg, w, e.pid, e.frame, e.sf, e.rx);
        }
      }
      v
  }

  function BooksAfter(cfg: Config, u: Ue, events: seq<Event>, pid: nat): (b: Books)
    requires Runs(cfg, u, events) && pid < 8
    ensures |b.carried| == 8 && |b.lost| == 8
  {
    if events == [] then Opening(u.ul, pid)
    else
      var init := events[..|events|-1];
      KeepBooks(After(cfg, u, init).ul, BooksAfter(cfg, u, init, pid), events[|events|-1], pid)
  }

  ghost predicate NothingCounted(cfg: Config, ul: Ul) {
    && ul.Shaped()
    && forall p, r :: 0 <= p < 8 && 0 <= r < 8 ==>
         ul.errors[p] == 0 && (r < cfg.mlimit ==> ul.attempts[p][r] == 0) && ul.roundErrors[p][r] <= ul.attempts[p][r]
  }

  lemma {:induction false} AlwaysBalanced(cfg: Config, u: Ue, events: seq<Event>, pid: nat)
    requires Runs(cfg, u, events) && pid < 8 && NothingCounted(cfg, u.ul)
    ensures Balanced(cfg, After(cfg, u, events).ul, BooksAfter(cfg, u, events, pid), pid)
  {
    if events != [] {
      var init, e := events[..|events|-1], events[|events|-1];
      AlwaysBalanced(cfg, u, init, pid);
      assert e in events;
      StepBalanced(cfg, After(cfg, u, init), BooksAfter(cfg, u, init, pid), e, pid);
    }
  }

  // No restart of the process throws a block away: each finds it at round 0, as
  // a PHICH acknowledgement does.
  ghost predicate RestartsLoseNothing(cfg: Config, u: Ue, events: seq<Event>, pid: nat)
    requires Runs(cfg, u, events) && pid < 8
  {
    forall n :: 0 <= n < |events| && events[n] == Restart(pid) ==>
      After(cfg, u, events[..n]).ul.procs[pid].round == 0
  }

  lemma PrefixLosesNothing(cfg: Config, u: Ue, events: seq<Event>, pid: nat)
    requires Runs(cfg, u, events) && pid < 8 && events != [] && RestartsLoseNothing(cfg, u, events, pid)
    ensures RestartsLoseNothing(cfg, u, events[..|events|-1], pid)
  {
    var init := events[..|events|-1];
    forall n | 0 <= n < |init| && init[n] == Restart(pid)
      ensures After(cfg, u, init[..n]).ul.procs[pid].round == 0
    {
      assert init[..n] == events[..n];
    }
  }

  lemma {:induction false} NothingLost(cfg: Config, u: Ue, events: seq<Event>, pid: nat)
    requires Runs(cfg, u, events) && pid < 8 && RestartsLoseNothing(cfg, u, events, pid)
    ensures BooksAfter(cfg, u, events, pid) == Opening(u.ul, pid)
  {
    if events != [] {
      PrefixLosesNothing(cfg, u, events, pid);
      NothingLost(cfg, u, events[..|events|-1], pid);
    }
  }

  // From zeroed statistics on, while no restart throws a block away: the failures
  // of round r are the attempts of round r+1, plus the block waiting there, less
  // the one that was there when the statistics were zeroed.
  lemma {:induction false} FlowConservation(cfg: Config, u: Ue, events: seq<Event>, pid: nat)
    requires Runs(cfg, u, events) && pid < 8 && NothingCounted(cfg, u.ul)
    requires RestartsLoseNothing(cfg, u, events, pid)
    ensures
      var v := After(cfg, u, events).ul;
      && (forall r :: 0 <= r && r + 1 < cfg.mlimit ==>
            v.roundErrors[pid][r] + AtRound(u.ul, pid, r + 1) == v.attempts[pid][r + 1] + AtRound(v, pid, r + 1))
      && v.roundErrors[pid][cfg.mlimit - 1] == v.errors[pid]
      && (forall r :: 0 <= r < 8 ==> v.roundErrors[pid][r] <= v.attempts[pid][r])
      && v.procs[pid].round < cfg.mlimit
  {
    AlwaysBalanced(cfg, u, events, pid);
    NothingLost(cfg, u, events, pid);
    var v, b := After(cfg, u, events).ul, BooksAfter(cfg, u, events, pid);
    forall r | 0 <= r && r + 1 < cfg.mlimit
      ensures v.roundErrors[pid][r] + AtRound(u.ul, pid, r + 1) == v.attempts[pid][r + 1] + AtRound(v, pid, r + 1)
    {
      assert v.roundErrors[pid][r + 1 - 1] + b.carried[r + 1] ==
             v.attempts[pid][r + 1] + AtRound(v, pid, r + 1) + b.lost[r + 1];
    }
  }

  // A UE whose Msg3 has just arrived starts with zeroed statistics.
  lemma ConnectedCountsNothing(cfg: Config, u: Ue)
    requires cfg.Valid() && u.dl.Valid(cfg) && u.ul.Shaped()
    requires forall p, r :: 0 <= p < 8 && 0 <= r < 8 ==> u.ul.roundErrors[p][r] <= u.ul.attempts[p][r]
    ensures NothingCounted(cfg, Connected(cfg, u).ul)
  {
  }
}
