// Downlink HARQ feedback (process_HARQ_feedback) and what its statistics add up to.
module DlFeedback {
  import opened UeState

  // Which downlink subframes one uplink subframe acknowledges.
  function UlAckM(d: Duplex, sf: nat): nat {
    match d
    case FDD => 1
    case TDD(3) => if sf == 2 || sf == 3 || sf == 4 then 2 else 0
    case TDD(1) => if sf == 2 || sf == 7 then 2 else if sf == 3 || sf == 8 then 1 else 0
    case _ => 0
  }

  function UlAckDl(d: Duplex, sf: nat, m: nat): (r: nat)
    requires sf < 10 && m < 2
    ensures r < 10
  {
    match d
    case FDD => if sf < 4 then sf + 6 else sf - 4
    case TDD(3) =>
      if sf == 2 then 5 + m else if sf == 3 then 7 + m else if sf == 4 then (9 + m) % 10 else 0
    case TDD(1) =>
      if sf == 2 then 5 + m else if sf == 3 then 9 else if sf == 7 then m else if sf == 8 then 4 else 0
    case _ => 0
  }

  // Where the feedback bits come from. `sel` is pucch_sel: 2 stands for
  // bundling or a single subframe, 0 and 1 for the resource of multiplexing.
  datatype Source =
    | OnPusch(oAck0: bool, oAck1: bool)
    | OnPucch(b0: bool, b1: bool, sel: nat, sr: bool)

  // Several subframes answered on a chosen PUCCH resource.
  predicate Multiplexed(src: Source) {
    src.OnPucch? && src.sel != 2
  }

  // The two bits that stand for k ACKs when multiplexing meets a scheduling
  // request (Table 7.3-1 of TS 36.213).
  function AckCode(k: nat): (bool, bool)
    requires k <= 3
  {
    match k
    case 0 => (false, false)
    case 1 => (true, true)
    case 2 => (true, false)
    case 3 => (false, true)
  }

  lemma Codes()
    ensures AckCode(0) == (false, false) && AckCode(1) == (true, true)
    ensures AckCode(2) == (true, false) && AckCode(3) == (false, true)
  {
  }

  // The number of ACKs among m blocks that two bits stand for, 0 if none.
  function AckCount(m: nat, b0: bool, b1: bool): nat {
    if m != 2 && m != 3 then 0
    else if (b0, b1) == AckCode(1) then 1
    else if (b0, b1) == AckCode(2) then 2
    else if m == 3 && (b0, b1) == AckCode(3) then 3
    else 0
  }

  // nbAck is what the bits stand for: k if they are the code of k <= m ACKs, and
  // 0 if they are no such code.
  ghost predicate Decodes(m: nat, b0: bool, b1: bool, nbAck: nat) {
    && (forall k :: 0 <= k <= 3 && AckCode(k) == (b0, b1) && k <= m && 2 <= m <= 3 ==> nbAck == k)
    && ((forall k :: 0 <= k <= 3 && k <= m && 2 <= m <= 3 ==> AckCode(k) != (b0, b1)) ==> nbAck == 0)
  }

  lemma OneDecoding(m: nat, b0: bool, b1: bool, nbAck: nat)
    requires Decodes(m, b0, b1, nbAck)
    ensures nbAck == AckCount(m, b0, b1)
  {
    Codes();
  }

  // Table 10.1-2 of TS 36.213: the resource and the two bits for the answers about
  // two subframes, the second of which was not missed.
  function AnswerCode(a0: bool, a1: bool): (nat, bool, bool) {
    if a0 && a1 then (1, true, true) else if a0 then (0, false, true)
    else if a1 then (1, false, false) else (1, true, false)
  }

  // What Table 10.1-2 makes of a resource and two bits, for each block.
  predicate TableAck0(sel: nat, b0: bool, b1: bool) {
    (sel, b0, b1) == AnswerCode(true, true) || (sel, b0, b1) == AnswerCode(true, false)
  }

  predicate TableAck1(sel: nat, b0: bool, b1: bool) {
    (sel, b0, b1) == AnswerCode(true, true) || (sel, b0, b1) == AnswerCode(false, true)
  }

  lemma AnswersAreDistinct(a0: bool, a1: bool)
    ensures
      var (sel, b0, b1) := AnswerCode(a0, a1);
      TableAck0(sel, b0, b1) == a0 && TableAck1(sel, b0, b1) == a1
  {
  }

  // nb_alloc: how many of the first m subframes carried a block.
  function Scheduled(d: Duplex, tx: seq<bool>, sf: nat, m: nat): nat
    requires sf < 10 && m <= 2 && |tx| == 10
  {
    if m == 0 then 0
    else Scheduled(d, tx, sf, m - 1) + if tx[UlAckDl(d, sf, m - 1)] then 1 else 0
  }

  // The bit that decides about the m-th subframe, the mp-th scheduled one.
  function AckBit(cfg: Config, tx: seq<bool>, src: Source, sf: nat, mp: nat): bool
    requires sf < 10 && |tx| == 10
  {
    match src
    case OnPusch(o0, o1) => if cfg.duplex.FDD? || mp == 0 || cfg.bundling then o0 else o1
    case OnPucch(b0, b1, sel, sr) =>
      if sel == 2 then b0
      else
        var m := UlAckM(cfg.duplex, sf);
        sr && Scheduled(cfg.duplex, tx, sf, m) == if cfg.duplex.FDD? then 0 else AckCount(m, b0, b1)
  }

  // Fine-grain rate adaptation, done after every counted ACK or NAK.
  function Adapt(cfg: Config, dl: Dl): Dl {
    var o1 := if dl.nakRound0 > cfg.errorThreshold then (if dl.mcsOffset == 1 then 0 else -1) else dl.mcsOffset;
    if dl.slidingCnt != cfg.raWindowSize then dl.(mcsOffset := o1)
    else
      var n := dl.nakRound0;
      var o2 := if o1 == 0 && n < 2 then 1 else o1;
      var o3 := if o2 == 1 && n > 2 then 0 else o2;
      var o4 := if o3 == 0 && n > 2 then -1 else o3;
      var o5 := if o4 == -1 && n < 2 then 0 else o4;
      dl.(mcsOffset := o5, nakRound0 := 0, slidingCnt := 0)
  }

  // The offset is -1, 0 or 1. Too many first NAKs lower it at once by one step.
  // At the end of a window fewer than 2 first NAKs raise it by one step and more
  // than 2 drop it to -1, from 1 too.
  lemma AdaptMoves(cfg: Config, dl: Dl)
    requires -1 <= dl.mcsOffset <= 1
    ensures Moves(cfg, dl, Adapt(cfg, dl))
  {
  }

  predicate Moves(cfg: Config, dl: Dl, d: Dl) {
    var n := dl.nakRound0;
    var lowered := if n > cfg.errorThreshold && dl.mcsOffset > -1 then dl.mcsOffset - 1 else dl.mcsOffset;
    if dl.slidingCnt != cfg.raWindowSize then d == dl.(mcsOffset := lowered)
    else
      && d == dl.(mcsOffset := d.mcsOffset, nakRound0 := 0, slidingCnt := 0)
      && (n < 2 ==> d.mcsOffset == if lowered == 1 then 1 else lowered + 1)
      && (n == 2 ==> d.mcsOffset == lowered)
      && (n > 2 ==> d.mcsOffset == -1)
  }

  // The process that feedback for subframe sfDl is about, if it waits for any.
  predicate Awaits(cfg: Config, dl: Dl, sfDl: nat)
    requires dl.Valid(cfg) && cfg.Valid() && sfDl < 10
  {
    dl.harqIds[sfDl] < cfg.mdlharq && dl.procs[dl.harqIds[sfDl]].status == Active
  }

  function Acked(cfg: Config, dl: Dl, sfDl: nat): (r: Dl)
    requires cfg.Valid() && dl.Valid(cfg) && sfDl < 10 && Awaits(cfg, dl, sfDl)
    ensures r.Valid(cfg) && r.subframeTx == dl.subframeTx
  {
    var pid := dl.harqIds[sfDl];
    var p := dl.procs[pid];
    dl.(ack := Bump(dl.ack, pid, p.round),
        procs := dl.procs[pid := p.(round := 0, status := Idle)],
        harqIds := dl.harqIds[sfDl := cfg.mdlharq],
        totalTbs := dl.totalTbs + p.tbs)
  }

  function Naked(cfg: Config, dl: Dl, sfDl: nat): (r: Dl)
    requires cfg.Valid() && dl.Valid(cfg) && sfDl < 10 && Awaits(cfg, dl, sfDl)
    ensures r.Valid(cfg) && r.subframeTx == dl.subframeTx
  {
    var pid := dl.harqIds[sfDl];
    var p := dl.procs[pid];
    var d := dl.(nakRound0 := dl.nakRound0 + if p.round == 0 then 1 else 0,
                 nak := Bump(dl.nak, pid, p.round));
    if p.round + 1 == cfg.mlimit then
      d.(procs := dl.procs[pid := p.(round := 0, status := Idle)],
         l2Errors := dl.l2Errors[pid := dl.l2Errors[pid] + 1],
         harqIds := dl.harqIds[sfDl := cfg.mdlharq])
    else
      d.(procs := dl.procs[pid := p.(round := p.round + 1)])
  }

  // One ACK or NAK for the block of subframe sfDl.
  function Settle(cfg: Config, dl: Dl, sfDl: nat, bit: bool): (r: Dl)
    requires cfg.Valid() && dl.Valid(cfg) && sfDl < 10
    ensures r.Valid(cfg) && r.subframeTx == dl.subframeTx
  {
    if !Awaits(cfg, dl, sfDl) then dl
    else Adapt(cfg, if bit then Acked(cfg, dl, sfDl) else Naked(cfg, dl, sfDl))
  }

  // Subframes m.. of the feedback, `mp` scheduled ones having been passed.
  function FeedbackFrom(cfg: Config, dl: Dl, src: Source, sf: nat, m: nat, mp: nat): (r: Dl)
    requires cfg.Valid() && dl.Valid(cfg) && sf < 10
    requires m <= UlAckM(cfg.duplex, sf)
    ensures r.Valid(cfg)
    decreases UlAckM(cfg.duplex, sf) - m
  {
    if m == UlAckM(cfg.duplex, sf) then dl
    else
      var sfDl := UlAckDl(cfg.duplex, sf, m);
      if dl.subframeTx[sfDl] then
        FeedbackFrom(cfg, Settle(cfg, dl, sfDl, AckBit(cfg, dl.subframeTx, src, sf, mp)), src, sf, m + 1, mp + 1)
      else
        FeedbackFrom(cfg, dl, src, sf, m + 1, mp)
  }

  function Feedback(cfg: Config, dl: Dl, src: Source, sf: nat): (r: Dl)
    requires cfg.Valid() && dl.Valid(cfg) && sf < 10
    ensures r.Valid(cfg)
  {
    FeedbackFrom(cfg, dl, src, sf, 0, 0)
  }

  // ----- What feedback books, in figures -----

  // d is dl after a block of subframe s was acknowledged or refused: one more ACK
  // or NAK of its process at its round, and nothing else counted; the process goes
  // idle and the subframe is released after an ACK and after the last NAK, and is
  // one round further after another. Other processes and subframes stay.
  ghost predicate Booked(cfg: Config, dl: Dl, d: Dl, s: nat, ack: bool)
    requires cfg.Valid() && dl.Valid(cfg) && s < 10 && dl.harqIds[s] < cfg.mdlharq
  {
    var p := dl.harqIds[s];
    var at, last := dl.procs[p].round, dl.procs[p].round + 1 == cfg.mlimit;
    && d.Valid(cfg) && d.subframeTx == dl.subframeTx
    && (forall q, r :: 0 <= q < 8 && 0 <= r < 8 ==>
          && d.ack[q][r] == dl.ack[q][r] + (if ack && q == p && r == at then 1 else 0)
          && d.nak[q][r] == dl.nak[q][r] + (if !ack && q == p && r == at then 1 else 0))
    && (forall q :: 0 <= q < 8 ==>
          && d.l2Errors[q] == dl.l2Errors[q] + (if !ack && last && q == p then 1 else 0)
          && d.procs[q].tbs == dl.procs[q].tbs
          && d.procs[q].status == (if q == p && (ack || last) then Idle else dl.procs[q].status)
          && d.procs[q].round == (if q != p then dl.procs[q].round else if ack || last then 0 else at + 1))
    && (forall t :: 0 <= t < 10 ==> d.harqIds[t] == if t == s && (ack || last) then cfg.mdlharq else dl.harqIds[t])
    && d.totalTbs == dl.totalTbs + (if ack then dl.procs[p].tbs else 0)
    && (-1 <= dl.mcsOffset <= 1 ==> Adapted(cfg, dl, d, !ack && at == 0))
  }

  // Rate adaptation from dl to d, with one more first NAK or not.
  ghost predicate Adapted(cfg: Config, dl: Dl, d: Dl, firstNak: bool) {
    var n := dl.nakRound0 + if firstNak then 1 else 0;
    var lowered := if n > cfg.errorThreshold && dl.mcsOffset > -1 then dl.mcsOffset - 1 else dl.mcsOffset;
    if dl.slidingCnt != cfg.raWindowSize then
      d.mcsOffset == lowered && d.nakRound0 == n && d.slidingCnt == dl.slidingCnt
    else
      && d.nakRound0 == 0 && d.slidingCnt == 0
      && d.mcsOffset == if n > 2 then -1 else if n == 2 || lowered == 1 then lowered else lowered + 1
  }

  // The same if the subframe is scheduled and its process waits; nothing otherwise.
  ghost predicate SettledAs(cfg: Config, dl: Dl, d: Dl, s: nat, ack: bool)
    requires cfg.Valid() && dl.Valid(cfg) && s < 10
  {
    var p := dl.harqIds[s];
    if dl.subframeTx[s] && p < cfg.mdlharq && dl.procs[p].status == Active then Booked(cfg, dl, d, s, ack) else d == dl
  }

  lemma SettleBooks(cfg: Config, dl: Dl, s: nat, ack: bool)
    requires cfg.Valid() && dl.Valid(cfg) && s < 10 && dl.subframeTx[s]
    ensures SettledAs(cfg, dl, Settle(cfg, dl, s, ack), s, ack)
  {
  }

  lemma FeedbackEnds(cfg: Config, dl: Dl, src: Source, sf: nat, mp: nat)
    requires cfg.Valid() && dl.Valid(cfg) && sf < 10
    ensures FeedbackFrom(cfg, dl, src, sf, UlAckM(cfg.duplex, sf), mp) == dl
  {
  }

  // In FDD the feedback of a subframe books the block sent 4 subframes before, by
  // the one bit received: o_ACK[0] on the PUSCH, the first payload bit on the PUCCH.
  lemma FddFeedbackBooks(cfg: Config, dl: Dl, src: Source, sf: nat)
    requires cfg.Valid() && dl.Valid(cfg) && sf < 10 && cfg.duplex.FDD?
    requires src.OnPucch? ==> src.sel == 2
    ensures SettledAs(cfg, dl, Feedback(cfg, dl, src, sf), (sf + 6) % 10, if src.OnPusch? then src.oAck0 else src.b0)
  {
    var s := (sf + 6) % 10;
    assert UlAckDl(FDD, sf, 0) == s && UlAckM(FDD, sf) == 1;
    var bit := if src.OnPusch? then src.oAck0 else src.b0;
    if dl.subframeTx[s] {
      SettleBooks(cfg, dl, s, bit);
      FeedbackEnds(cfg, Settle(cfg, dl, s, bit), src, sf, 1);
    } else {
      FeedbackEnds(cfg, dl, src, sf, 0);
    }
  }

  // In TDD, from the PUSCH or one bit on the PUCCH, uplink subframe sf books its
  // one or two downlink subframes one after the other: the first scheduled one by
  // the first bit; the second by the second bit, which is the first with bundling.
  lemma TddFeedbackBooks(cfg: Config, dl: Dl, src: Source, sf: nat) returns (mid: Dl)
    requires cfg.Valid() && dl.Valid(cfg) && sf < 10 && cfg.duplex.TDD?
    requires src.OnPucch? ==> src.sel == 2
    ensures mid.Valid(cfg)
    ensures
      var first := if src.OnPusch? then src.oAck0 else src.b0;
      var second := if src.OnPusch? && !cfg.bundling then src.oAck1 else first;
      var M, d := UlAckM(cfg.duplex, sf), Feedback(cfg, dl, src, sf);
      var s := UlAckDl(cfg.duplex, sf, 0);
      && (if M == 0 then mid == dl else SettledAs(cfg, dl, mid, s, first))
      && (if M < 2 then d == mid
          else SettledAs(cfg, mid, d, UlAckDl(cfg.duplex, sf, 1), if dl.subframeTx[s] then second else first))
  {
    var M, s := UlAckM(cfg.duplex, sf), UlAckDl(cfg.duplex, sf, 0);
    mid := dl;
    if M > 0 {
      if dl.subframeTx[s] {
        mid := Settle(cfg, dl, s, FirstBit(src));
        SettleBooks(cfg, dl, s, FirstBit(src));
      }
      var count := if dl.subframeTx[s] then 1 else 0;
      if M == 2 {
        SecondBooks(cfg, mid, src, sf, count);
      } else {
        FeedbackEnds(cfg, mid, src, sf, count);
      }
    }
  }

  function FirstBit(src: Source): bool {
    match src
    case OnPusch(o0, _) => o0
    case OnPucch(b0, _, _, _) => b0
  }

  lemma SecondBooks(cfg: Config, mid: Dl, src: Source, sf: nat, count: nat)
    requires cfg.Valid() && mid.Valid(cfg) && sf < 10 && cfg.duplex.TDD? && UlAckM(cfg.duplex, sf) == 2 && count < 2
    requires src.OnPucch? ==> src.sel == 2
    ensures SettledAs(cfg, mid, FeedbackFrom(cfg, mid, src, sf, 1, count), UlAckDl(cfg.duplex, sf, 1),
                      if count == 1 && src.OnPusch? && !cfg.bundling then src.oAck1 else FirstBit(src))
  {
    var t := UlAckDl(cfg.duplex, sf, 1);
    if mid.subframeTx[t] {
      var bit := AckBit(cfg, mid.subframeTx, src, sf, count);
      SettleBooks(cfg, mid, t, bit);
      FeedbackEnds(cfg, Settle(cfg, mid, t, bit), src, sf, count + 1);
    } else {
      FeedbackEnds(cfg, mid, src, sf, count);
    }
  }

  // Which downlink subframes an uplink subframe answers, by their distances
  // (Table 10.1-1 of TS 36.213; of configuration 3 without the special subframe).
  function AckDelays(d: Duplex, sf: nat): seq<nat> {
    match d
    case FDD => [4]
    case TDD(1) => if sf == 2 || sf == 7 then [7, 6] else if sf == 3 || sf == 8 then [4] else []
    case TDD(3) => if sf == 2 then [7, 6] else if sf == 3 then [6, 5] else if sf == 4 then [5, 4] else []
    case _ => []
  }

  lemma AnswersByTable(d: Duplex, sf: nat)
    requires sf < 10
    ensures UlAckM(d, sf) == |AckDelays(d, sf)|
    ensures forall m :: 0 <= m < |AckDelays(d, sf)| ==> UlAckDl(d, sf, m) == (sf + 10 - AckDelays(d, sf)[m]) % 10
  {
  }

  // Every subframe that carries blocks is answered exactly once, but the special one
  // of configuration 3 never.
  lemma AnsweredOnce(d: Duplex, s: nat) returns (sf: nat, m: nat)
    requires s < 10
    requires d == FDD || (d == TDD(1) && s in {0, 1, 4, 5, 6, 9}) || (d == TDD(3) && s in {0, 5, 6, 7, 8, 9})
    ensures sf < 10 && m < UlAckM(d, sf) && UlAckDl(d, sf, m) == s
    ensures forall u, n :: 0 <= u < 10 && 0 <= n < UlAckM(d, u) && UlAckDl(d, u, n) == s ==> u == sf && n == m
    ensures d == TDD(3) ==> forall u, n :: 0 <= u < 10 && 0 <= n < UlAckM(d, u) ==> UlAckDl(d, u, n) != 1
  {
    sf := if d == FDD then (s + 4) % 10
          else if d == TDD(1) then (if s == 5 || s == 6 then 2 else if s == 9 then 3 else if s < 2 then 7 else 8)
          else if s == 5 || s == 6 then 2 else if s == 7 || s == 8 then 3 else 4;
    m := if d.TDD? && UlAckM(d, sf) == 2 && UlAckDl(d, sf, 1) == s then 1 else 0;
  }

  // ----- Conservation of blocks, over whole runs -----

  // What may happen to a UE's downlink state.
  datatype Event =
    | Transmit(sf: nat, pid: nat, tbs: nat)   // a DCI schedules process pid in subframe sf
    | ClearTx(sf: nat)                        // nothing scheduled in subframe sf
    | Feed(src: Source, sf: nat)
    | FirstSr                                 // process 0 cleared on the first scheduling request
    | StatsReset                              // statistics zeroed when Msg3 arrives

  function Step(cfg: Config, dl: Dl, e: Event): (r: Dl)
    requires cfg.Valid() && dl.Valid(cfg) && Admissible(cfg, e)
    ensures r.Valid(cfg)
  {
    match e
    case Transmit(sf, pid, tbs) =>
      var p := dl.procs[pid];
      dl.(harqIds := dl.harqIds[sf := pid], subframeTx := dl.subframeTx[sf := true],
          slidingCnt := dl.slidingCnt + 1,
          procs := if p.round == 0 then dl.procs[pid := DlProc(Active, 0, tbs)] else dl.procs)
    case ClearTx(sf) => dl.(subframeTx := dl.subframeTx[sf := false])
    case Feed(src, sf) => Feedback(cfg, dl, src, sf)
    case FirstSr => dl.(procs := dl.procs[0 := dl.procs[0].(round := 0, status := Idle)])
    case StatsReset => dl.(ack := ZeroRounds(dl.ack, cfg.mlimit), nak := ZeroRounds(dl.nak, cfg.mlimit), l2Errors := Zeros(8),
                           slidingCnt := 0, nakRound0 := 0, mcsOffset := 0)
  }

  predicate Admissible(cfg: Config, e: Event) {
    match e
    case Transmit(sf, pid, _) => sf < 10 && pid < cfg.mdlharq
    case ClearTx(sf) => sf < 10
    case Feed(_, sf) => sf < 10
    case _ => true
  }

  // The books of one process since the last statistics reset: blocks taken in,
  // blocks that were at each round at the reset, blocks lost at each round to
  // the first scheduling request.
  datatype Books = Books(started: nat, carried: seq<nat>, lost: seq<nat>)

  function AtRound(dl: Dl, pid: nat, r: nat): nat
    requires |dl.procs| == 8 && pid < 8
  {
    if dl.procs[pid].status == Active && dl.procs[pid].round == r then 1 else 0
  }

  function Inflow(dl: Dl, b: Books, pid: nat, r: nat): nat
    requires Table8(dl.nak) && pid < 8 && r < 8
  {
    if r == 0 then b.started else dl.nak[pid][r - 1]
  }

  // At every round, what came in was acknowledged, refused, is still there or
  // was lost; and what was refused at the last round was given up.
  ghost predicate Balanced(cfg: Config, dl: Dl, b: Books, pid: nat)
    requires cfg.Valid() && dl.Valid(cfg) && pid < 8
  {
    && |b.carried| == 8 && |b.lost| == 8
    && (forall r :: 0 <= r < cfg.mlimit ==>
          Inflow(dl, b, pid, r) + b.carried[r] ==
          dl.ack[pid][r] + dl.nak[pid][r] + AtRound(dl, pid, r) + b.lost[r])
    && dl.nak[pid][cfg.mlimit - 1] == dl.l2Errors[pid]
    && (dl.procs[pid].status == Idle ==> dl.procs[pid].round == 0)
  }

  function KeepBooks(dl: Dl, b: Books, e: Event, pid: nat): Books
    requires |dl.procs| == 8 && pid < 8
    requires dl.procs[pid].round < 8 && |b.lost| == 8
  {
    var p := dl.procs[pid];
    match e
    case Transmit(_, q, _) =>
      if q == pid && p.status == Idle then b.(started := b.started + 1) else b
    case FirstSr =>
      if pid == 0 && p.status == Active then b.(lost := b.lost[p.round := b.lost[p.round] + 1]) else b
    case StatsReset =>
      Books(0, Zeros(8)[p.round := AtRound(dl, pid, p.round)], Zeros(8))
    case _ => b
  }

  lemma AckedBalanced(cfg: Config, dl: Dl, b: Books, pid: nat, sfDl: nat)
    requires cfg.Valid() && dl.Valid(cfg) && pid < 8 && sfDl < 10 && Awaits(cfg, dl, sfDl)
    requires Balanced(cfg, dl, b, pid)
    ensures Balanced(cfg, Acked(cfg, dl, sfDl), b, pid)
  {
    var d, q := Acked(cfg, dl, sfDl), dl.harqIds[sfDl];
    if q == pid {
      var at := dl.procs[pid].round;
      forall r | 0 <= r < cfg.mlimit
        ensures d.ack[pid][r] + AtRound(d, pid, r) == dl.ack[pid][r] + AtRound(dl, pid, r)
      {
      }
      assert d.nak == dl.nak;
    } else {
      assert d.ack[pid] == dl.ack[pid];
    }
  }

  lemma NakedBalanced(cfg: Config, dl: Dl, b: Books, pid: nat, sfDl: nat)
    requires cfg.Valid() && dl.Valid(cfg) && pid < 8 && sfDl < 10 && Awaits(cfg, dl, sfDl)
    requires Balanced(cfg, dl, b, pid)
    ensures Balanced(cfg, Naked(cfg, dl, sfDl), b, pid)
  {
    var d, q := Naked(cfg, dl, sfDl), dl.harqIds[sfDl];
    if q == pid {
      var at := dl.procs[pid].round;
      forall r | 0 <= r < cfg.mlimit
        ensures Inflow(d, b, pid, r) == Inflow(dl, b, pid, r) + if r == at + 1 then 1 else 0
        ensures d.nak[pid][r] + AtRound(d, pid, r) ==
                dl.nak[pid][r] + AtRound(dl, pid, r) + if r == at + 1 then 1 else 0
      {
      }
      assert d.ack == dl.ack;
    } else {
      assert d.nak[pid] == dl.nak[pid];
    }
  }

  lemma SettleBalanced(cfg: Config, dl: Dl, b: Books, pid: nat, sfDl: nat, bit: bool)
    requires cfg.Valid() && dl.Valid(cfg) && pid < 8 && sfDl < 10
    requires Balanced(cfg, dl, b, pid)
    ensures Balanced(cfg, Settle(cfg, dl, sfDl, bit), b, pid)
  {
    if Awaits(cfg, dl, sfDl) {
      AckedBalanced(cfg, dl, b, pid, sfDl);
      NakedBalanced(cfg, dl, b, pid, sfDl);
      var d := if bit then Acked(cfg, dl, sfDl) else Naked(cfg, dl, sfDl);
      AdaptBalanced(cfg, d, b, pid);
    }
  }

  lemma AdaptBalanced(cfg: Config, dl: Dl, b: Books, pid: nat)
    requires cfg.Valid() && dl.Valid(cfg) && pid < 8
    requires Balanced(cfg, dl, b, pid)
    ensures Adapt(cfg, dl).Valid(cfg) && Balanced(cfg, Adapt(cfg, dl), b, pid)
  {
    var d := Adapt(cfg, dl);
    assert d.procs == dl.procs && d.ack == dl.ack && d.nak == dl.nak && d.l2Errors == dl.l2Errors;
  }

  lemma {:induction false} FeedbackBalanced(cfg: Config, dl: Dl, b: Books, pid: nat, src: Source, sf: nat, m: nat, mp: nat)
    requires cfg.Valid() && dl.Valid(cfg) && pid < 8 && sf < 10
    requires m <= UlAckM(cfg.duplex, sf)
    requires Balanced(cfg, dl, b, pid)
    ensures Balanced(cfg, FeedbackFrom(cfg, dl, src, sf, m, mp), b, pid)
    decreases UlAckM(cfg.duplex, sf) - m
  {
    if m < UlAckM(cfg.duplex, sf) {
      var sfDl := UlAckDl(cfg.duplex, sf, m);
      if dl.subframeTx[sfDl] {
        var bit := AckBit(cfg, dl.subframeTx, src, sf, mp);
        SettleBalanced(cfg, dl, b, pid, sfDl, bit);
        FeedbackBalanced(cfg, Settle(cfg, dl, sfDl, bit), b, pid, src, sf, m + 1, mp + 1);
      } else {
        FeedbackBalanced(cfg, dl, b, pid, src, sf, m + 1, mp);
      }
    }
  }

  lemma StepBalanced(cfg: Config, dl: Dl, b: Books, e: Event, pid: nat)
    requires cfg.Valid() && dl.Valid(cfg) && Admissible(cfg, e) && pid < 8
    requires Balanced(cfg, dl, b, pid)
    ensures Balanced(cfg, Step(cfg, dl, e), KeepBooks(dl, b, e, pid), pid)
  {
    if e.Feed? {
      FeedbackBalanced(cfg, dl, b, pid, e.src, e.sf, 0, 0);
    }
  }

  function Run(cfg: Config, dl: Dl, events: seq<Event>): (r: Dl)
    requires cfg.Valid() && dl.Valid(cfg) && forall e :: e in events ==> Admissible(cfg, e)
    ensures r.Valid(cfg)
  {
    if events == [] then dl
    else Step(cfg, Run(cfg, dl, events[..|events|-1]), events[|events|-1])
  }

  function BooksAfter(cfg: Config, dl: Dl, events: seq<Event>, pid: nat): (b: Books)
    requires cfg.Valid() && dl.Valid(cfg) && pid < 8 && forall e :: e in events ==> Admissible(cfg, e)
    ensures |b.carried| == 8 && |b.lost| == 8
  {
    if events == [] then Books(0, Zeros(8), Zeros(8))
    else
      var init := events[..|events|-1];
      KeepBooks(Run(cfg, dl, init), BooksAfter(cfg, dl, init, pid), events[|events|-1], pid)
  }

  // No process active and nothing counted.
  ghost predicate Fresh(dl: Dl) {
    && |dl.procs| == 8 && Table8(dl.ack) && Table8(dl.nak) && |dl.l2Errors| == 8
    && forall p :: 0 <= p < 8 ==>
         && dl.procs[p].status == Idle && dl.procs[p].round == 0 && dl.l2Errors[p] == 0
         && forall r :: 0 <= r < 8 ==> dl.ack[p][r] == 0 && dl.nak[p][r] == 0
  }

  // The books of every process balance after every run of transmissions,
  // feedback, first scheduling requests and statistics resets.
  lemma {:induction false} AlwaysBalanced(cfg: Config, dl: Dl, events: seq<Event>, pid: nat)
    requires cfg.Valid() && dl.Valid(cfg) && pid < 8 && forall e :: e in events ==> Admissible(cfg, e)
    requires Fresh(dl)
    ensures Balanced(cfg, Run(cfg, dl, events), BooksAfter(cfg, dl, events, pid), pid)
  {
    if events != [] {
      var init := events[..|events|-1];
      AlwaysBalanced(cfg, dl, init, pid);
      StepBalanced(cfg, Run(cfg, dl, init), BooksAfter(cfg, dl, init, pid), events[|events|-1], pid);
    }
  }

  predicate Resets(e: Event) {
    e.FirstSr? || e.StatsReset?
  }

  lemma {:induction false} NothingCarriedOrLost(cfg: Config, dl: Dl, events: seq<Event>, pid: nat)
    requires cfg.Valid() && dl.Valid(cfg) && pid < 8
    requires forall e :: e in events ==> Admissible(cfg, e) && !Resets(e)
    ensures BooksAfter(cfg, dl, events, pid).carried == Zeros(8) && BooksAfter(cfg, dl, events, pid).lost == Zeros(8)
  {
    if events != [] {
      NothingCarriedOrLost(cfg, dl, events[..|events|-1], pid);
      assert !Resets(events[|events|-1]);
    }
  }

  // Between resets: what was refused at one round was acknowledged, refused or
  // is waiting at the next, and the blocks refused at the last round are the
  // layer-2 errors.
  lemma FlowConservation(cfg: Config, dl: Dl, events: seq<Event>, pid: nat)
    requires cfg.Valid() && dl.Valid(cfg) && pid < 8 && Fresh(dl)
    requires forall e :: e in events ==> Admissible(cfg, e) && !Resets(e)
    ensures
      var d := Run(cfg, dl, events);
      && (forall r :: 0 <= r && r + 1 < cfg.mlimit ==>
            d.nak[pid][r] == d.ack[pid][r + 1] + d.nak[pid][r + 1] + AtRound(d, pid, r + 1))
      && d.nak[pid][cfg.mlimit - 1] == d.l2Errors[pid]
      && d.procs[pid].round < cfg.mlimit
  {
    AlwaysBalanced(cfg, dl, events, pid);
    NothingCarriedOrLost(cfg, dl, events, pid);
    var d, b := Run(cfg, dl, events), BooksAfter(cfg, dl, events, pid);
    forall r | 0 <= r && r + 1 < cfg.mlimit
      ensures d.nak[pid][r] == d.ack[pid][r + 1] + d.nak[pid][r + 1] + AtRound(d, pid, r + 1)
    {
      assert Inflow(d, b, pid, r + 1) + b.carried[r + 1] ==
             d.ack[pid][r + 1] + d.nak[pid][r + 1] + AtRound(d, pid, r + 1) + b.lost[r + 1];
    }
  }

  function Sum(s: seq<nat>, n: nat): nat
    requires n <= |s|
  {
    if n == 0 then 0 else Sum(s, n - 1) + s[n - 1]
  }

  lemma {:induction false} Telescope(cfg: Config, dl: Dl, b: Books, pid: nat, n: nat)
    requires cfg.Valid() && dl.Valid(cfg) && pid < 8 && Balanced(cfg, dl, b, pid)
    requires 1 <= n <= cfg.mlimit
    ensures b.started + Sum(b.carried, n) ==
            Sum(dl.ack[pid], n) + dl.nak[pid][n - 1] + Sum(b.lost, n) +
            if dl.procs[pid].status == Active && dl.procs[pid].round < n then 1 else 0
  {
    assert Inflow(dl, b, pid, n - 1) + b.carried[n - 1] ==
           dl.ack[pid][n - 1] + dl.nak[pid][n - 1] + AtRound(dl, pid, n - 1) + b.lost[n - 1];
    if n > 1 {
      Telescope(cfg, dl, b, pid, n - 1);
    }
  }

  // Every block a process ever started, or carried over a statistics reset, was
  // acknowledged once, given up once, lost to the first scheduling request, or
  // is the one still active: over every run.
  lemma EveryBlockAccountedFor(cfg: Config, dl: Dl, events: seq<Event>, pid: nat)
    requires cfg.Valid() && dl.Valid(cfg) && pid < 8 && Fresh(dl)
    requires forall e :: e in events ==> Admissible(cfg, e)
    ensures
      var d, b := Run(cfg, dl, events), BooksAfter(cfg, dl, events, pid);
      b.started + Sum(b.carried, cfg.mlimit) ==
      Sum(d.ack[pid], cfg.mlimit) + d.l2Errors[pid] + Sum(b.lost, cfg.mlimit) +
      if d.procs[pid].status == Active then 1 else 0
  {
    AlwaysBalanced(cfg, dl, events, pid);
    Telescope(cfg, Run(cfg, dl, events), BooksAfter(cfg, dl, events, pid), pid, cfg.mlimit);
  }

  // ----- Released subframes -----

  predicate Released(cfg: Config, dl: Dl, sf: nat)
    requires |dl.harqIds| == 10 && sf < 10
  {
    dl.harqIds[sf] >= cfg.mdlharq
  }

  // A block stops waiting for feedback only by releasing its subframe.
  lemma SettledMeansReleased(cfg: Config, dl: Dl, sf: nat, bit: bool)
    requires cfg.Valid() && dl.Valid(cfg) && sf < 10 && Awaits(cfg, dl, sf)
    ensures
      var d, p := Settle(cfg, dl, sf, bit), dl.harqIds[sf];
      d.procs[p].status == Idle <==> Released(cfg, d, sf)
  {
  }

  // Feedback about subframes that are not scheduled or already released
  // changes nothing.
  lemma {:induction false} FeedbackOnReleased(cfg: Config, dl: Dl, src: Source, sf: nat, m: nat, mp: nat)
    requires cfg.Valid() && dl.Valid(cfg) && sf < 10 && m <= UlAckM(cfg.duplex, sf)
    requires forall k | m <= k < UlAckM(cfg.duplex, sf) ::
               var s := UlAckDl(cfg.duplex, sf, k); dl.subframeTx[s] ==> Released(cfg, dl, s)
    ensures FeedbackFrom(cfg, dl, src, sf, m, mp) == dl
    decreases UlAckM(cfg.duplex, sf) - m
  {
    if m < UlAckM(cfg.duplex, sf) {
      var s := UlAckDl(cfg.duplex, sf, m);
      FeedbackOnReleased(cfg, dl, src, sf, m + 1, if dl.subframeTx[s] then mp + 1 else mp);
    }
  }

  lemma {:induction false} FeedbackKeepsReleased(cfg: Config, dl: Dl, src: Source, sf: nat, m: nat, mp: nat, s: nat)
    requires cfg.Valid() && dl.Valid(cfg) && sf < 10 && m <= UlAckM(cfg.duplex, sf) && s < 10
    requires Released(cfg, dl, s)
    ensures Released(cfg, FeedbackFrom(cfg, dl, src, sf, m, mp), s)
    decreases UlAckM(cfg.duplex, sf) - m
  {
    if m < UlAckM(cfg.duplex, sf) {
      var sfDl := UlAckDl(cfg.duplex, sf, m);
      if dl.subframeTx[sfDl] {
        FeedbackKeepsReleased(cfg, Settle(cfg, dl, sfDl, AckBit(cfg, dl.subframeTx, src, sf, mp)), src, sf, m + 1, mp + 1, s);
      } else {
        FeedbackKeepsReleased(cfg, dl, src, sf, m + 1, mp, s);
      }
    }
  }

  // A released subframe stays released until it is transmitted in again.
  lemma {:induction false} ReleasedUntilTransmit(cfg: Config, dl: Dl, events: seq<Event>, s: nat)
    requires cfg.Valid() && dl.Valid(cfg) && s < 10 && Released(cfg, dl, s)
    requires forall e :: e in events ==> Admissible(cfg, e) && !(e.Transmit? && e.sf == s)
    ensures Released(cfg, Run(cfg, dl, events), s)
  {
    if events != [] {
      var init, e := events[..|events|-1], events[|events|-1];
      ReleasedUntilTransmit(cfg, dl, init, s);
      if e.Feed? {
        FeedbackKeepsReleased(cfg, Run(cfg, dl, init), e.src, e.sf, 0, 0, s);
      }
    }
  }

  // So in FDD, once the block of subframe s is settled for good, repeated
  // feedback for s changes nothing, over any run without a new transmission there.
  lemma RepeatedFeedbackIgnored(cfg: Config, dl: Dl, events: seq<Event>, s: nat, src: Source)
    requires cfg.Valid() && dl.Valid(cfg) && s < 10 && Released(cfg, dl, s) && cfg.duplex.FDD?
    requires forall e :: e in events ==> Admissible(cfg, e) && !(e.Transmit? && e.sf == s)
    ensures Feedback(cfg, Run(cfg, dl, events), src, (s + 4) % 10) == Run(cfg, dl, events)
  {
    ReleasedUntilTransmit(cfg, dl, events, s);
    FeedbackOnReleased(cfg, Run(cfg, dl, events), src, (s + 4) % 10, 0, 0);
  }
}
