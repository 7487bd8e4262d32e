// PUCCH feedback, both ends: the resource an answer is sent on, the bits the UE
// puts on it, and what the eNodeB makes of them.
module Pucch {
  import opened UeState
  import opened DlFeedback

  // ----- Resources (section 10.1 of TS 36.213) -----

  // The tables N_0..N_3, by bandwidth.
  function NpTable(nRb: nat): (t: seq<nat>)
    ensures t != [] ==> IsNpTable(t)
  {
    match nRb
    case 6 => [0, 1, 3, 5]
    case 15 => [0, 3, 8, 13]
    case 25 => [0, 5, 13, 22]
    case 50 => [0, 11, 27, 44]
    case 75 => [0, 16, 41, 66]
    case 100 => [0, 22, 55, 88]
    case _ => []
  }

  // The formula of section 10.1 of TS 36.213, for 12 subcarriers a resource block.
  lemma NpIsStandard(nRb: nat, p: nat)
    requires nRb in {6, 15, 25, 50, 75, 100} && p < 4
    ensures NpTable(nRb) != [] && NpTable(nRb)[p] == if p == 0 then 0 else nRb * (12 * p - 4) / 36
  {
  }

  predicate IsNpTable(t: seq<nat>) {
    |t| == 4 && 0 == t[0] < t[1] < t[2] < t[3]
  }

  // Which of the three bands of the table a CCE index lies in.
  function Band(t: seq<nat>, nCce: nat): (p: nat)
    requires IsNpTable(t)
    ensures p < 3
  {
    if nCce >= t[2] then 2 else if nCce >= t[1] then 1 else 0
  }

  // get_Np
  function GetNp(nRb: nat, nCce: nat, plus1: nat): nat
    requires plus1 < 2
  {
    var t := NpTable(nRb);
    if t == [] then 0 else t[Band(t, nCce) + plus1]
  }

  // The resource, less n1PUCCH_AN, of the m-th subframe's block sent from nCce.
  function Offset(t: seq<nat>, m: nat, nCce: nat): nat
    requires IsNpTable(t) && m < 2
  {
    t[Band(t, nCce) + m] + nCce
  }

  // Who uses a resource: the inverse of Offset.
  function User(t: seq<nat>, r: nat): (u: (nat, nat))
    requires IsNpTable(t) && r < 2 * t[3]
    ensures u.0 < 2 && u.1 < t[3]
  {
    var p := if r >= 2 * t[2] then 2 else if r >= 2 * t[1] then 1 else 0;
    if r < t[p] + t[p + 1] then (0, r - t[p]) else (1, r - t[p + 1])
  }

  // For every table, Offset is a bijection from {0,1} x [0, N_3) to [0, 2*N_3).
  lemma UserOfOffset(t: seq<nat>, m: nat, n: nat)
    requires IsNpTable(t) && m < 2 && n < t[3]
    ensures Offset(t, m, n) < 2 * t[3] && User(t, Offset(t, m, n)) == (m, n)
  {
    assert t[0] == 0;
    var p := Band(t, n);
    if p == 0 {
    } else if p == 1 {
    } else {
    }
  }

  lemma OffsetOfUser(t: seq<nat>, r: nat)
    requires IsNpTable(t) && r < 2 * t[3]
    ensures Offset(t, User(t, r).0, User(t, r).1) == r
  {
  }

  // No two answers collide among CCE indices below k exactly when k is at most N_3.
  lemma NoCollisionIff(t: seq<nat>, k: nat)
    requires IsNpTable(t)
    ensures (forall m, n, m', n' | 0 <= m < 2 && 0 <= n < k && 0 <= m' < 2 && 0 <= n' < k && Offset(t, m, n) == Offset(t, m', n') ::
               m == m' && n == n') <==> k <= t[3]
  {
    if k <= t[3] {
      forall m, n, m', n' | 0 <= m < 2 && 0 <= n < k && 0 <= m' < 2 && 0 <= n' < k && Offset(t, m, n) == Offset(t, m', n')
        ensures m == m' && n == n'
      {
        UserOfOffset(t, m, n);
        UserOfOffset(t, m', n');
      }
    } else {
      assert Offset(t, 0, t[3]) == Offset(t, 1, t[2]);
    }
  }

  // ----- TDD configuration 3: both ends -----

  // What the UE knows about one downlink subframe: nothing, or its ACK/NAK.
  datatype Answer = Dtx | Got(ack: bool)

  function AckOf(a: Answer): nat {
    if a == Got(true) then 1 else 0
  }

  // The subframe pair that uplink subframe sf = 2, 3 or 4 answers.
  function First3(sf: nat): nat { (5 + 2 * (sf - 2)) % 10 }

  function Second3(sf: nat): nat { (6 + 2 * (sf - 2)) % 10 }

  const NONE := 0xFFFF

  // The resources of the two subframes' blocks.
  function Resource0(nRb: nat, an: nat, nCce: seq<nat>, sf: nat): nat
    requires |nCce| == 10
  {
    GetNp(nRb, nCce[First3(sf)], 0) + nCce[First3(sf)] + an
  }

  function Resource1(nRb: nat, an: nat, nCce: seq<nat>, sf: nat): nat
    requires |nCce| == 10
  {
    GetNp(nRb, nCce[Second3(sf)], 1) + nCce[Second3(sf)] + an
  }

  // What a UE that heard something answers: resource n1, pucch_sel and two bits,
  // given the resources of the two blocks and of the scheduling request.
  ghost predicate Answer3(n10: nat, n11: nat, srResource: nat, bundling: bool, a0: Answer, a1: Answer, sr: bool,
                          n1: nat, sel: nat, b0: bool, b1: bool)
  {
    if sr then
      n1 == srResource && sel == 0 && (b0, b1) == AckCode(AckOf(a0) + AckOf(a1))
    else if bundling then
      && n1 == (if a1 == Dtx then n10 else n11) && sel == (if a1 == Dtx then 0 else 1)
      && b0 == (a0 != Got(false) && a1 != Got(false))
    else
      && n1 == (if sel == 0 then n10 else n11) && (sel == 0 || sel == 1)
      && (sel == 0 <==> a1 == Dtx || (a0 == Got(true) && a1 == Got(false)))
      && (a1 == Dtx && a0 != Dtx ==> b0 == a0.ack && b1 == !a0.ack)
      && (a1 != Dtx ==> b1 == (a0 == Got(true)) && b0 == (b1 == a1.ack))
  }

  // get_n1_pucch for TDD configuration 3. The payload b[] is read and written in
  // place: bits that a case does not write keep their value.
  method GetN1Pucch3(nRb: nat, an: nat, srResource: nat, bundling: bool, nCce: seq<nat>, answers: seq<Answer>,
                     sf: nat, sr: bool, b: array<bool>)
    returns (n1: nat, sel: nat)
    requires |nCce| == 10 && |answers| == 10 && 2 <= sf <= 4 && b.Length == 2
    modifies b
    ensures
      var a0, a1 := answers[First3(sf)], answers[Second3(sf)];
      if a0 == Dtx && a1 == Dtx then n1 == NONE && b[..] == old(b[..])
      else
        && Answer3(Resource0(nRb, an, nCce, sf), Resource1(nRb, an, nCce, sf), srResource, bundling, a0, a1, sr,
                   n1, sel, b[0], b[1])
        && (bundling && !sr ==> b[1] == old(b[1]))
  {
    sel := 0;
    var n10 := GetNp(nRb, nCce[First3(sf)], 0) + nCce[First3(sf)] + an;
    var n11 := GetNp(nRb, nCce[Second3(sf)], 1) + nCce[Second3(sf)] + an;
    var a0, a1 := answers[First3(sf)], answers[Second3(sf)];
    if a1 != Dtx {
      if bundling && !sr {
        b[0] := a1.ack;
        if a0 != Dtx {
          b[0] := b[0] && a0.ack;
        }
        return n11, 1;
      } else if !bundling && !sr {
        if a0 == Dtx {
          a0 := Got(false);
        }
        b[1] := a0.ack;
        b[0] := a0.ack == a1.ack;
        if a0.ack && !a1.ack {
          return n10, 0;
        } else {
          return n11, 1;
        }
      } else {
        if a0 == Dtx {
          a0 := Got(false);
        }
        b[0] := a1.ack || a0.ack;
        b[1] := a1.ack != a0.ack;
        return srResource, 0;
      }
    } else if a0 != Dtx {
      if bundling && !sr {
        b[0] := a0.ack;
        return n10, 0;
      } else if !bundling && !sr {
        b[0] := a0.ack;
        b[1] := !b[0];
        return n10, 0;
      } else {
        b[0] := a0.ack;
        b[1] := b[0];
        return srResource, 0;
      }
    }
    n1 := NONE;
  }

  // What is on the air: nothing, or two bits on one resource.
  datatype Signal = Silent | On(resource: nat, b0: bool, b1: bool)

  // ue_pucch_procedures keeps the resource in 8 bits.
  function Sent(n1: nat, b0: bool, b1: bool): Signal {
    On(n1 % 256, b0, b1)
  }

  // rx_pucch without channel errors: the two bits, 0 where there is no energy.
  // Format 1a has no second bit.
  predicate Energy(s: Signal, resource: int) {
    s.On? && s.resource == resource
  }

  function RxPucch(s: Signal, resource: int, format1b: bool): (bool, bool) {
    (Energy(s, resource) && s.b0, Energy(s, resource) && format1b && s.b1)
  }

  // get_n1_pucch_eNB for TDD configuration 3: the resources to look at, -1 where
  // nothing was scheduled.
  function N1PucchENodeB3(nRb: nat, an: nat, nCce: seq<nat>, tx: seq<bool>, sf: nat): (int, int)
    requires |nCce| == 10 && |tx| == 10 && 2 <= sf <= 4
  {
    var (s0, s1) := if sf == 2 then (5, 6) else if sf == 3 then (7, 8) else (9, 0);
    (if tx[s0] then GetNp(nRb, nCce[s0], 0) + nCce[s0] + an else -1,
     if tx[s1] then GetNp(nRb, nCce[s1], 1) + nCce[s1] + an else -1)
  }

  // Where bundled feedback is read: the scheduling request's resource if one is
  // seen, else that of the last scheduled block.
  function BundledResource(n10: int, n11: int, srResource: nat, srSeen: bool): int {
    if srSeen then srResource else if n11 != -1 then n11 else n10
  }

  // The part of pucch_procedures that reads TDD feedback, n10 and n11 being what
  // get_n1_pucch_eNB gives.
  method ReadPucch(n10: int, n11: int, srResource: nat, bundling: bool, doSr: bool, s: Signal) returns (src: Source)
    requires -1 <= n10 && -1 <= n11
    ensures src.OnPucch? && src.sr == (doSr && Energy(s, srResource))
    ensures bundling ==> src.sel == 2 && src.b0 == RxPucch(s, BundledResource(n10, n11, srResource, src.sr), false).0
    ensures !bundling && src.sr ==> src.sel == 0 && (src.b0, src.b1) == RxPucch(s, srResource, true)
    ensures !bundling && !src.sr ==> src.sel == (if Energy(s, n11) && !Energy(s, n10) then 1 else 0)
    ensures !bundling && !src.sr ==> (src.b0, src.b1) == RxPucch(s, if src.sel == 1 then n11 else n10, true)
  {
    var payload0, payload1 := (false, false), (false, false);
    var metric0, metric1 := 0, 0;
    var srPayload := doSr && Energy(s, srResource);
    if srPayload {
      payload0 := RxPucch(s, srResource, !bundling);
    } else {
      if n10 != -1 {
        payload0 := RxPucch(s, n10, !bundling);
        metric0 := if Energy(s, n10) then 1 else 0;
      }
      if n11 != -1 {
        payload1 := RxPucch(s, n11, !bundling);
        metric1 := if Energy(s, n11) then 1 else 0;
      }
    }
    var payload, sel := payload0, 0;
    if srPayload {
      if bundling {
        sel := 2;
      }
    } else if !bundling {
      payload := if metric1 > metric0 then payload1 else payload0;
      sel := if metric1 > metric0 then 1 else 0;
    } else {
      payload := if n11 != -1 then payload1 else payload0;
      sel := 2;
    }
    src := OnPucch(payload.0, payload.1, sel, srPayload);
  }

  // The UE answers only what was scheduled for it.
  ghost predicate Heard(tx: seq<bool>, answers: seq<Answer>, sf: nat)
    requires |tx| == 10 && |answers| == 10
  {
    && 2 <= sf <= 4
    && (answers[First3(sf)] != Dtx ==> tx[First3(sf)])
    && (answers[Second3(sf)] != Dtx ==> tx[Second3(sf)])
    && (answers[First3(sf)] != Dtx || answers[Second3(sf)] != Dtx)
  }

  // Both ends number the subframes alike, and the eNodeB listens on the resource
  // the UE computes for each scheduled block.
  lemma SameResources(nRb: nat, an: nat, nCce: seq<nat>, tx: seq<bool>, sf: nat)
    requires |nCce| == 10 && |tx| == 10 && 2 <= sf <= 4
    ensures
      var (e0, e1) := N1PucchENodeB3(nRb, an, nCce, tx, sf);
      && First3(sf) == UlAckDl(TDD(3), sf, 0) && Second3(sf) == UlAckDl(TDD(3), sf, 1)
      && e0 == (if tx[First3(sf)] then Resource0(nRb, an, nCce, sf) else -1)
      && e1 == (if tx[Second3(sf)] then Resource1(nRb, an, nCce, sf) else -1)
  {
  }

  // What the UE sends for resource n1 is on the air where the eNodeB listens for
  // it exactly if n1 fits into 8 bits.
  lemma EndsAgreeOnResources(nRb: nat, an: nat, srResource: nat, bundling: bool, nCce: seq<nat>, tx: seq<bool>,
                             answers: seq<Answer>, sf: nat, sr: bool, n1: nat, sel: nat, b0: bool, b1: bool)
    requires |nCce| == 10 && |tx| == 10 && |answers| == 10 && Heard(tx, answers, sf)
    requires Answer3(Resource0(nRb, an, nCce, sf), Resource1(nRb, an, nCce, sf), srResource, bundling,
                     answers[First3(sf)], answers[Second3(sf)], sr, n1, sel, b0, b1)
    ensures
      var (e0, e1) := N1PucchENodeB3(nRb, an, nCce, tx, sf);
      var listened := if sr then srResource else if sel == 0 then e0 else e1;
      listened == n1 && (Energy(Sent(n1, b0, b1), listened) <==> n1 < 256)
  {
    SameResources(nRb, an, nCce, tx, sf);
    assert n1 % 256 == n1 <==> n1 < 256;
  }

  // The eNodeB does not hear an ACK on resource 300.
  lemma AckOnResource300(b1: bool)
    ensures RxPucch(Sent(300, true, b1), 300, true) == (false, false)
  {
  }

  // The resources of two blocks answered together differ, as long as their CCE
  // indices stay below N_3.
  lemma ResourcesDiffer(nRb: nat, n0: nat, n1: nat)
    requires NpTable(nRb) != [] && n0 < NpTable(nRb)[3] && n1 < NpTable(nRb)[3]
    ensures GetNp(nRb, n0, 0) + n0 != GetNp(nRb, n1, 1) + n1
  {
    UserOfOffset(NpTable(nRb), 0, n0);
    UserOfOffset(NpTable(nRb), 1, n1);
  }

  // Every scheduled block was decoded by the UE.
  predicate AllDecoded(tx: seq<bool>, answers: seq<Answer>, sf: nat)
    requires |tx| == 10 && |answers| == 10 && 2 <= sf <= 4
  {
    && (tx[First3(sf)] ==> answers[First3(sf)] == Got(true))
    && (tx[Second3(sf)] ==> answers[Second3(sf)] == Got(true))
  }

  // Feedback by one and the same bit for every scheduled subframe.
  function Uniform(cfg: Config, dl: Dl, sf: nat, bit: bool): Dl
    requires cfg.Valid() && dl.Valid(cfg) && sf < 10
  {
    Feedback(cfg, dl, OnPucch(bit, bit, 2, false), sf)
  }

  lemma {:induction false} SameBitsSameFeedback(cfg: Config, dl: Dl, src: Source, bit: bool, sf: nat, m: nat, mp: nat)
    requires cfg.Valid() && dl.Valid(cfg) && sf < 10 && m <= UlAckM(cfg.duplex, sf)
    requires forall n :: AckBit(cfg, dl.subframeTx, src, sf, n) == bit
    ensures FeedbackFrom(cfg, dl, src, sf, m, mp) == FeedbackFrom(cfg, dl, OnPucch(bit, bit, 2, false), sf, m, mp)
    decreases UlAckM(cfg.duplex, sf) - m
  {
    if m < UlAckM(cfg.duplex, sf) {
      var s := UlAckDl(cfg.duplex, sf, m);
      if dl.subframeTx[s] {
        assert AckBit(cfg, dl.subframeTx, src, sf, mp) == bit;
        SameBitsSameFeedback(cfg, Settle(cfg, dl, s, bit), src, bit, sf, m + 1, mp + 1);
      } else {
        SameBitsSameFeedback(cfg, dl, src, bit, sf, m + 1, mp);
      }
    }
  }

  // ----- Multiplexing with a scheduling request -----

  // Whatever two bits carry the number of ACKs, the eNodeB acknowledges the
  // scheduled blocks exactly when the UE decoded all of them. A missed assignment
  // counts as not decoded.
  lemma NoFalseAckWithSr(cfg: Config, dl: Dl, answers: seq<Answer>, sf: nat, b0: bool, b1: bool, sel: nat)
    requires cfg.Valid() && dl.Valid(cfg) && cfg.duplex == TDD(3) && |answers| == 10 && sel != 2
    requires Heard(dl.subframeTx, answers, sf)
    requires (b0, b1) == AckCode(AckOf(answers[First3(sf)]) + AckOf(answers[Second3(sf)]))
    ensures Feedback(cfg, dl, OnPucch(b0, b1, sel, true), sf) ==
            Uniform(cfg, dl, sf, AllDecoded(dl.subframeTx, answers, sf))
  {
    var tx := dl.subframeTx;
    Codes();
    assert First3(sf) == UlAckDl(TDD(3), sf, 0) && Second3(sf) == UlAckDl(TDD(3), sf, 1);
    assert Scheduled(cfg.duplex, tx, sf, 1) == if tx[First3(sf)] then 1 else 0;
    assert Scheduled(cfg.duplex, tx, sf, 2) ==
           (if tx[First3(sf)] then 1 else 0) + if tx[Second3(sf)] then 1 else 0;
    SameBitsSameFeedback(cfg, dl, OnPucch(b0, b1, sel, true), AllDecoded(tx, answers, sf), sf, 0, 0);
  }

  // From the UE's answer to the blocks, for what ReadPucch reads: no false ACK on
  // any resource, and no lost one if the request's resource fits into 8 bits.
  lemma SrEndToEnd(cfg: Config, dl: Dl, n10: nat, n11: nat, srResource: nat, answers: seq<Answer>, sf: nat,
                   n1: nat, sel: nat, b0: bool, b1: bool, src: Source)
    requires cfg.Valid() && dl.Valid(cfg) && cfg.duplex == TDD(3) && |answers| == 10
    requires Heard(dl.subframeTx, answers, sf)
    requires Answer3(n10, n11, srResource, false, answers[First3(sf)], answers[Second3(sf)], true, n1, sel, b0, b1)
    requires src.OnPucch? && src.sel != 2 && src.sr == Energy(Sent(n1, b0, b1), srResource)
    requires src.sr ==> (src.b0, src.b1) == RxPucch(Sent(n1, b0, b1), srResource, true)
    ensures Feedback(cfg, dl, src, sf) == Uniform(cfg, dl, sf, srResource < 256 && AllDecoded(dl.subframeTx, answers, sf))
  {
    if srResource < 256 {
      NoFalseAckWithSr(cfg, dl, answers, sf, b0, b1, src.sel);
    } else {
      MultiplexingAloneAlwaysRefuses(cfg, dl, sf, src.b0, src.b1, src.sel);
    }
  }

  // ----- Multiplexing without a scheduling request -----

  // It never acknowledges: the bits read from Table 10.1-2 are overwritten.
  lemma MultiplexingAloneAlwaysRefuses(cfg: Config, dl: Dl, sf: nat, b0: bool, b1: bool, sel: nat)
    requires cfg.Valid() && dl.Valid(cfg) && sf < 10 && sel != 2
    ensures Feedback(cfg, dl, OnPucch(b0, b1, sel, false), sf) == Uniform(cfg, dl, sf, false)
  {
    SameBitsSameFeedback(cfg, dl, OnPucch(b0, b1, sel, false), false, sf, 0, 0);
  }

  // By the table the UE's answer says what it decoded if and only if it did not
  // miss the second assignment. If it did, the answer says the opposite about the
  // first block.
  lemma AnswerByTableIff(n10: nat, n11: nat, srResource: nat, a0: Answer, a1: Answer, n1: nat, sel: nat, b0: bool, b1: bool)
    requires Answer3(n10, n11, srResource, false, a0, a1, false, n1, sel, b0, b1) && (a0 != Dtx || a1 != Dtx)
    ensures (TableAck0(sel, b0, b1) == (a0 == Got(true)) && TableAck1(sel, b0, b1) == (a1 == Got(true))) <==> a1 != Dtx
    ensures a1 == Dtx ==> TableAck0(sel, b0, b1) != (a0 == Got(true)) && !TableAck1(sel, b0, b1)
  {
  }

  // Feedback that settles every scheduled subframe, from the m-th on, by the UE's
  // own answer for it.
  function Truth(cfg: Config, dl: Dl, answers: seq<Answer>, sf: nat, m: nat): (r: Dl)
    requires cfg.Valid() && dl.Valid(cfg) && sf < 10 && m <= UlAckM(cfg.duplex, sf) && |answers| == 10
    ensures r.Valid(cfg)
    decreases UlAckM(cfg.duplex, sf) - m
  {
    if m == UlAckM(cfg.duplex, sf) then dl
    else
      var s := UlAckDl(cfg.duplex, sf, m);
      Truth(cfg, if dl.subframeTx[s] then Settle(cfg, dl, s, answers[s] == Got(true)) else dl, answers, sf, m + 1)
  }

  // The m-th subframe's block is scheduled and will be waiting when its turn
  // comes, if what is before it is refused: it waits now, and refusing another
  // subframe of the same process does not give it up.
  predicate WillAwait(cfg: Config, dl: Dl, sf: nat, m: nat)
    requires cfg.Valid() && dl.Valid(cfg) && sf < 10 && m < UlAckM(cfg.duplex, sf)
  {
    var s := UlAckDl(cfg.duplex, sf, m);
    && dl.subframeTx[s] && Awaits(cfg, dl, s)
    && forall k :: 0 <= k < m ==> !GivesUp(cfg, dl, sf, k, dl.harqIds[s])
  }

  predicate GivesUp(cfg: Config, dl: Dl, sf: nat, k: nat, pid: nat)
    requires cfg.Valid() && dl.Valid(cfg) && sf < 10 && k < 2
  {
    var s := UlAckDl(cfg.duplex, sf, k);
    dl.subframeTx[s] && Awaits(cfg, dl, s) && dl.harqIds[s] == pid && dl.procs[pid].round + 1 == cfg.mlimit
  }

  predicate AwaitedBlockDecoded(cfg: Config, dl: Dl, answers: seq<Answer>, sf: nat)
    requires cfg.Valid() && dl.Valid(cfg) && sf < 10 && |answers| == 10
  {
    exists m :: 0 <= m < UlAckM(cfg.duplex, sf) && WillAwait(cfg, dl, sf, m) && answers[UlAckDl(cfg.duplex, sf, m)] == Got(true)
  }

  // So multiplexing alone tells the truth about every block if and only if the UE
  // decoded none of those that are waited for.
  lemma MultiplexingAloneRightIff(cfg: Config, dl: Dl, answers: seq<Answer>, sf: nat, b0: bool, b1: bool, sel: nat)
    requires cfg.Valid() && dl.Valid(cfg) && sf < 10 && |answers| == 10 && sel != 2
    ensures Feedback(cfg, dl, OnPucch(b0, b1, sel, false), sf) == Truth(cfg, dl, answers, sf, 0) <==>
            !AwaitedBlockDecoded(cfg, dl, answers, sf)
  {
    MultiplexingAloneAlwaysRefuses(cfg, dl, sf, b0, b1, sel);
    RefusalIsTrueIff(cfg, dl, answers, sf, 0, 0);
    DecodedOnTheWayIff(cfg, dl, answers, sf);
  }

  // Going through the subframes with NAKs one comes to a waiting block that the
  // UE decoded.
  predicate DecodedOnTheWay(cfg: Config, dl: Dl, answers: seq<Answer>, sf: nat, m: nat)
    requires cfg.Valid() && dl.Valid(cfg) && sf < 10 && m <= UlAckM(cfg.duplex, sf) && |answers| == 10
    decreases UlAckM(cfg.duplex, sf) - m
  {
    m < UlAckM(cfg.duplex, sf) &&
    var s := UlAckDl(cfg.duplex, sf, m);
    if !dl.subframeTx[s] then DecodedOnTheWay(cfg, dl, answers, sf, m + 1)
    else (Awaits(cfg, dl, s) && answers[s] == Got(true)) || DecodedOnTheWay(cfg, Settle(cfg, dl, s, false), answers, sf, m + 1)
  }

  const REFUSAL := OnPucch(false, false, 2, false)

  lemma {:induction false} RefusalIsTrueIff(cfg: Config, dl: Dl, answers: seq<Answer>, sf: nat, m: nat, mp: nat)
    requires cfg.Valid() && dl.Valid(cfg) && sf < 10 && m <= UlAckM(cfg.duplex, sf) && |answers| == 10
    ensures FeedbackFrom(cfg, dl, REFUSAL, sf, m, mp) == Truth(cfg, dl, answers, sf, m) <==>
            !DecodedOnTheWay(cfg, dl, answers, sf, m)
    decreases UlAckM(cfg.duplex, sf) - m
  {
    if m < UlAckM(cfg.duplex, sf) {
      var s := UlAckDl(cfg.duplex, sf, m);
      if !dl.subframeTx[s] {
        RefusalIsTrueIff(cfg, dl, answers, sf, m + 1, mp);
      } else if Awaits(cfg, dl, s) && answers[s] == Got(true) {
        RefusalCountsNoAck(cfg, dl, sf, m, mp);
        TruthCountsAck(cfg, dl, answers, sf, m);
      } else {
        RefusalIsTrueIff(cfg, Settle(cfg, dl, s, false), answers, sf, m + 1, mp + 1);
      }
    }
  }

  lemma TruthCountsAck(cfg: Config, dl: Dl, answers: seq<Answer>, sf: nat, m: nat)
    requires cfg.Valid() && dl.Valid(cfg) && sf < 10 && m < UlAckM(cfg.duplex, sf) && |answers| == 10
    requires
      var s := UlAckDl(cfg.duplex, sf, m);
      dl.subframeTx[s] && Awaits(cfg, dl, s) && answers[s] == Got(true)
    ensures Truth(cfg, dl, answers, sf, m).ack != dl.ack
  {
    var s := UlAckDl(cfg.duplex, sf, m);
    var acked, p := Settle(cfg, dl, s, true), dl.harqIds[s];
    var r := dl.procs[p].round;
    TruthKeepsAcks(cfg, acked, answers, sf, m + 1);
    assert Truth(cfg, dl, answers, sf, m).ack[p][r] >= acked.ack[p][r] > dl.ack[p][r];
  }

  lemma {:induction false} RefusalCountsNoAck(cfg: Config, dl: Dl, sf: nat, m: nat, mp: nat)
    requires cfg.Valid() && dl.Valid(cfg) && sf < 10 && m <= UlAckM(cfg.duplex, sf)
    ensures FeedbackFrom(cfg, dl, REFUSAL, sf, m, mp).ack == dl.ack
    decreases UlAckM(cfg.duplex, sf) - m
  {
    if m < UlAckM(cfg.duplex, sf) {
      var s := UlAckDl(cfg.duplex, sf, m);
      if dl.subframeTx[s] {
        RefusalCountsNoAck(cfg, Settle(cfg, dl, s, false), sf, m + 1, mp + 1);
      } else {
        RefusalCountsNoAck(cfg, dl, sf, m + 1, mp);
      }
    }
  }

  lemma {:induction false} TruthKeepsAcks(cfg: Config, dl: Dl, answers: seq<Answer>, sf: nat, m: nat)
    requires cfg.Valid() && dl.Valid(cfg) && sf < 10 && m <= UlAckM(cfg.duplex, sf) && |answers| == 10
    ensures forall p, r :: 0 <= p < 8 && 0 <= r < 8 ==> Truth(cfg, dl, answers, sf, m).ack[p][r] >= dl.ack[p][r]
    decreases UlAckM(cfg.duplex, sf) - m
  {
    if m < UlAckM(cfg.duplex, sf) {
      var s := UlAckDl(cfg.duplex, sf, m);
      var d := if dl.subframeTx[s] then Settle(cfg, dl, s, answers[s] == Got(true)) else dl;
      TruthKeepsAcks(cfg, d, answers, sf, m + 1);
      assert forall p, r :: 0 <= p < 8 && 0 <= r < 8 ==> d.ack[p][r] >= dl.ack[p][r];
    }
  }

  // A NAK for one subframe leaves another waiting unless it gives up its process.
  lemma StillAwaits(cfg: Config, dl: Dl, s: nat, t: nat)
    requires cfg.Valid() && dl.Valid(cfg) && s < 10 && t < 10 && s != t
    ensures
      var d := Settle(cfg, dl, s, false);
      Awaits(cfg, d, t) <==>
      Awaits(cfg, dl, t) &&
      !(Awaits(cfg, dl, s) && dl.harqIds[s] == dl.harqIds[t] && dl.procs[dl.harqIds[t]].round + 1 == cfg.mlimit)
  {
  }

  lemma DecodedOnTheWayIff(cfg: Config, dl: Dl, answers: seq<Answer>, sf: nat)
    requires cfg.Valid() && dl.Valid(cfg) && sf < 10 && |answers| == 10
    ensures DecodedOnTheWay(cfg, dl, answers, sf, 0) <==> AwaitedBlockDecoded(cfg, dl, answers, sf)
  {
    var M := UlAckM(cfg.duplex, sf);
    if M > 0 {
      var s := UlAckDl(cfg.duplex, sf, 0);
      var d := if dl.subframeTx[s] then Settle(cfg, dl, s, false) else dl;
      assert WillAwait(cfg, dl, sf, 0) == (dl.subframeTx[s] && Awaits(cfg, dl, s));
      if M > 1 {
        SecondOnTheWay(cfg, dl, d, answers, sf);
      }
    }
  }

  lemma SecondOnTheWay(cfg: Config, dl: Dl, d: Dl, answers: seq<Answer>, sf: nat)
    requires cfg.Valid() && dl.Valid(cfg) && d.Valid(cfg) && sf < 10 && |answers| == 10 && UlAckM(cfg.duplex, sf) == 2
    requires
      var s := UlAckDl(cfg.duplex, sf, 0);
      d == if dl.subframeTx[s] then Settle(cfg, dl, s, false) else dl
    ensures DecodedOnTheWay(cfg, d, answers, sf, 1) <==>
            WillAwait(cfg, dl, sf, 1) && answers[UlAckDl(cfg.duplex, sf, 1)] == Got(true)
  {
    SecondAwaited(cfg, dl, sf);
    LastOnTheWay(cfg, d, answers, sf);
    var s, t := UlAckDl(cfg.duplex, sf, 0), UlAckDl(cfg.duplex, sf, 1);
    if dl.subframeTx[s] {
      StillAwaits(cfg, dl, s, t);
    }
  }

  lemma SecondAwaited(cfg: Config, dl: Dl, sf: nat)
    requires cfg.Valid() && dl.Valid(cfg) && sf < 10 && UlAckM(cfg.duplex, sf) == 2
    ensures
      var s, t := UlAckDl(cfg.duplex, sf, 0), UlAckDl(cfg.duplex, sf, 1);
      WillAwait(cfg, dl, sf, 1) <==>
      && dl.subframeTx[t] && Awaits(cfg, dl, t)
      && !(dl.subframeTx[s] && Awaits(cfg, dl, s) && dl.harqIds[s] == dl.harqIds[t] && dl.procs[dl.harqIds[t]].round + 1 == cfg.mlimit)
  {
    var t := UlAckDl(cfg.duplex, sf, 1);
    assert WillAwait(cfg, dl, sf, 1) == (dl.subframeTx[t] && Awaits(cfg, dl, t) && !GivesUp(cfg, dl, sf, 0, dl.harqIds[t]));
  }

  lemma LastOnTheWay(cfg: Config, d: Dl, answers: seq<Answer>, sf: nat)
    requires cfg.Valid() && d.Valid(cfg) && sf < 10 && |answers| == 10 && UlAckM(cfg.duplex, sf) == 2
    ensures
      var t := UlAckDl(cfg.duplex, sf, 1);
      DecodedOnTheWay(cfg, d, answers, sf, 1) <==> d.subframeTx[t] && Awaits(cfg, d, t) && answers[t] == Got(true)
  {
  }

  // An input on which it fails: one block, waited for and decoded.
  lemma MultiplexingRefusesADecodedBlock()
    ensures
      var cfg := Config(TDD(3), true, 4, 4, 8, 5, 100, false);
      var dl := OneBlock(5);
      && cfg.Valid() && dl.Valid(cfg)
      && Feedback(cfg, dl, OnPucch(true, false, 0, false), 2) != Truth(cfg, dl, seq(10, _ => Dtx)[5 := Got(true)], 2, 0)
  {
    var cfg, dl, answers := Config(TDD(3), true, 4, 4, 8, 5, 100, false), OneBlock(5), seq(10, _ => Dtx)[5 := Got(true)];
    assert WillAwait(cfg, dl, 2, 0) && answers[UlAckDl(cfg.duplex, 2, 0)] == Got(true);
    MultiplexingAloneRightIff(cfg, dl, answers, 2, true, false, 0);
  }

  // Process 0 holds the only block, sent in subframe s.
  function OneBlock(s: nat): Dl
    requires s < 10
  {
    Dl(seq(10, _ => 8)[s := 0], seq(10, _ => false)[s := true], seq(8, _ => DlProc(Idle, 0, 0))[0 := DlProc(Active, 0, 100)],
       Zeros8x8(), Zeros8x8(), Zeros(8), 0, 0, 0, 0)
  }

  // ----- Bundling -----

  // Of two scheduled blocks the UE decoded one and, without a scheduling request,
  // missed the other's assignment.
  predicate OneOfTwo(tx: seq<bool>, answers: seq<Answer>, sf: nat, sr: bool)
    requires |tx| == 10 && |answers| == 10 && 2 <= sf <= 4
  {
    var a0, a1 := answers[First3(sf)], answers[Second3(sf)];
    && tx[First3(sf)] && tx[Second3(sf)]
    && ((a0 == Got(true) && (a1 == Dtx || (sr && a1 == Got(false)))) ||
        (a1 == Got(true) && (a0 == Dtx || (sr && a0 == Got(false)))))
  }

  // Bundling from the UE's answer to the blocks, for what ReadPucch reads. All
  // scheduled blocks are settled by one bit, and that is right if and only if
  //  - where the eNodeB reads the resource that the UE sends on: the UE did not
  //    decode just one of two scheduled blocks, the other's assignment being
  //    missed (any other answer, with a scheduling request);
  //  - where it reads a silent one: the UE did not decode all of them.
  lemma BundlingIsRightIff(cfg: Config, dl: Dl, nRb: nat, an: nat, srResource: nat, nCce: seq<nat>, answers: seq<Answer>,
                           sf: nat, sr: bool, n1: nat, sel: nat, b0: bool, b1: bool, src: Source)
    requires cfg.Valid() && dl.Valid(cfg) && cfg.duplex == TDD(3) && |answers| == 10 && |nCce| == 10
    requires Heard(dl.subframeTx, answers, sf)
    requires Answer3(Resource0(nRb, an, nCce, sf), Resource1(nRb, an, nCce, sf), srResource, true,
                     answers[First3(sf)], answers[Second3(sf)], sr, n1, sel, b0, b1)
    requires src.OnPucch? && src.sel == 2
    requires
      var (e0, e1) := N1PucchENodeB3(nRb, an, nCce, dl.subframeTx, sf);
      src.b0 == RxPucch(Sent(n1, b0, b1), BundledResource(e0, e1, srResource, src.sr), false).0
    ensures Feedback(cfg, dl, src, sf) == Uniform(cfg, dl, sf, src.b0)
    ensures
      var (e0, e1) := N1PucchENodeB3(nRb, an, nCce, dl.subframeTx, sf);
      src.b0 == AllDecoded(dl.subframeTx, answers, sf) <==>
      if n1 % 256 == BundledResource(e0, e1, srResource, src.sr) then !OneOfTwo(dl.subframeTx, answers, sf, sr)
      else !AllDecoded(dl.subframeTx, answers, sf)
  {
    Codes();
    SameBitsSameFeedback(cfg, dl, src, src.b0, sf, 0, 0);
  }

  // Without a scheduling request and with resources that fit into 8 bits and are
  // not taken for a request's: wrong exactly when both blocks were scheduled, the
  // first assignment was missed and the second block decoded. When the second was
  // missed, the eNodeB reads the silent second resource and refuses rightly.
  lemma BundlingAloneWrongIff(nRb: nat, an: nat, srResource: nat, nCce: seq<nat>, tx: seq<bool>, answers: seq<Answer>,
                              sf: nat, n1: nat, sel: nat, b0: bool, b1: bool)
    requires |tx| == 10 && |answers| == 10 && |nCce| == 10 && Heard(tx, answers, sf)
    requires NpTable(nRb) != [] && nCce[First3(sf)] < NpTable(nRb)[3] && nCce[Second3(sf)] < NpTable(nRb)[3]
    requires Resource0(nRb, an, nCce, sf) < 256 && Resource1(nRb, an, nCce, sf) < 256
    requires Answer3(Resource0(nRb, an, nCce, sf), Resource1(nRb, an, nCce, sf), srResource, true,
                     answers[First3(sf)], answers[Second3(sf)], false, n1, sel, b0, b1)
    ensures
      var (e0, e1) := N1PucchENodeB3(nRb, an, nCce, tx, sf);
      var bit := RxPucch(Sent(n1, b0, b1), BundledResource(e0, e1, srResource, false), false).0;
      bit != AllDecoded(tx, answers, sf) <==>
      tx[First3(sf)] && tx[Second3(sf)] && answers[First3(sf)] == Dtx && answers[Second3(sf)] == Got(true)
  {
    SameResources(nRb, an, nCce, tx, sf);
    ResourcesDiffer(nRb, nCce[First3(sf)], nCce[Second3(sf)]);
  }

  // With a request whose resource fits into 8 bits: wrong exactly when one of two
  // scheduled blocks was decoded.
  lemma BundlingWithSrWrongIff(nRb: nat, an: nat, srResource: nat, nCce: seq<nat>, tx: seq<bool>, answers: seq<Answer>,
                               sf: nat, n1: nat, sel: nat, b0: bool, b1: bool)
    requires |tx| == 10 && |answers| == 10 && |nCce| == 10 && Heard(tx, answers, sf) && srResource < 256
    requires Answer3(Resource0(nRb, an, nCce, sf), Resource1(nRb, an, nCce, sf), srResource, true,
                     answers[First3(sf)], answers[Second3(sf)], true, n1, sel, b0, b1)
    ensures
      var (e0, e1) := N1PucchENodeB3(nRb, an, nCce, tx, sf);
      var bit := RxPucch(Sent(n1, b0, b1), BundledResource(e0, e1, srResource, true), false).0;
      bit != AllDecoded(tx, answers, sf) <==>
      tx[First3(sf)] && tx[Second3(sf)] && AckOf(answers[First3(sf)]) + AckOf(answers[Second3(sf)]) == 1
  {
    Codes();
  }

  // Subframes 5 and 6 scheduled, 25 resource blocks, every CCE index 0. The first
  // assignment missed and the second block decoded: both are acknowledged. The
  // other way round both are refused.
  lemma MissedAssignments()
    ensures
      var tx := seq(10, i => i == 5 || i == 6);
      var (e0, e1) := N1PucchENodeB3(25, 10, seq(10, _ => 0), tx, 2);
      && (e0, e1) == (10, 15)
      && Answer3(10, 15, 3, true, Dtx, Got(true), false, 15, 1, true, false)
      && RxPucch(Sent(15, true, false), BundledResource(e0, e1, 3, false), false).0
      && !AllDecoded(tx, seq(10, _ => Dtx)[6 := Got(true)], 2)
      && Answer3(10, 15, 3, true, Got(true), Dtx, false, 10, 0, true, false)
      && !RxPucch(Sent(10, true, false), BundledResource(e0, e1, 3, false), false).0
      && !AllDecoded(tx, seq(10, _ => Dtx)[5 := Got(true)], 2)
  {
    assert GetNp(25, 0, 0) == 0 && GetNp(25, 0, 1) == 5;
  }
}
