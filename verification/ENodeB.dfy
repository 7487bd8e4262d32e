// The eNodeB's per-subframe uplink work on its UE table, in place: adding and
// removing UEs, downlink feedback, one reception, and the join that collects the
// turbo decoders' results in whatever order they come.
module ENodeB {
  import opened UeState
  import opened UeTable
  import opened Msg3Timing
  import opened UlReception
  import opened DlFeedback
  import RandomAccess
  import UlFailure

  // A reception as an update of the whole table: a removal frees the first slot
  // with the UE's RNTI.
  function Received(cfg: Config, tab: seq<Ue>, i: nat, pid: nat, frame: nat, sf: nat, rx: Reception): (r: seq<Ue>)
    requires cfg.Valid() && Shaped(cfg, tab) && i < |tab| && sf < 10 && Ready(cfg, tab[i], pid)
    ensures |r| == |tab| && Shaped(cfg, r)
  {
    var s := Judged(cfg, tab, i, pid, frame, sf, rx);
    s[i := WithFeedback(cfg, s[i], sf, rx)]
  }

  // The same before the downlink feedback.
  function Judged(cfg: Config, tab: seq<Ue>, i: nat, pid: nat, frame: nat, sf: nat, rx: Reception): (r: seq<Ue>)
    requires cfg.Valid() && Shaped(cfg, tab) && i < |tab| && sf < 10 && Ready(cfg, tab[i], pid)
    ensures |r| == |tab| && Shaped(cfg, r)
  {
    var f := Receive(cfg, tab[i], pid, frame, sf, rx);
    var t := tab[i := f.u];
    var s := if f.Keep? then t else Removed(cfg, t, f.u.crnti);
    s[i := AfterRemoval(cfg, f, s[i])]
  }

  class Station {
    const cfg: Config
    const ues: array<Ue>

    ghost predicate Valid()
      reads ues
    {
      cfg.Valid() && Shaped(cfg, ues[..])
    }

    constructor (cfg: Config, ues: array<Ue>)
      ensures this.cfg == cfg && this.ues == ues
    {
      this.cfg := cfg;
      this.ues := ues;
    }

    // add_ue
    method AddUe(rnti: nat) returns (id: int)
      requires Valid()
      modifies ues
      ensures Valid()
      ensures ues[..] == Added(old(ues[..]), rnti)
      ensures id >= 0 ==>
                && id < ues.Length && old(ues[..])[id].crnti == 0
                && ues[..] == old(ues[..])[id := old(ues[..])[id].(crnti := rnti, dlRnti := rnti, ulRnti := rnti)]
      ensures id == if Full(old(ues[..])) then -1 else SlotOf(old(ues[..]), 0, 0)
    {
      for i := 0 to ues.Length
        invariant ues[..] == old(ues[..])
        invariant SlotOf(ues[..], 0, 0) == SlotOf(ues[..], 0, i)
      {
        if ues[i].crnti == 0 {
          ues[i] := ues[i].(dlRnti := rnti);
          ues[i] := ues[i].(ulRnti := rnti);
          ues[i] := ues[i].(crnti := rnti);
          assert ues[..] == Added(old(ues[..]), rnti);
          return i;
        }
      }
      return -1;
    }

    // find_next_ue_index
    method FindNextUeIndex() returns (id: int)
      ensures id == if Full(ues[..]) then -1 else SlotOf(ues[..], 0, 0)
    {
      for i := 0 to ues.Length
        invariant SlotOf(ues[..], 0, 0) == SlotOf(ues[..], 0, i)
      {
        if ues[i].crnti == 0 {
          return i;
        }
      }
      return -1;
    }

    // find_ue
    method FindUe(rnti: nat) returns (id: int)
      ensures id == if ChannelOf(ues[..], rnti, 0) == ues.Length then -1 else ChannelOf(ues[..], rnti, 0)
    {
      for i := 0 to ues.Length
        invariant ChannelOf(ues[..], rnti, 0) == ChannelOf(ues[..], rnti, i)
      {
        if ues[i].dlRnti == rnti {
          return i;
        }
      }
      return -1;
    }

    // mac_phy_remove_ue
    method RemoveUe(rnti: nat) returns (id: int)
      requires Valid()
      modifies ues
      ensures Valid()
      ensures ues[..] == Removed(cfg, old(ues[..]), rnti)
      ensures id == if Present(old(ues[..]), rnti) then SlotOf(old(ues[..]), rnti, 0) else -1
      ensures id >= 0 ==> id < ues.Length && AsNew(cfg, old(ues[..])[id], ues[id])
    {
      for i := 0 to ues.Length
        invariant ues[..] == old(ues[..])
        invariant SlotOf(ues[..], rnti, 0) == SlotOf(ues[..], rnti, i)
      {
        if ues[i].crnti == rnti {
          CleanedIsNew(cfg, ues[i]);
          ues[i] := Cleaned(cfg, ues[i]);
          assert ues[..] == Removed(cfg, old(ues[..]), rnti);
          return i;
        }
      }
      return -1;
    }

    // The feedback bits of process_HARQ_feedback, tables as they are written:
    // dlsch_ACK[0..1], and whether all blocks count as acknowledged when a
    // scheduling request was multiplexed.
    method ReadFeedback(tx: seq<bool>, src: Source, sf: nat) returns (ack0: bool, ack1: bool, allAcked: bool)
      requires |tx| == 10 && sf < 10
      ensures src.OnPusch? ==> ack0 == src.oAck0
      ensures src.OnPusch? && cfg.duplex.TDD? ==> ack1 == if cfg.bundling then src.oAck0 else src.oAck1
      ensures src.OnPucch? && (cfg.duplex.FDD? || src.sel == 2) ==> ack0 == src.b0
      ensures src.OnPucch? && cfg.duplex.TDD? && src.sel == 2 ==> ack1 == src.b0
      ensures Multiplexed(src) && !src.sr && cfg.duplex.TDD? && UlAckM(cfg.duplex, sf) == 2 ==>
                ack0 == TableAck0(src.sel, src.b0, src.b1) && ack1 == TableAck1(src.sel, src.b0, src.b1)
      ensures Multiplexed(src) && !src.sr && cfg.duplex.TDD? && UlAckM(cfg.duplex, sf) == 1 ==> ack0 == src.b0
      ensures BitsRead(tx, src, sf, ack0, ack1)
      ensures Multiplexed(src) ==> forall mp :: AckBit(cfg, tx, src, sf, mp) == (src.sr && allAcked)
    {
      var nbAck := 0;
      ack0, ack1, allAcked := false, false, true;
      var M := UlAckM(cfg.duplex, sf);
      if cfg.duplex.FDD? {
        ack0 := if src.OnPusch? then src.oAck0 else src.b0;
      } else if src.OnPusch? {
        ack0 := src.oAck0;
        ack1 := if cfg.bundling then src.oAck0 else src.oAck1;
      } else if src.sr && src.sel != 2 {
        nbAck := ReadAckCount(M, src.b0, src.b1);
        OneDecoding(M, src.b0, src.b1, nbAck);
      } else if src.sel == 2 {
        ack0, ack1 := src.b0, src.b0;
      } else if M == 1 {
        ack0 := src.b0;
      } else if M == 2 {
        ack0 := (src.sel == 1 && src.b0 && src.b1) || (src.sel == 0 && !src.b0 && src.b1);
        ack1 := (src.sel == 1 && src.b0 && src.b1) || (src.sel == 1 && !src.b0 && !src.b1);
      }
      if Multiplexed(src) && src.sr {
        var nbAlloc := 0;
        for m := 0 to M
          invariant nbAlloc == Scheduled(cfg.duplex, tx, sf, m)
        {
          if tx[UlAckDl(cfg.duplex, sf, m)] {
            nbAlloc := nbAlloc + 1;
          }
        }
        allAcked := nbAlloc == nbAck;
      }
    }

    // process_HARQ_feedback
    method ProcessHarqFeedback(i: nat, src: Source, sf: nat)
      requires Valid() && i < ues.Length && sf < 10
      modifies ues
      ensures Valid()
      ensures ues[..] == old(ues[..])[i := old(ues[i]).(dl := Feedback(cfg, old(ues[i].dl), src, sf))]
      ensures cfg.duplex.FDD? && (src.OnPucch? ==> src.sel == 2) ==>
                SettledAs(cfg, old(ues[i].dl), ues[i].dl, (sf + 6) % 10, if src.OnPusch? then src.oAck0 else src.b0)
    {
      ghost var before := ues[i].dl;
      var ack0, ack1, allAcked := ReadFeedback(ues[i].dl.subframeTx, src, sf);
      SettleAll(i, src, sf, ack0, ack1, allAcked);
      if cfg.duplex.FDD? && (src.OnPucch? ==> src.sel == 2) {
        FddFeedbackBooks(cfg, before, src, sf);
      }
    }

    // Its loop over the downlink subframes, for the bits a0, a1 and allAcked.
    method SettleAll(i: nat, src: Source, sf: nat, a0: bool, a1: bool, allAcked: bool)
      requires Valid() && i < ues.Length && sf < 10
      requires BitsRead(ues[i].dl.subframeTx, src, sf, a0, a1)
      requires Multiplexed(src) ==> forall mp :: AckBit(cfg, ues[i].dl.subframeTx, src, sf, mp) == (src.sr && allAcked)
      modifies ues
      ensures Valid()
      ensures ues[..] == old(ues[..])[i := old(ues[i]).(dl := Feedback(cfg, old(ues[i].dl), src, sf))]
    {
      var ack0, ack1 := a0, a1;
      ghost var tab, tx := ues[..], ues[i].dl.subframeTx;
      var M := UlAckM(cfg.duplex, sf);
      var mp := -1;
      ghost var count := 0;
      for m := 0 to M
        invariant Valid() && ues[..] == tab[i := tab[i].(dl := ues[i].dl)]
        invariant ues[i].dl.subframeTx == tx
        invariant 0 <= count <= m && (src.OnPusch? ==> mp == count - 1)
        invariant BitsRead(tx, src, sf, ack0, ack1)
        invariant Feedback(cfg, tab[i].dl, src, sf) == FeedbackFrom(cfg, ues[i].dl, src, sf, m, count)
      {
        var sfDl := UlAckDl(cfg.duplex, sf, m);
        if ues[i].dl.subframeTx[sfDl] {
          mp := if src.OnPusch? then mp + 1 else m;
          ack0, ack1 := SettleScheduled(i, src, sf, m, mp, ack0, ack1, allAcked, count);
          count := count + 1;
        }
      }
    }

    // The loop body for a scheduled subframe, the count-th one.
    method SettleScheduled(i: nat, src: Source, sf: nat, m: nat, mp: int, a0: bool, a1: bool, allAcked: bool, ghost count: nat)
      returns (ack0: bool, ack1: bool)
      requires Valid() && i < ues.Length && sf < 10 && count <= m < UlAckM(cfg.duplex, sf)
      requires mp == if src.OnPusch? then count else m
      requires BitsRead(ues[i].dl.subframeTx, src, sf, a0, a1)
      requires Multiplexed(src) ==> (src.sr && allAcked) == AckBit(cfg, ues[i].dl.subframeTx, src, sf, count)
      modifies ues
      ensures Valid() && BitsRead(ues[i].dl.subframeTx, src, sf, ack0, ack1)
      ensures
        var dl := old(ues[i].dl);
        var bit := AckBit(cfg, dl.subframeTx, src, sf, count);
        ues[..] == old(ues[..])[i := old(ues[i]).(dl := Settle(cfg, dl, UlAckDl(cfg.duplex, sf, m), bit))]
    {
      ack0, ack1 := a0, a1;
      if Multiplexed(src) {
        if m == 0 {
          ack0 := src.sr && allAcked;
        } else {
          ack1 := src.sr && allAcked;
        }
      }
      ChosenBit(ues[i].dl.subframeTx, src, sf, m, mp, count, ack0, ack1);
      SettleInPlace(i, UlAckDl(cfg.duplex, sf, m), if mp == 0 then ack0 else ack1);
    }

    // The entry of dlsch_ACK that is looked at is the bit for the block.
    lemma ChosenBit(tx: seq<bool>, src: Source, sf: nat, m: nat, mp: int, count: nat, ack0: bool, ack1: bool)
      requires |tx| == 10 && sf < 10 && count <= m < UlAckM(cfg.duplex, sf)
      requires mp == if src.OnPusch? then count else m
      requires BitsRead(tx, src, sf, ack0, ack1)
      requires Multiplexed(src) ==> (if m == 0 then ack0 else ack1) == AckBit(cfg, tx, src, sf, count)
      ensures (if mp == 0 then ack0 else ack1) == AckBit(cfg, tx, src, sf, count)
    {
    }

    // Outside multiplexing, what dlsch_ACK holds.
    ghost predicate BitsRead(tx: seq<bool>, src: Source, sf: nat, ack0: bool, ack1: bool)
      requires |tx| == 10 && sf < 10
    {
      !Multiplexed(src) ==>
        && (UlAckM(cfg.duplex, sf) > 0 ==> ack0 == AckBit(cfg, tx, src, sf, 0))
        && (UlAckM(cfg.duplex, sf) > 1 ==> ack1 == AckBit(cfg, tx, src, sf, 1))
    }

    // Table 7.3-1 of TS 36.213 as process_HARQ_feedback reads it.
    method ReadAckCount(M: nat, b0: bool, b1: bool) returns (nbAck: nat)
      ensures Decodes(M, b0, b1, nbAck)
    {
      nbAck := 0;
      Codes();
      if M == 2 {
        if b0 && b1 {
          nbAck := 1;
        } else if b0 && !b1 {
          nbAck := 2;
        }
      } else if M == 3 {
        if b0 && b1 {
          nbAck := 1;
        } else if b0 && !b1 {
          nbAck := 2;
        } else if !b0 && b1 {
          nbAck := 3;
        }
      }
    }

    // The part of process_HARQ_feedback about one downlink subframe.
    method SettleInPlace(i: nat, sfDl: nat, bit: bool)
      requires Valid() && i < ues.Length && sfDl < 10
      modifies ues
      ensures Valid()
      ensures ues[..] == old(ues[..])[i := old(ues[i]).(dl := Settle(cfg, old(ues[i].dl), sfDl, bit))]
    {
      var dl := ues[i].dl;
      var pid := dl.harqIds[sfDl];
      if pid < cfg.mdlharq && dl.procs[pid].status == Active {
        dl := Judge(dl, sfDl, bit);
        dl := AdaptRate(dl);
      }
      ues[i] := ues[i].(dl := dl);
    }

    // ACK or NAK of an active process.
    method Judge(dl0: Dl, sfDl: nat, bit: bool) returns (dl: Dl)
      requires cfg.Valid() && dl0.Valid(cfg) && sfDl < 10 && Awaits(cfg, dl0, sfDl)
      ensures dl == if bit then Acked(cfg, dl0, sfDl) else Naked(cfg, dl0, sfDl)
    {
      dl := dl0;
      var pid := dl.harqIds[sfDl];
      var p := dl.procs[pid];
      if !bit {
        if p.round == 0 {
          dl := dl.(nakRound0 := dl.nakRound0 + 1);
        }
        dl := dl.(nak := Bump(dl.nak, pid, p.round));
        p := p.(round := p.round + 1);
        if p.round == cfg.mlimit {
          p := p.(round := 0, status := Idle);
          dl := dl.(l2Errors := dl.l2Errors[pid := dl.l2Errors[pid] + 1]);
          dl := dl.(harqIds := dl.harqIds[sfDl := cfg.mdlharq]);
        }
      } else {
        dl := dl.(ack := Bump(dl.ack, pid, p.round));
        p := p.(round := 0, status := Idle);
        dl := dl.(harqIds := dl.harqIds[sfDl := cfg.mdlharq]);
        dl := dl.(totalTbs := dl.totalTbs + p.tbs);
      }
      dl := dl.(procs := dl.procs[pid := p]);
    }

    // Fine-grain rate adaptation.
    method AdaptRate(dl0: Dl) returns (dl: Dl)
      ensures dl == Adapt(cfg, dl0)
      ensures -1 <= dl0.mcsOffset <= 1 ==> Moves(cfg, dl0, dl)
    {
      dl := dl0;
      if dl.nakRound0 > cfg.errorThreshold {
        dl := dl.(mcsOffset := if dl.mcsOffset == 1 then 0 else -1);
      }
      if dl.slidingCnt == cfg.raWindowSize {
        if dl.mcsOffset == 0 && dl.nakRound0 < 2 {
          dl := dl.(mcsOffset := 1);
        }
        if dl.mcsOffset == 1 && dl.nakRound0 > 2 {
          dl := dl.(mcsOffset := 0);
        }
        if dl.mcsOffset == 0 && dl.nakRound0 > 2 {
          dl := dl.(mcsOffset := -1);
        }
        if dl.mcsOffset == -1 && dl.nakRound0 < 2 {
          dl := dl.(mcsOffset := 0);
        }
        dl := dl.(nakRound0 := 0, slidingCnt := 0);
      }
    }

    // process_Msg3
    method ProcessMsg3(i: nat, pid: nat, frame: nat, sf: nat)
      requires Valid() && i < ues.Length && pid < 8
      modifies ues
      ensures Valid()
      ensures ues[..] == old(ues[..])[i := old(ues[i]).(ul := RandomAccess.ProcessMsg3(old(ues[i].ul), pid, frame, sf))]
      ensures
        var a, b := old(ues[i].ul), ues[i].ul;
        var due := a.msg3Active && a.msg3Frame == frame && a.msg3Subframe == sf;
        && (b.msg3Flag <==> due) && (b.msg3Active <==> a.msg3Active && !due)
        && b.procs[pid] == a.procs[pid].(scheduled := due || a.procs[pid].scheduled)
        && (forall p :: 0 <= p < 8 && p != pid ==> b.procs[p] == a.procs[p])
    {
      var ul := ues[i].ul;
      ul := ul.(msg3Flag := false);
      if ul.msg3Active && ul.msg3Subframe == sf && ul.msg3Frame == frame {
        ul := ul.(msg3Active := false, msg3Flag := true);
        ul := ul.(procs := ul.procs[pid := ul.procs[pid].(scheduled := true)]);
      }
      ues[i] := ues[i].(ul := ul);
    }

    // The UL failure check of phy_procedures_eNB_TX: the slots that failure is
    // indicated for, each once.
    method DetectUlFailure() returns (indicated: seq<nat>)
      requires Valid()
      modifies ues
      ensures Valid()
      ensures forall k :: 0 <= k < ues.Length ==> ues[k] == Tested(old(ues[k]))
      ensures forall k :: 0 <= k < ues.Length ==>
                ues[k].ul.consecutive == if old(ues[k].ul.consecutive) == 20 then 0 else old(ues[k].ul.consecutive)
      ensures forall k :: k in indicated <==> 0 <= k < ues.Length && old(ues[..])[k].ul.consecutive == 20
      ensures forall a, b :: 0 <= a < b < |indicated| ==> indicated[a] < indicated[b]
    {
      ghost var tab := ues[..];
      indicated := [];
      for i := 0 to ues.Length
        invariant Valid()
        invariant forall k :: 0 <= k < ues.Length ==> ues[k] == if k < i then Tested(tab[k]) else tab[k]
        invariant forall k :: k in indicated <==> 0 <= k < i && UlFailure.AfterTx(tab[k].ul.consecutive).1
        invariant forall a :: 0 <= a < |indicated| ==> indicated[a] < i
        invariant forall a, b :: 0 <= a < b < |indicated| ==> indicated[a] < indicated[b]
      {
        if ues[i].ul.consecutive == UlFailure.LIMIT {
          ues[i] := ues[i].(ul := ues[i].ul.(consecutive := 0));
          indicated := indicated + [i];
        }
      }
    }

    function Tested(u: Ue): Ue {
      u.(ul := u.ul.(consecutive := UlFailure.AfterTx(u.ul.consecutive).0))
    }

    // The reception of UE i inside phy_procedures_eNB_uespec_RX.
    method ReceiveUlsch(i: nat, pid: nat, frame: nat, sf: nat, rx: Reception)
      requires Valid() && i < ues.Length && sf < 10 && Ready(cfg, ues[i], pid)
      modifies ues
      ensures Valid()
      ensures ues[..] == Received(cfg, old(ues[..]), i, pid, frame, sf, rx)
      ensures !old(ues[i].ul.msg3Flag) ==> NormalReception(old(ues[..]), ues[..], i, pid, sf, rx)
    {
      ReceivedNormally(ues[..], i, pid, frame, sf, rx);
      if !rx.decoded {
        ReceiveFailure(i, pid, frame, sf, rx);
      } else {
        ReceiveSuccess(i, pid, frame, sf, rx);
      }
      ProcessHarqFeedback(i, OnPusch(rx.oAck0, rx.oAck1), sf);
    }

    // Outside random access a reception changes one slot, as HeardAs says and, in
    // FDD, with the downlink block of 4 subframes before settled by o_ACK[0].
    ghost predicate NormalReception(tab: seq<Ue>, now: seq<Ue>, i: nat, pid: nat, sf: nat, rx: Reception)
      requires i < |tab| && sf < 10 && Ready(cfg, tab[i], pid)
    {
      && |now| == |tab| && (forall k :: 0 <= k < |tab| && k != i ==> now[k] == tab[k])
      && HeardAs(cfg, tab[i], now[i], pid, rx.decoded)
      && (cfg.duplex.FDD? ==> SettledAs(cfg, tab[i].dl, now[i].dl, (sf + 6) % 10, rx.oAck0))
    }

    lemma ReceivedNormally(tab: seq<Ue>, i: nat, pid: nat, frame: nat, sf: nat, rx: Reception)
      requires Shaped(cfg, tab) && i < |tab| && sf < 10 && Ready(cfg, tab[i], pid)
      ensures !tab[i].ul.msg3Flag ==>
                NormalReception(tab, Received(cfg, tab, i, pid, frame, sf, rx), i, pid, sf, rx)
    {
      if !tab[i].ul.msg3Flag {
        NormalOutcome(cfg, tab[i], pid, frame, sf, rx);
        assert Received(cfg, tab, i, pid, frame, sf, rx) == tab[i := ReceiveAlone(cfg, tab[i], pid, frame, sf, rx)];
      }
    }

    method ReceiveFailure(i: nat, pid: nat, frame: nat, sf: nat, rx: Reception)
      requires Valid() && i < ues.Length && sf < 10 && Ready(cfg, ues[i], pid) && !rx.decoded
      modifies ues
      ensures Valid()
      ensures ues[..] == Judged(cfg, old(ues[..]), i, pid, frame, sf, rx)
    {
      ghost var tab := ues[..];
      ghost var fate := Receive(cfg, ues[i], pid, frame, sf, rx);
      ues[i] := ues[i].(ul := Counted(ues[i].ul, pid));
      ues[i] := ues[i].(ul := Failed(ues[i].ul, pid));
      if ues[i].ul.msg3Flag {
        if ues[i].ul.procs[pid].round == cfg.maxMsg3Tx {
          ues[i] := ues[i].(mode := Prach);
          assert ues[..] == tab[i := fate.u];
          var id := RemoveUe(ues[i].crnti);
          ues[i] := ues[i].(ul := ues[i].ul.(msg3Active := false));
        } else {
          var (f, s) := RetransmissionAlloc(cfg.duplex, sf, frame, ues[i].ul.msg3Frame, ues[i].ul.msg3Subframe);
          ues[i] := ues[i].(ul := ues[i].ul.(msg3Active := true, msg3Frame := f, msg3Subframe := s));
        }
      } else {
        if ues[i].ul.procs[pid].round == cfg.mlimit {
          ues[i] := ues[i].(ul := Exhausted(ues[i].ul, pid));
        }
      }
    }

    method ReceiveSuccess(i: nat, pid: nat, frame: nat, sf: nat, rx: Reception)
      requires Valid() && i < ues.Length && sf < 10 && Ready(cfg, ues[i], pid) && rx.decoded
      modifies ues
      ensures Valid()
      ensures ues[..] == Judged(cfg, old(ues[..]), i, pid, frame, sf, rx)
    {
      ghost var tab := ues[..];
      ghost var fate := Receive(cfg, ues[i], pid, frame, sf, rx);
      ues[i] := ues[i].(ul := Counted(ues[i].ul, pid));
      ues[i] := ues[i].(ul := Succeeded(ues[i].ul, pid));
      if ues[i].ul.msg3Flag {
        if cfg.macEnabled && rx.macClearsMsg3 {
          ues[i] := ues[i].(ul := ues[i].ul.(msg3Flag := false));
          ues[i] := ues[i].(mode := Prach);
          assert ues[..] == tab[i := fate.u];
          var id := RemoveUe(ues[i].crnti);
          ues[i] := ues[i].(ul := ues[i].ul.(msg3Active := false));
        }
        ues[i] := Connected(cfg, ues[i]);
      }
    }
  }
}
