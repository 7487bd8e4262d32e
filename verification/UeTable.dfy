// The table of UE slots, indexed by position and searched by RNTI.
module UeTable {
  import opened UeState

  // First slot at or after `from` whose crnti is `rnti`; |tab| if there is none.
  function SlotOf(tab: seq<Ue>, rnti: nat, from: nat): (i: nat)
    requires from <= |tab|
    ensures from <= i <= |tab|
    ensures i < |tab| ==> tab[i].crnti == rnti
    ensures forall j :: from <= j < i ==> tab[j].crnti != rnti
    decreases |tab| - from
  {
    if from == |tab| || tab[from].crnti == rnti then from else SlotOf(tab, rnti, from + 1)
  }

  // The same by the downlink channel's RNTI, as find_ue searches.
  function ChannelOf(tab: seq<Ue>, rnti: nat, from: nat): (i: nat)
    requires from <= |tab|
    ensures from <= i <= |tab|
    ensures i < |tab| ==> tab[i].dlRnti == rnti
    ensures forall j :: from <= j < i ==> tab[j].dlRnti != rnti
    decreases |tab| - from
  {
    if from == |tab| || tab[from].dlRnti == rnti then from else ChannelOf(tab, rnti, from + 1)
  }

  predicate Full(tab: seq<Ue>) {
    SlotOf(tab, 0, 0) == |tab|
  }

  function Added(tab: seq<Ue>, rnti: nat): (r: seq<Ue>)
    ensures |r| == |tab|
  {
    var i := SlotOf(tab, 0, 0);
    if i == |tab| then tab else tab[i := tab[i].(dlRnti := rnti, ulRnti := rnti, crnti := rnti)]
  }

  function Removed(cfg: Config, tab: seq<Ue>, rnti: nat): (r: seq<Ue>)
    requires cfg.Valid() && Shaped(cfg, tab)
    ensures |r| == |tab| && Shaped(cfg, r)
  {
    var i := SlotOf(tab, rnti, 0);
    if i == |tab| then tab else tab[i := Cleaned(cfg, tab[i])]
  }

  // The three copies of a slot's RNTI agree, and no two slots share one.
  ghost predicate Consistent(tab: seq<Ue>) {
    && (forall i :: 0 <= i < |tab| ==> tab[i].crnti == tab[i].dlRnti == tab[i].ulRnti)
    && Distinct(tab)
  }

  ghost predicate Distinct(tab: seq<Ue>) {
    forall i, j :: 0 <= i < j < |tab| && tab[i].crnti != 0 ==> tab[i].crnti != tab[j].crnti
  }

  predicate Present(tab: seq<Ue>, rnti: nat) {
    SlotOf(tab, rnti, 0) < |tab|
  }

  // Adding keeps RNTIs distinct exactly when the RNTI is 0 or new or there is no room.
  lemma AddKeepsDistinct(tab: seq<Ue>, rnti: nat)
    requires Consistent(tab)
    ensures Consistent(Added(tab, rnti)) <==> rnti == 0 || !Present(tab, rnti) || Full(tab)
  {
    var i, j, r := SlotOf(tab, 0, 0), SlotOf(tab, rnti, 0), Added(tab, rnti);
    if rnti != 0 && Present(tab, rnti) && !Full(tab) {
      assert r[i].crnti == r[j].crnti == rnti;
      assert !Distinct(r);
    }
  }

  // What a freed slot is like: no RNTI, no process in use, no subframe waiting for
  // feedback, nothing counted. Of the processes only the block sizes and the PHICH
  // activity stay, and the Msg3 fields with them.
  ghost predicate AsNew(cfg: Config, u: Ue, v: Ue) {
    && u.dl.Valid(cfg) && u.ul.Shaped() && v.dl.Valid(cfg) && v.ul.Shaped()
    && v.crnti == 0 && v.dlRnti == 0 && v.ulRnti == 0 && v.mode == NotSynched
    && v.dl.subframeTx == u.dl.subframeTx && (forall s :: 0 <= s < 10 ==> v.dl.harqIds[s] == cfg.mdlharq)
    && (forall p :: 0 <= p < 8 ==>
          if p < cfg.mdlharq then v.dl.procs[p] == DlProc(Idle, 0, u.dl.procs[p].tbs) else v.dl.procs[p] == u.dl.procs[p])
    && (forall p, r :: 0 <= p < 8 && 0 <= r < 8 ==>
          v.dl.ack[p][r] == 0 && v.dl.nak[p][r] == 0 && v.ul.attempts[p][r] == 0 && v.ul.roundErrors[p][r] == 0)
    && (forall p :: 0 <= p < 8 ==> v.dl.l2Errors[p] == 0 && v.ul.errors[p] == 0)
    && v.dl.nakRound0 == 0 && v.dl.slidingCnt == 0 && v.dl.mcsOffset == 0 && v.dl.totalTbs == 0 && v.ul.consecutive == 0
    && (forall p :: 0 <= p < 8 ==> v.ul.procs[p] == UlProc(0, false, u.ul.procs[p].phichActive, false))
    && (v.ul.msg3Active, v.ul.msg3Flag) == (u.ul.msg3Active, u.ul.msg3Flag)
    && (v.ul.msg3Frame, v.ul.msg3Subframe) == (u.ul.msg3Frame, u.ul.msg3Subframe)
  }

  lemma CleanedIsNew(cfg: Config, u: Ue)
    requires cfg.Valid() && u.dl.Valid(cfg) && u.ul.Shaped()
    ensures AsNew(cfg, u, Cleaned(cfg, u))
  {
  }

  // A removal frees exactly the slot that had the RNTI.
  lemma RemoveFreesItsSlot(cfg: Config, tab: seq<Ue>, rnti: nat)
    requires cfg.Valid() && Shaped(cfg, tab) && Consistent(tab) && rnti != 0 && Present(tab, rnti)
    ensures
      var i, r := SlotOf(tab, rnti, 0), Removed(cfg, tab, rnti);
      && Consistent(r) && !Present(r, rnti) && ChannelOf(r, rnti, 0) == |r|
      && AsNew(cfg, tab[i], r[i])
      && (forall j :: 0 <= j < |tab| && j != i ==> r[j] == tab[j])
  {
    CleanedIsNew(cfg, tab[SlotOf(tab, rnti, 0)]);
  }

  // find_ue gives back the slot add_ue used, and removing gives back a table
  // without the UE in which the others still are where they were.
  lemma FindInvertsAdd(tab: seq<Ue>, rnti: nat)
    requires Consistent(tab) && rnti != 0 && !Present(tab, rnti) && !Full(tab)
    ensures
      var i, r := SlotOf(tab, 0, 0), Added(tab, rnti);
      && ChannelOf(r, rnti, 0) == i && SlotOf(r, rnti, 0) == i
      && forall other :: other != rnti && other != 0 ==> ChannelOf(r, other, 0) == ChannelOf(tab, other, 0)
  {
    var i, r := SlotOf(tab, 0, 0), Added(tab, rnti);
    forall other | other != rnti && other != 0
      ensures ChannelOf(r, other, 0) == ChannelOf(tab, other, 0)
    {
      SameSearch(tab, r, other, 0);
    }
  }

  lemma {:induction false} SameSearch(a: seq<Ue>, b: seq<Ue>, rnti: nat, from: nat)
    requires |a| == |b| && from <= |a|
    requires forall j :: 0 <= j < |a| ==> (a[j].dlRnti == rnti <==> b[j].dlRnti == rnti)
    ensures ChannelOf(a, rnti, from) == ChannelOf(b, rnti, from)
    decreases |a| - from
  {
    if from < |a| {
      SameSearch(a, b, rnti, from + 1);
    }
  }

  // ----- Runs -----

  datatype Op = Add(rnti: nat) | Remove(rnti: nat)

  function Apply(cfg: Config, tab: seq<Ue>, ops: seq<Op>): (r: seq<Ue>)
    requires cfg.Valid() && Shaped(cfg, tab)
    ensures |r| == |tab| && Shaped(cfg, r)
  {
    if ops == [] then tab
    else
      var t, op := Apply(cfg, tab, ops[..|ops|-1]), ops[|ops|-1];
      match op
      case Add(rnti) => Added(t, rnti)
      case Remove(rnti) => Removed(cfg, t, rnti)
  }

  // Every add is of an RNTI that is not in the table at that time.
  ghost predicate AddsAreNew(cfg: Config, tab: seq<Ue>, ops: seq<Op>)
    requires cfg.Valid() && Shaped(cfg, tab)
  {
    forall n :: 0 <= n < |ops| && ops[n].Add? ==> !Present(Apply(cfg, tab, ops[..n]), ops[n].rnti)
  }

  // RNTIs stay distinct and copied alike over any run of additions of new RNTIs
  // and removals, a removal of RNTI 0 or of an unknown one included.
  lemma {:induction false} RunKeepsConsistent(cfg: Config, tab: seq<Ue>, ops: seq<Op>)
    requires cfg.Valid() && Shaped(cfg, tab) && Consistent(tab) && AddsAreNew(cfg, tab, ops)
    ensures Consistent(Apply(cfg, tab, ops))
  {
    if ops != [] {
      var init := ops[..|ops|-1];
      forall n | 0 <= n < |init| && init[n].Add?
        ensures !Present(Apply(cfg, tab, init[..n]), init[n].rnti)
      {
        assert init[..n] == ops[..n];
      }
      RunKeepsConsistent(cfg, tab, init);
      if ops[|ops|-1].Add? {
        AddKeepsDistinct(Apply(cfg, tab, init), ops[|ops|-1].rnti);
      }
    }
  }
}
