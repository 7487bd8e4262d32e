// Scheduling-request opportunities (section 10.1 of TS 36.213).
module SrOpportunity {
  import opened Arithmetic

  // is_SR_subframe at the eNodeB.
  predicate IsSrSubframe(index: nat, frame: nat, subframe: nat) {
    if index <= 4 then subframe % 5 == index
    else if index <= 14 then subframe == index - 5
    else if index <= 34 then 10 * (frame % 2) + subframe == index - 15
    else if index <= 74 then 10 * (frame % 4) + subframe == index - 35
    else if index <= 154 then 10 * (frame % 8) + subframe == index - 75
    else false
  }

  // is_SR_TXOp at the UE, on its transmit frame and subframe.
  predicate IsSrTxOp(index: nat, frameTx: nat, subframeTx: nat) {
    if index <= 4 then subframeTx % 5 == index
    else if index <= 14 then subframeTx == index - 5
    else if index <= 34 then 10 * (frameTx % 2) + subframeTx == index - 15
    else if index <= 74 then 10 * (frameTx % 4) + subframeTx == index - 35
    else if index <= 154 then 10 * (frameTx % 8) + subframeTx == index - 75
    else false
  }

  function Period(index: nat): (t: nat)
    ensures t > 0 && 10240 % t == 0
  {
    if index <= 4 then 5 else if index <= 14 then 10 else if index <= 34 then 20
    else if index <= 74 then 40 else 80
  }

  function Offset(index: nat): (o: nat)
    requires index <= 154
    ensures o < Period(index)
  {
    if index <= 4 then index else if index <= 14 then index - 5 else if index <= 34 then index - 15
    else if index <= 74 then index - 35 else index - 75
  }

  // Table 10.1-5 of TS 36.213: the periods 5, 10, 20, 40 and 80, each taking as many
  // indices as it is long.
  lemma PeriodsByTable(index: nat)
    requires index <= 154
    ensures Period(index) in {5, 10, 20, 40, 80} && Offset(index) == index - (Period(index) - 5)
  {
  }

  // Higher indices have none.
  lemma NoneBeyond(index: nat, f: nat, s: nat)
    requires index > 154
    ensures !IsSrSubframe(index, f, s) && !IsSrTxOp(index, f, s)
  {
  }

  // Whole periods drop out of the time, and wrapping the frame drops only those.
  lemma TimeModulo(f: nat, s: nat)
    requires s < 10
    ensures (10 * f + s) % 5 == s % 5 && (10 * f + s) % 10 == s
    ensures (10 * f + s) % 20 == 10 * (f % 2) + s
    ensures (10 * f + s) % 40 == 10 * (f % 4) + s
    ensures (10 * f + s) % 80 == 10 * (f % 8) + s
  {
    SameRemainder(5, 2 * f, s);
    RemainderIs(10, f, s);
    RemainderIs(20, f / 2, 10 * (f % 2) + s);
    RemainderIs(40, f / 4, 10 * (f % 4) + s);
    RemainderIs(80, f / 8, 10 * (f % 8) + s);
  }

  lemma Wrapped(f: nat)
    ensures f % 1024 % 2 == f % 2 && f % 1024 % 4 == f % 4 && f % 1024 % 8 == f % 8
  {
    var k, g := f / 1024, f % 1024;
    SameRemainder(2, 512 * k, g);
    SameRemainder(4, 256 * k, g);
    SameRemainder(8, 128 * k, g);
  }

  // In frame f, counted on without end or modulo 1024, subframe s is an
  // opportunity exactly when the time is the offset modulo the period.
  lemma OpportunityIff(index: nat, f: nat, s: nat)
    requires index <= 154 && s < 10
    ensures IsSrSubframe(index, f, s) <==> (10 * f + s) % Period(index) == Offset(index)
    ensures IsSrSubframe(index, f % 1024, s) <==> IsSrSubframe(index, f, s)
    ensures IsSrTxOp(index, f, s) <==> (10 * f + s) % Period(index) == Offset(index)
    ensures IsSrTxOp(index, f % 1024, s) <==> IsSrTxOp(index, f, s)
  {
    TimeModulo(f, s);
    Wrapped(f);
  }

  predicate OpportunityAt(index: nat, t: nat) {
    IsSrSubframe(index, t / 10 % 1024, t % 10)
  }

  lemma OpportunityAtIff(index: nat, t: nat)
    requires index <= 154
    ensures OpportunityAt(index, t) <==> t % Period(index) == Offset(index)
  {
    OpportunityIff(index, t / 10, t % 10);
  }

  // Every window of one period, wherever it starts, has exactly one opportunity.
  lemma OncePerPeriod(index: nat, start: nat) returns (t: nat)
    requires index <= 154
    ensures start <= t < start + Period(index)
    ensures forall u :: start <= u < start + Period(index) ==> (OpportunityAt(index, u) <==> u == t)
  {
    var p, o := Period(index), Offset(index);
    t := NextWithRest(start, p, o);
    forall u | start <= u < start + p
      ensures OpportunityAt(index, u) <==> u == t
    {
      OpportunityAtIff(index, u);
    }
  }

  lemma NextWithRest(start: nat, p: nat, o: nat) returns (t: nat)
    requires o < p
    ensures start <= t < start + p
    ensures forall u :: start <= u < start + p ==> (u % p == o <==> u == t)
  {
    var q, r := start / p, start % p;
    assert start == p * q + r;
    t := if r <= o then start + (o - r) else start + (p + o - r);
    forall u | start <= u < start + p
      ensures u % p == o <==> u == t
    {
      RestIsNext(p, q, r, o, u - start);
    }
  }

  lemma RestIsNext(p: nat, q: nat, r: nat, o: nat, d: nat)
    requires r < p && o < p && d < p
    ensures (p * q + r + d) % p == o <==> d == if r <= o then o - r else p + o - r
  {
    RestInWindow(p, q, r, d);
  }

  lemma RestInWindow(p: nat, q: nat, r: nat, d: nat)
    requires r < p && d < p
    ensures (p * q + r + d) % p == if r + d < p then r + d else r + d - p
  {
    if r + d < p {
      RemainderIs(p, q, r + d);
    } else {
      RemainderIs(p, q + 1, r + d - p);
      assert p * (q + 1) == p * q + p;
    }
  }
}
