// Uplink failure detection: the receiver counts blocks given up in a row, the
// transmitter tests the count for equality with the limit.
module UlFailure {
  import opened Arithmetic
  import opened Msg3Timing
  import opened UeState
  import UlReception

  const LIMIT := 20

  // What one subframe's reception does to ulsch_consecutive_errors of a UE.
  datatype Rx = Nothing | Success | GivenUp

  function AfterRx(count: nat, rx: Rx): nat {
    match rx
    case Nothing => count
    case Success => 0
    case GivenUp => count + 1
  }

  // Outside random access a reception counts as Success, as GivenUp when it
  // fails at the last round, and otherwise as Nothing.
  lemma ReceptionCounts(cfg: Config, u: Ue, pid: nat, frame: nat, sf: nat, rx: UlReception.Reception)
    requires UlReception.Ready(cfg, u, pid) && sf < 10 && !u.ul.msg3Flag
    ensures
      var last := u.ul.procs[pid].round + 1 == cfg.mlimit;
      UlReception.ReceiveAlone(cfg, u, pid, frame, sf, rx).ul.consecutive ==
      AfterRx(u.ul.consecutive, if rx.decoded then Success else if last then GivenUp else Nothing)
  {
    UlReception.HeardNormally(cfg, u, pid, frame, sf, rx);
  }

  // phy_procedures_eNB_TX: test, indicate, reset.
  function AfterTx(count: nat): (r: (nat, bool)) {
    if count == LIMIT then (0, true) else (count, false)
  }

  // Reception and then transmission, subframe by subframe.
  function Count(rxs: seq<Rx>): nat {
    if rxs == [] then 0 else AfterTx(AfterRx(Count(rxs[..|rxs|-1]), rxs[|rxs|-1])).0
  }

  predicate Indicates(rxs: seq<Rx>)
    requires rxs != []
  {
    AfterTx(AfterRx(Count(rxs[..|rxs|-1]), rxs[|rxs|-1])).1
  }

  // Blocks given up since the last success, indications not regarded.
  function Streak(rxs: seq<Rx>): nat {
    if rxs == [] then 0
    else match rxs[|rxs|-1]
      case Nothing => Streak(rxs[..|rxs|-1])
      case Success => 0
      case GivenUp => Streak(rxs[..|rxs|-1]) + 1
  }

  // The count is the streak modulo the limit, and UL failure is indicated exactly
  // at every 20th block given up in a row: the equality test is never jumped over.
  lemma {:induction false} IndicatedEveryTwentieth(rxs: seq<Rx>)
    ensures Count(rxs) == Streak(rxs) % 20
    ensures rxs != [] ==>
              (Indicates(rxs) <==> rxs[|rxs|-1] == GivenUp && Streak(rxs) % 20 == 0)
  {
    if rxs != [] {
      IndicatedEveryTwentieth(rxs[..|rxs|-1]);
    }
  }

  // So between an indication and the next, 20 more blocks were given up with no
  // success in between.
  lemma {:induction false} TwentyBetween(rxs: seq<Rx>, n: nat)
    requires n < |rxs| && rxs[..n] != [] && Indicates(rxs[..n]) && Indicates(rxs)
    requires forall i :: n <= i < |rxs| ==> rxs[i] != Success
    ensures Streak(rxs) >= Streak(rxs[..n]) + 20
  {
    IndicatedEveryTwentieth(rxs[..n]);
    IndicatedEveryTwentieth(rxs);
    StreakGrows(rxs, n);
  }

  lemma {:induction false} StreakGrows(rxs: seq<Rx>, n: nat)
    requires n <= |rxs| && forall i :: n <= i < |rxs| ==> rxs[i] != Success
    ensures Streak(rxs) >= Streak(rxs[..n])
    ensures n < |rxs| && rxs[|rxs|-1] == GivenUp ==> Streak(rxs) > Streak(rxs[..n])
  {
    if n < |rxs| {
      assert rxs[..|rxs|-1][..n] == rxs[..n];
      StreakGrows(rxs[..|rxs|-1], n);
    } else {
      assert rxs[..n] == rxs;
    }
  }

  // ----- Steps in any order -----

  datatype Step = Receive(rx: Rx) | Transmit

  function CountOf(count: nat, steps: seq<Step>): nat {
    if steps == [] then count
    else
      var before := CountOf(count, steps[..|steps|-1]);
      match steps[|steps|-1]
      case Receive(rx) => AfterRx(before, rx)
      case Transmit => AfterTx(before).0
  }

  // A count past the limit is never brought back by the test, only by a success.
  lemma {:induction false} PastTheLimitForGood(count: nat, steps: seq<Step>)
    requires count > LIMIT && Receive(Success) !in steps
    ensures CountOf(count, steps) >= count
  {
    if steps != [] {
      PastTheLimitForGood(count, steps[..|steps|-1]);
      assert steps[|steps|-1] != Receive(Success);
    }
  }

  // From count 0 the limit is not passed at any time.
  ghost predicate NeverPast(steps: seq<Step>) {
    forall k :: 0 <= k <= |steps| ==> CountOf(0, steps[..k]) <= LIMIT
  }

  // The i-th step gives up the block that brings the count to the limit.
  predicate Reaches(steps: seq<Step>, i: nat)
    requires i < |steps|
  {
    steps[i] == Receive(GivenUp) && CountOf(0, steps[..i + 1]) == LIMIT
  }

  // A test or a success lies strictly between two steps.
  predicate Cleared(steps: seq<Step>, i: nat, j: nat)
    requires j <= |steps|
  {
    exists k :: i < k < j && (steps[k] == Transmit || steps[k] == Receive(Success))
  }

  // The limit is never passed exactly if between the block that brings the count
  // to the limit and the next one given up there always is a test or a success.
  lemma NeverPastIff(steps: seq<Step>)
    ensures NeverPast(steps) <==>
            forall i, j :: 0 <= i < j < |steps| && Reaches(steps, i) && steps[j] == Receive(GivenUp) ==> Cleared(steps, i, j)
  {
    if i, j :| 0 <= i < j < |steps| && Reaches(steps, i) && steps[j] == Receive(GivenUp) && !Cleared(steps, i, j) {
      StaysAtLeast(steps, i, j);
      CountStep(steps, j);
      assert CountOf(0, steps[..j + 1]) > LIMIT;
    }
    if k :| 0 <= k <= |steps| && CountOf(0, steps[..k]) > LIMIT {
      var i, j := Passing(steps, k);
    }
  }

  lemma CountStep(steps: seq<Step>, k: nat)
    requires k < |steps|
    ensures
      var before := CountOf(0, steps[..k]);
      CountOf(0, steps[..k + 1]) == match steps[k] case Receive(rx) => AfterRx(before, rx) case Transmit => AfterTx(before).0
  {
    assert steps[..k + 1][..k] == steps[..k];
  }

  // Without a test or a success the count does not fall.
  lemma {:induction false} StaysAtLeast(steps: seq<Step>, i: nat, j: nat)
    requires i < j <= |steps| && Reaches(steps, i) && !Cleared(steps, i, j)
    ensures CountOf(0, steps[..j]) >= LIMIT
  {
    if i + 1 < j {
      assert forall k :: i < k < j - 1 ==> !(steps[k] == Transmit || steps[k] == Receive(Success));
      StaysAtLeast(steps, i, j - 1);
      CountStep(steps, j - 1);
      assert !(steps[j - 1] == Transmit || steps[j - 1] == Receive(Success));
    }
  }

  // The steps that take a count past the limit.
  lemma {:induction false} Passing(steps: seq<Step>, k: nat) returns (i: nat, j: nat)
    requires k <= |steps| && CountOf(0, steps[..k]) > LIMIT
    ensures i < j < k && Reaches(steps, i) && steps[j] == Receive(GivenUp) && !Cleared(steps, i, j)
  {
    if k > 0 {
      CountStep(steps, k - 1);
      if CountOf(0, steps[..k - 1]) > LIMIT {
        i, j := Passing(steps, k - 1);
      } else {
        j := k - 1;
        i := Origin(steps, j);
      }
    }
  }

  lemma {:induction false} Origin(steps: seq<Step>, j: nat) returns (i: nat)
    requires j <= |steps| && CountOf(0, steps[..j]) == LIMIT
    ensures i < j && Reaches(steps, i) && !Cleared(steps, i, j)
  {
    assert steps[..0] == [];
    CountStep(steps, j - 1);
    if steps[j - 1] == Receive(Nothing) {
      i := Origin(steps, j - 1);
    } else {
      i := j - 1;
    }
  }

  // ----- Steps of the eNodeB, subframe by subframe -----

  // The steps of one subframe: the receiver runs, then the transmitter.
  function StepsOf(receives: bool, tests: bool, rx: Rx): seq<Step> {
    (if receives then [Receive(rx)] else []) + (if tests then [Transmit] else [])
  }

  // All steps before time n, rx(t) being what a reception at time t does.
  function StepsBefore(receives: nat -> bool, tests: nat -> bool, rx: nat -> Rx, n: nat): seq<Step> {
    if n == 0 then []
    else StepsBefore(receives, tests, rx, n - 1) + StepsOf(receives(n - 1), tests(n - 1), rx(n - 1))
  }

  predicate Supported(d: Duplex) {
    d.FDD? || d.config == 1 || d.config == 3
  }

  // At time n the receiver runs if the subframe is an uplink one, and then the
  // transmitter, for time n+4, if that is a downlink one.
  function Receives(d: Duplex): nat -> bool
    requires Supported(d)
  {
    (n: nat) => CanSend(d, n)
  }

  function Tests(d: Duplex): nat -> bool
    requires Supported(d)
  {
    (n: nat) => CanReceive(d, (n + 4) % 10)
  }

  function ENodeBSteps(d: Duplex, rx: nat -> Rx, n: nat): seq<Step>
    requires Supported(d)
  {
    StepsBefore(Receives(d), Tests(d), rx, n)
  }

  lemma {:induction false} CountOfAppend(count: nat, a: seq<Step>, b: seq<Step>)
    ensures CountOf(count, a + b) == CountOf(CountOf(count, a), b)
  {
    if b == [] {
      assert a + b == a;
    } else {
      assert (a + b)[..|a + b|-1] == a + b[..|b|-1];
      CountOfAppend(count, a, b[..|b|-1]);
    }
  }

  // What one subframe does to the count.
  function AfterSubframe(receives: bool, tests: bool, rx: Rx, count: nat): nat {
    var c := if receives then AfterRx(count, rx) else count;
    if tests then AfterTx(c).0 else c
  }

  lemma SubframeCount(receives: bool, tests: bool, rx: Rx, count: nat)
    ensures CountOf(count, StepsOf(receives, tests, rx)) == AfterSubframe(receives, tests, rx, count)
  {
    var one, test := [Receive(rx)], [Transmit];
    assert one[..0] == [] && test[..0] == [];
    CountOfAppend(count, one, test);
    assert [] + test == test && one + [] == one;
  }

  // Where every reception is followed by a test the count is, in every run, below
  // the limit after each subframe and never passes it.
  lemma {:induction false} TestedAlways(receives: nat -> bool, tests: nat -> bool, rx: nat -> Rx, n: nat)
    requires forall k: nat :: receives(k) ==> tests(k)
    ensures
      var steps := StepsBefore(receives, tests, rx, n);
      NeverPast(steps) && CountOf(0, steps) < LIMIT
  {
    if n > 0 {
      TestedAlways(receives, tests, rx, n - 1);
      NotPastNext(receives(n - 1), tests(n - 1), rx(n - 1), StepsBefore(receives, tests, rx, n - 1));
    }
  }

  lemma NotPastNext(receives: bool, tests: bool, rx: Rx, before: seq<Step>)
    requires (receives ==> tests) && NeverPast(before) && CountOf(0, before) < LIMIT
    ensures
      var steps := before + StepsOf(receives, tests, rx);
      NeverPast(steps) && CountOf(0, steps) < LIMIT
  {
    ShortSteps(StepsOf(receives, tests, rx), rx, CountOf(0, before));
    CountOfAppend(0, before, StepsOf(receives, tests, rx));
    NeverPastAppend(before, StepsOf(receives, tests, rx));
  }

  lemma ShortSteps(steps: seq<Step>, rx: Rx, count: nat)
    requires steps == [Receive(rx), Transmit] || steps == [Transmit] || steps == []
    requires count < LIMIT
    ensures CountOf(count, steps) < LIMIT
    ensures forall k :: 0 <= k <= |steps| ==> CountOf(count, steps[..k]) <= LIMIT
  {
    assert steps[..0] == [] && steps[..|steps|] == steps;
    if |steps| == 2 {
      var one := [Receive(rx)];
      assert one[..0] == [] && steps[..1] == one;
      assert CountOf(count, one) == AfterRx(count, rx);
    }
  }

  lemma NeverPastAppend(a: seq<Step>, b: seq<Step>)
    requires NeverPast(a)
    requires forall k :: 0 <= k <= |b| ==> CountOf(CountOf(0, a), b[..k]) <= LIMIT
    ensures NeverPast(a + b)
  {
    forall k | 0 <= k <= |a + b|
      ensures CountOf(0, (a + b)[..k]) <= LIMIT
    {
      if k <= |a| {
        assert (a + b)[..k] == a[..k];
      } else {
        assert (a + b)[..k] == a + b[..k - |a|];
        CountOfAppend(0, a, b[..k - |a|]);
      }
    }
  }

  // That is so in FDD and in TDD configuration 3: in every run of the eNodeB the
  // count stays within the limit.
  lemma TestedInTime(d: Duplex, rx: nat -> Rx, n: nat)
    requires d == FDD || d == TDD(3)
    ensures NeverPast(ENodeBSteps(d, rx, n)) && CountOf(0, ENodeBSteps(d, rx, n)) < LIMIT
  {
    forall k: nat
      ensures Receives(d)(k) ==> Tests(d)(k)
    {
      TestFollows(d, k);
    }
    TestedAlways(Receives(d), Tests(d), rx, n);
  }

  lemma TestFollows(d: Duplex, n: nat)
    requires d == FDD || d == TDD(3)
    ensures CanSend(d, n) ==> CanReceive(d, (n + 4) % 10)
  {
  }

  // Round by round, a process that never decodes: its k-th reception gives the
  // block up when k is mlimit-1 modulo mlimit.
  function NeverDecodes(mlimit: nat, k: nat): Rx
    requires mlimit > 0
  {
    if k % mlimit + 1 == mlimit then GivenUp else Nothing
  }

  lemma NextRound(cfg: Config, u: Ue, pid: nat, frame: nat, sf: nat, rx: UlReception.Reception)
    requires UlReception.Ready(cfg, u, pid) && sf < 10 && !u.ul.msg3Flag && u.ul.procs[pid].round < cfg.mlimit && !rx.decoded
    ensures UlReception.ReceiveAlone(cfg, u, pid, frame, sf, rx).ul.procs[pid].round == (u.ul.procs[pid].round + 1) % cfg.mlimit
  {
    UlReception.HeardNormally(cfg, u, pid, frame, sf, rx);
  }

  // In configuration 1 subframes 2 and 3 are received with no test between. A UE
  // with 4 rounds a block that is never decoded: granted subframe 7 from frame 0
  // on, and subframes 2 and 3 from frame 1 on.
  function ThreeProcesses(n: nat): Rx {
    if n % 10 == 7 then NeverDecodes(4, n / 10)
    else if (n % 10 == 2 || n % 10 == 3) && n >= 10 then NeverDecodes(4, n / 10 - 1)
    else Nothing
  }

  // The same by groups of four frames: subframe r of group q.
  function InGroup(q: nat, r: nat): Rx {
    if r == 37 || (q > 0 && (r == 2 || r == 3)) then GivenUp else Nothing
  }

  lemma ThreeProcessesInGroup(q: nat, r: nat)
    requires r < 40
    ensures ThreeProcesses(40 * q + r) == InGroup(q, r)
  {
    var f, s := r / 10, r % 10;
    RemainderIs(10, 4 * q + f, s);
    RemainderIs(4, q, f);
    if q > 0 || f > 0 {
      if f > 0 {
        RemainderIs(4, q, f - 1);
      } else {
        RemainderIs(4, q - 1, 3);
      }
    }
  }

  // The count before subframe r of group q.
  function ThreeProcessesCount(q: nat, r: nat): nat {
    var late := if r >= 38 then 1 else 0;
    if q == 0 then late else 3 * q - 2 + (if r <= 2 then 0 else if r == 3 then 1 else 2) + late
  }

  lemma GroupStep(q: nat, r: nat)
    requires r < 40
    ensures AfterSubframe(CanSend(TDD(1), r), CanReceive(TDD(1), (r + 4) % 10), InGroup(q, r), ThreeProcessesCount(q, r)) ==
            if r < 39 then ThreeProcessesCount(q, r + 1) else ThreeProcessesCount(q + 1, 0)
  {
  }

  lemma NextInGroup(n: nat)
    ensures n == 40 * (n / 40) + n % 40
    ensures if n % 40 < 39 then (n + 1) / 40 == n / 40 && (n + 1) % 40 == n % 40 + 1
            else (n + 1) / 40 == n / 40 + 1 && (n + 1) % 40 == 0
  {
    var q, r := n / 40, n % 40;
    if r < 39 {
      RemainderIs(40, q, r + 1);
    } else {
      RemainderIs(40, q + 1, 0);
    }
  }

  // Directions repeat every 10 subframes.
  lemma SameDirections(d: Duplex, q: nat, r: nat)
    requires Supported(d)
    ensures CanSend(d, 40 * q + r) == CanSend(d, r)
    ensures CanReceive(d, (40 * q + r + 4) % 10) == CanReceive(d, (r + 4) % 10)
  {
    SameRemainder(10, 4 * q, r);
    SameRemainder(10, 4 * q, r + 4);
  }

  lemma CountStepAt(n: nat)
    ensures AfterSubframe(CanSend(TDD(1), n), CanReceive(TDD(1), (n + 4) % 10), ThreeProcesses(n),
                          ThreeProcessesCount(n / 40, n % 40)) ==
            ThreeProcessesCount((n + 1) / 40, (n + 1) % 40)
  {
    var q, r := n / 40, n % 40;
    NextInGroup(n);
    ThreeProcessesInGroup(q, r);
    SameDirections(TDD(1), q, r);
    GroupStep(q, r);
  }

  ghost predicate CountsOn(receives: nat -> bool, tests: nat -> bool, rx: nat -> Rx, f: nat -> nat, k: nat) {
    f(k + 1) == AfterSubframe(receives(k), tests(k), rx(k), f(k))
  }

  // The count at any time, from what each subframe does to it.
  lemma {:induction false} CountsAre(receives: nat -> bool, tests: nat -> bool, rx: nat -> Rx, f: nat -> nat, n: nat)
    requires f(0) == 0 && forall k: nat :: CountsOn(receives, tests, rx, f, k)
    ensures CountOf(0, StepsBefore(receives, tests, rx, n)) == f(n)
  {
    if n > 0 {
      CountsAre(receives, tests, rx, f, n - 1);
      var before, steps := StepsBefore(receives, tests, rx, n - 1), StepsOf(receives(n - 1), tests(n - 1), rx(n - 1));
      CountOfAppend(0, before, steps);
      SubframeCount(receives(n - 1), tests(n - 1), rx(n - 1), CountOf(0, before));
      assert CountsOn(receives, tests, rx, f, n - 1);
    }
  }

  lemma ThreeProcessesCounts(n: nat)
    ensures CountOf(0, ENodeBSteps(TDD(1), ThreeProcesses, n)) == ThreeProcessesCount(n / 40, n % 40)
  {
    var f := (k: nat) => ThreeProcessesCount(k / 40, k % 40);
    forall k: nat
      ensures CountsOn(Receives(TDD(1)), Tests(TDD(1)), ThreeProcesses, f, k)
    {
      CountStepAt(k);
    }
    CountsAre(Receives(TDD(1)), Tests(TDD(1)), ThreeProcesses, f, n);
  }

  lemma LateCounts(n: nat)
    requires n >= 284
    ensures ThreeProcessesCount(n / 40, n % 40) > LIMIT
  {
    NextInGroup(n);
    assert n / 40 >= 8 || (n / 40 == 7 && n % 40 >= 4);
  }

  // So from count 0 the limit is passed, by frame 28, and for good.
  lemma SkippedInConfig1(n: nat)
    requires n >= 284
    ensures CountOf(0, ENodeBSteps(TDD(1), ThreeProcesses, n)) > LIMIT
    ensures !NeverPast(ENodeBSteps(TDD(1), ThreeProcesses, n))
  {
    ThreeProcessesCounts(n);
    LateCounts(n);
    var steps := ENodeBSteps(TDD(1), ThreeProcesses, n);
    assert steps[..|steps|] == steps;
  }

  // Two blocks given up between two tests can jump over the limit, after which
  // the test never fires again before a success.
  lemma SkippedByTwoReceptions(more: seq<Step>)
    requires Receive(Success) !in more
    ensures CountOf(LIMIT - 1, [Receive(GivenUp), Receive(GivenUp)] + more) > LIMIT
  {
    var two := [Receive(GivenUp), Receive(GivenUp)];
    assert CountOf(LIMIT - 1, two) == LIMIT + 1 by {
      assert two[..1] == [Receive(GivenUp)];
      assert CountOf(LIMIT - 1, two[..1]) == LIMIT;
    }
    CountOfAppend(LIMIT - 1, two, more);
    PastTheLimitForGood(LIMIT + 1, more);
  }
}
