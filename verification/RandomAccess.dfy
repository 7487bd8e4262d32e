// Random access in FDD: Msg3 is expected at one time, retransmitted 8 subframes
// later at most maxHARQ_Msg3Tx times in all, and then given up.
module RandomAccess {
  import opened Arithmetic
  import opened UeState
  import opened Msg3Timing
  import opened UlReception

  predicate Msg3Due(ul: Ul, frame: nat, sf: nat) {
    ul.msg3Active && ul.msg3Subframe == sf && ul.msg3Frame == frame
  }

  // process_Msg3
  function ProcessMsg3(ul: Ul, pid: nat, frame: nat, sf: nat): (r: Ul)
    requires ul.Shaped() && pid < 8
    ensures r.Shaped()
  {
    if Msg3Due(ul, frame, sf) then
      ul.(msg3Active := false, msg3Flag := true, procs := ul.procs[pid := ul.procs[pid].(scheduled := true)])
    else
      ul.(msg3Flag := false)
  }

  // What happens around one subframe: a grant for the process whose turn it is,
  // and the decoding result.
  datatype Subframe = Subframe(granted: bool, rx: Reception)

  function FrameOf(t: nat): nat { t / 10 % 1024 }

  // subframe2harq_pid at time t, by PidOfIsHarqPid.
  function PidOf(t: nat): (p: nat)
    ensures p < 8
  {
    t % 8
  }

  lemma PidOfIsHarqPid(t: nat)
    ensures PidOf(t) == HarqPid(FrameOf(t), t % 10)
  {
    HarqPidOfTime(t);
  }

  // get_Msg3_harq_pid in FDD
  function Msg3HarqPid(frame: nat, currentSf: nat): (p: nat)
    ensures p < 8
  {
    var ulSubframe := if currentSf > 3 then currentSf - 4 else currentSf + 6;
    var ulFrame := if currentSf > 3 then (frame + 1) % 1024 else frame;
    HarqPid(ulFrame, ulSubframe)
  }

  // The grant sent at time t makes the eNodeB expect Msg3 at time t+6, wrap
  // included, and sets up the process of that time.
  lemma GrantExpectsMsg3(t: nat)
    ensures InitialAlloc(t % 10, FrameOf(t)) == (FrameOf(t + 6), (t + 6) % 10)
    ensures Msg3HarqPid(FrameOf(t), t % 10) == PidOf(t + 6)
  {
    var f, s := t / 10, t % 10;
    if s > 3 {
      RemainderIs(10, f + 1, s - 4);
      SameRemainder(1024, f / 1024, f % 1024 + 1);
      PidOfWrapped(f + 1, s - 4);
    } else {
      RemainderIs(10, f, s + 6);
      PidOfWrapped(f, s + 6);
    }
  }

  // The UE when the subframe's decoding starts.
  function Prepared(cfg: Config, u: Ue, t: nat, e: Subframe): (r: Ue)
    requires Ready(cfg, u, PidOf(t))
    ensures Ready(cfg, r, PidOf(t))
  {
    PidOfIsHarqPid(t);
    var pid := HarqPid(FrameOf(t), t % 10);
    var p := u.ul.procs[pid];
    var ul := u.ul.(procs := u.ul.procs[pid := p.(scheduled := p.scheduled || e.granted)]);
    u.(ul := if cfg.macEnabled && u.mode == RaResponse then ProcessMsg3(ul, pid, FrameOf(t), t % 10) else ul)
  }

  // The uplink processing of one UE in the subframe at time t.
  function Process(cfg: Config, u: Ue, t: nat, e: Subframe): (r: Ue)
    requires Ready(cfg, u, PidOf(t))
    ensures r.dl.Valid(cfg) && r.ul.Shaped()
  {
    PidOfIsHarqPid(t);
    var v, pid := Prepared(cfg, u, t, e), HarqPid(FrameOf(t), t % 10);
    if v.ulRnti > 0 && v.ul.procs[pid].scheduled then ReceiveAlone(cfg, v, pid, FrameOf(t), t % 10, e.rx)
    else v
  }

  // u with Msg3_flag cleared in random access and the process of time t scheduled or not.
  function Plain(cfg: Config, u: Ue, t: nat, active: bool): Ue
    requires u.ul.Shaped()
  {
    var p := u.ul.procs[t % 8];
    u.(ul := u.ul.(msg3Flag := u.ul.msg3Flag && !(cfg.macEnabled && u.mode == RaResponse),
                   procs := u.ul.procs[t % 8 := p.(scheduled := active)]))
  }

  // Msg3 is due at time t.
  predicate DueIn(cfg: Config, u: Ue, t: nat) {
    && cfg.macEnabled && u.mode == RaResponse
    && u.ul.msg3Active && u.ul.msg3Frame == t / 10 % 1024 && u.ul.msg3Subframe == t % 10
  }

  lemma PreparedMeans(cfg: Config, u: Ue, t: nat, e: Subframe)
    requires Ready(cfg, u, PidOf(t)) && !DueIn(cfg, u, t)
    ensures Prepared(cfg, u, t, e) == Plain(cfg, u, t, u.ul.procs[t % 8].scheduled || e.granted)
  {
    PidOfIsHarqPid(t);
  }

  // In figures: nothing is received unless the process of the time is scheduled, by
  // a grant or as a due Msg3, and a scheduled one that is not Msg3 is received as
  // outside random access.
  lemma ProcessMeans(cfg: Config, u: Ue, t: nat, e: Subframe)
    requires Ready(cfg, u, PidOf(t)) && !DueIn(cfg, u, t)
    ensures
      var r, active := Process(cfg, u, t, e), u.ul.procs[t % 8].scheduled || e.granted;
      && (!active || u.ulRnti == 0 ==> r == Plain(cfg, u, t, active))
      && (active && u.ulRnti > 0 && !Plain(cfg, u, t, true).ul.msg3Flag ==>
            HeardAs(cfg, Plain(cfg, u, t, true), r, t % 8, e.rx.decoded))
  {
    PidOfIsHarqPid(t);
    PreparedMeans(cfg, u, t, e);
    var v := Plain(cfg, u, t, true);
    if !v.ul.msg3Flag {
      NormalOutcome(cfg, v, t % 8, FrameOf(t), t % 10, e.rx);
    }
  }

  // At time t the UE is in random access and its next Msg3 is k subframes ahead.
  ghost predicate Awaiting(cfg: Config, u: Ue, t: nat, k: nat) {
    && cfg.Valid() && cfg.duplex.FDD? && cfg.macEnabled
    && u.dl.Valid(cfg) && u.ul.Shaped()
    && u.mode == RaResponse && u.ulRnti > 0
    && k < 8 && u.ul.msg3Active && u.ul.msg3Frame == FrameOf(t + k) && u.ul.msg3Subframe == (t + k) % 10
    && Msg3Round(u, t + k) < cfg.maxMsg3Tx
    && forall p :: 0 <= p < 8 && p != PidOf(t + k) ==> u.ul.procs[p].round < cfg.mlimit
  }

  function Msg3Round(u: Ue, t: nat): nat
    requires u.ul.Shaped()
  {
    u.ul.procs[PidOf(t)].round
  }

  // What a reception outside random access leaves alone.
  lemma OtherReception(cfg: Config, u: Ue, pid: nat, frame: nat, sf: nat, rx: Reception)
    requires Ready(cfg, u, pid) && sf < 10 && !u.ul.msg3Flag && u.ul.procs[pid].round < cfg.mlimit
    ensures
      var v := ReceiveAlone(cfg, u, pid, frame, sf, rx);
      && v.mode == u.mode && v.ulRnti == u.ulRnti
      && v.ul.msg3Active == u.ul.msg3Active && v.ul.msg3Frame == u.ul.msg3Frame
      && v.ul.msg3Subframe == u.ul.msg3Subframe
      && v.ul.procs[pid].round < cfg.mlimit
      && forall p :: 0 <= p < 8 && p != pid ==> v.ul.procs[p] == u.ul.procs[p]
  {
  }

  lemma ShortShift(t: nat, k: nat)
    requires 0 < k < 8
    ensures t % 10 != (t + k) % 10 && t % 8 != (t + k) % 8
  {
  }

  lemma NotDueYet(ul: Ul, t: nat, k: nat)
    requires ul.msg3Subframe == (t + k) % 10 && 0 < k < 8
    ensures !Msg3Due(ul, FrameOf(t), t % 10)
  {
    ShortShift(t, k);
  }

  // Other processes may be used meanwhile; they do not disturb the wait.
  lemma KeepsWaiting(cfg: Config, u: Ue, t: nat, k: nat, e: Subframe)
    requires Awaiting(cfg, u, t, k) && k > 0
    ensures Ready(cfg, u, PidOf(t))
    ensures
      var v := Process(cfg, u, t, e);
      && Awaiting(cfg, v, t + 1, k - 1)
      && Msg3Round(v, t + k) == Msg3Round(u, t + k)
  {
    NotDueYet(u.ul, t, k);
    ShortShift(t, k);
    PidOfIsHarqPid(t);
    var w := Prepared(cfg, u, t, e);
    assert w.ul.procs[PidOf(t)].round == u.ul.procs[PidOf(t)].round;
    OtherReception(cfg, w, PidOf(t), FrameOf(t), t % 10, e.rx);
    assert t + 1 + (k - 1) == t + k;
  }

  // A due Msg3 takes the UE out of random access, or it was a failure with
  // transmissions left and the next one is due 8 subframes later on the same
  // process.
  lemma ReceivesMsg3(cfg: Config, u: Ue, t: nat, e: Subframe)
    requires Awaiting(cfg, u, t, 0)
    ensures
      var v := Process(cfg, u, t, e);
      if e.rx.decoded || Msg3Round(u, t) + 1 == cfg.maxMsg3Tx then v.mode != RaResponse
      else Awaiting(cfg, v, t + 1, 7) && Msg3Round(v, t + 8) == Msg3Round(u, t) + 1
  {
    PidOfIsHarqPid(t);
    var v := Process(cfg, u, t, e);
    if e.rx.decoded || Msg3Round(u, t) + 1 == cfg.maxMsg3Tx {
      assert v.mode != RaResponse;
    } else {
      RetransmissionIsEightLater(t, u.ul.msg3Frame, u.ul.msg3Subframe);
      assert t + 1 + 7 == t + 8;
      assert v.ul.procs[PidOf(t)].round == Msg3Round(u, t) + 1;
    }
  }

  // Times a multiple of 8 apart belong to one process.
  lemma SameProcess(t: nat, j: nat)
    ensures PidOf(t + 8 * j) == PidOf(t)
  {
    SameRemainder(8, j, t);
  }

  // us[i] is the UE before the subframe at time t+i, as long as it is in random access.
  ghost predicate IsRun(cfg: Config, us: seq<Ue>, t: nat, es: seq<Subframe>) {
    |us| == |es| + 1 && forall i :: 0 <= i < |es| ==> Follows(cfg, us, t, es, i)
  }

  ghost predicate Follows(cfg: Config, us: seq<Ue>, t: nat, es: seq<Subframe>, i: nat)
    requires |us| == |es| + 1 && i < |es|
  {
    us[i].mode == RaResponse && Ready(cfg, us[i], PidOf(t + i)) ==> us[i + 1] == Process(cfg, us[i], t + i, es[i])
  }

  lemma NextUe(cfg: Config, us: seq<Ue>, t: nat, es: seq<Subframe>, i: nat)
    requires IsRun(cfg, us, t, es) && i < |es| && us[i].mode == RaResponse && Ready(cfg, us[i], PidOf(t + i))
    ensures us[i + 1] == Process(cfg, us[i], t + i, es[i])
  {
    assert Follows(cfg, us, t, es, i);
  }

  predicate DueAt(us: seq<Ue>, t: nat, i: nat)
    requires i < |us|
  {
    Msg3Due(us[i].ul, FrameOf(t + i), (t + i) % 10)
  }

  lemma WaitStep(cfg: Config, us: seq<Ue>, t: nat, es: seq<Subframe>, i: nat, k: nat)
    requires IsRun(cfg, us, t, es) && i < |es| && k > 0
    requires Awaiting(cfg, us[i], t + i, k)
    ensures !DueAt(us, t, i)
    ensures Awaiting(cfg, us[i + 1], t + (i + 1), k - 1)
    ensures Msg3Round(us[i + 1], t + i + k) == Msg3Round(us[i], t + i + k)
  {
    var x := t + i;
    assert t + (i + 1) == x + 1;
    NotDueYet(us[i].ul, x, k);
    KeepsWaiting(cfg, us[i], x, k, es[i]);
    NextUe(cfg, us, t, es, i);
  }

  lemma DueStep(cfg: Config, us: seq<Ue>, t: nat, es: seq<Subframe>, i: nat)
    requires IsRun(cfg, us, t, es) && i < |es|
    requires Awaiting(cfg, us[i], t + i, 0)
    ensures DueAt(us, t, i)
    ensures us[i + 1].mode == RaResponse ==>
              !es[i].rx.decoded &&
              Awaiting(cfg, us[i + 1], t + (i + 1), 7) && Msg3Round(us[i + 1], t + i + 8) == Msg3Round(us[i], t + i) + 1
  {
    ReceivesMsg3(cfg, us[i], t + i, es[i]);
    NextUe(cfg, us, t, es, i);
    assert t + (i + 1) == t + i + 1;
  }

  // From index i on, the UE is in random access up to index i+k+8n and no
  // longer, Msg3 is due at exactly i+k, i+k+8, ..., i+k+8n, and all of these but
  // the last fail.
  ghost predicate EndsAfter(us: seq<Ue>, t: nat, es: seq<Subframe>, i: nat, k: nat, n: nat) {
    && |us| == |es| + 1 && i + k + 8 * n < |es|
    && us[i + k + 8 * n + 1].mode != RaResponse
    && forall x :: i <= x <= i + k + 8 * n ==>
         && us[x].mode == RaResponse
         && (DueAt(us, t, x) <==> x >= i + k && (x - i - k) % 8 == 0)
         && (DueAt(us, t, x) && x < i + k + 8 * n ==> !es[x].rx.decoded)
  }

  lemma OneMoreWait(us: seq<Ue>, t: nat, es: seq<Subframe>, i: nat, k: nat, n: nat)
    requires k > 0 && EndsAfter(us, t, es, i + 1, k - 1, n) && us[i].mode == RaResponse && !DueAt(us, t, i)
    ensures EndsAfter(us, t, es, i, k, n)
  {
  }

  lemma OneMoreMsg3(us: seq<Ue>, t: nat, es: seq<Subframe>, i: nat, n: nat)
    requires EndsAfter(us, t, es, i + 1, 7, n) && us[i].mode == RaResponse && DueAt(us, t, i) && !es[i].rx.decoded
    ensures EndsAfter(us, t, es, i, 0, n + 1)
  {
  }

  // However decoding goes and whatever else is granted: the UE leaves random
  // access right after its (n+1)-th reception of Msg3, where n+1 is at most the
  // number of transmissions it had left. By SameProcess all of them belong to
  // one process.
  lemma {:induction false} RandomAccessEnds(cfg: Config, us: seq<Ue>, t: nat, es: seq<Subframe>, i: nat, k: nat) returns (n: nat)
    requires IsRun(cfg, us, t, es) && i < |es|
    requires Awaiting(cfg, us[i], t + i, k)
    requires i + k + 8 * (cfg.maxMsg3Tx - 1 - Msg3Round(us[i], t + i + k)) < |es|
    ensures n < cfg.maxMsg3Tx - Msg3Round(us[i], t + i + k)
    ensures EndsAfter(us, t, es, i, k, n)
    decreases |es| - i
  {
    if k > 0 {
      WaitStep(cfg, us, t, es, i, k);
      n := RandomAccessEnds(cfg, us, t, es, i + 1, k - 1);
      OneMoreWait(us, t, es, i, k, n);
    } else {
      DueStep(cfg, us, t, es, i);
      if us[i + 1].mode == RaResponse {
        var rest := RandomAccessEnds(cfg, us, t, es, i + 1, 7);
        n := rest + 1;
        OneMoreMsg3(us, t, es, i, rest);
      } else {
        n := 0;
      }
    }
  }

  // The limit must be reached exactly: a failed Msg3 ends random access if and
  // only if its round is one below the limit. With a limit of 0, which the
  // configuration admits, no failure ever does.
  lemma AbandonedExactlyAtLimit(cfg: Config, u: Ue, pid: nat, frame: nat, sf: nat, rx: Reception)
    requires Ready(cfg, u, pid) && sf < 10
    requires u.mode == RaResponse && u.ul.msg3Flag && !rx.decoded
    ensures ReceiveAlone(cfg, u, pid, frame, sf, rx).mode != RaResponse <==>
            u.ul.procs[pid].round + 1 == cfg.maxMsg3Tx
  {
  }
}
