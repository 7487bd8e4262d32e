// What the eNodeB keeps for each UE slot: the downlink HARQ state, the uplink
// HARQ state and their statistics.
module UeState {

  // frame_type with tdd_config.
  datatype Duplex = FDD | TDD(config: nat)

  // The limits the eNodeB is configured with. Statistics rows have 8 rounds, so
  // no limit may exceed 8.
  datatype Config = Config(
    duplex: Duplex,
    macEnabled: bool,
    mlimit: nat,          // rounds a block may take
    maxMsg3Tx: nat,       // maxHARQ_Msg3Tx
    mdlharq: nat,         // downlink HARQ processes; also the "none" process id
    errorThreshold: nat,
    raWindowSize: nat,
    bundling: bool)       // tdd_AckNackFeedbackMode
  {
    predicate Valid() {
      1 <= mlimit <= 8 && maxMsg3Tx <= 8 && mdlharq <= 8
    }
  }

  datatype Status = Idle | Active

  datatype DlProc = DlProc(status: Status, round: nat, tbs: nat)

  datatype Dl = Dl(
    harqIds: seq<nat>,        // process per subframe
    subframeTx: seq<bool>,
    procs: seq<DlProc>,
    ack: seq<seq<nat>>,       // dlsch_ACK[pid][round]
    nak: seq<seq<nat>>,
    l2Errors: seq<nat>,
    nakRound0: nat,
    slidingCnt: nat,
    mcsOffset: int,
    totalTbs: nat)
  {
    // Shapes of the C arrays, and every round within its limit.
    predicate Valid(cfg: Config) {
      && |harqIds| == 10 && |subframeTx| == 10 && |procs| == 8
      && Table8(ack) && Table8(nak) && |l2Errors| == 8
      && forall p :: 0 <= p < 8 ==> procs[p].round < cfg.mlimit
    }
  }

  predicate Table8(t: seq<seq<nat>>) {
    |t| == 8 && forall p :: 0 <= p < 8 ==> |t[p]| == 8
  }

  function Zeros(n: nat): (r: seq<nat>)
    ensures |r| == n && forall i :: 0 <= i < n ==> r[i] == 0
  {
    seq(n, _ => 0)
  }

  function Zeros8x8(): (t: seq<seq<nat>>)
    ensures Table8(t) && forall p, r :: 0 <= p < 8 && 0 <= r < 8 ==> t[p][r] == 0
  {
    seq(8, _ => Zeros(8))
  }

  // Every process's counters of rounds below m set to 0.
  function ZeroRounds(t: seq<seq<nat>>, m: nat): (u: seq<seq<nat>>)
    requires Table8(t)
    ensures Table8(u)
    ensures forall p, r :: 0 <= p < 8 && 0 <= r < 8 ==> u[p][r] == if r < m then 0 else t[p][r]
  {
    seq(8, p requires 0 <= p < 8 => seq(8, r requires 0 <= r < 8 => if r < m then 0 else t[p][r]))
  }

  // t[p][r]++
  function Bump(t: seq<seq<nat>>, p: nat, r: nat): (u: seq<seq<nat>>)
    requires Table8(t) && p < 8 && r < 8
    ensures Table8(u)
    ensures forall q, x :: 0 <= q < 8 && 0 <= x < 8 ==>
              u[q][x] == t[q][x] + if q == p && x == r then 1 else 0
  {
    t[p := t[p][r := t[p][r] + 1]]
  }

  datatype Mode = NotSynched | Prach | RaResponse | Pusch | Resynch

  datatype UlProc = UlProc(round: nat, scheduled: bool, phichActive: bool, phichAck: bool)

  datatype Ul = Ul(
    procs: seq<UlProc>,
    msg3Active: bool,
    msg3Flag: bool,
    msg3Frame: nat,
    msg3Subframe: nat,
    attempts: seq<seq<nat>>,      // ulsch_decoding_attempts[pid][round]
    roundErrors: seq<seq<nat>>,   // ulsch_round_errors[pid][round]
    errors: seq<nat>,             // ulsch_errors[pid]
    consecutive: nat)             // ulsch_consecutive_errors
  {
    predicate Shaped() {
      |procs| == 8 && Table8(attempts) && Table8(roundErrors) && |errors| == 8
    }
  }

  // One slot of the UE table: the three copies of its RNTI, its mode and state.
  datatype Ue = Ue(crnti: nat, dlRnti: nat, ulRnti: nat, mode: Mode, dl: Dl, ul: Ul)

  // clean_eNb_dlsch with the downlink part of the statistics zeroed.
  function CleanDl(cfg: Config, dl: Dl): (r: Dl)
    requires cfg.Valid()
    requires dl.Valid(cfg)
    ensures r.Valid(cfg)
  {
    Dl(seq(10, _ => cfg.mdlharq),
       dl.subframeTx,
       seq(8, p requires 0 <= p < 8 =>
         if p < cfg.mdlharq then DlProc(Idle, 0, dl.procs[p].tbs) else dl.procs[p]),
       Zeros8x8(), Zeros8x8(), Zeros(8), 0, 0, 0, 0)
  }

  // clean_eNb_ulsch with the uplink part of the statistics zeroed. PHICH
  // activity and the Msg3 fields stay.
  function CleanUl(ul: Ul): (r: Ul)
    requires ul.Shaped()
    ensures r.Shaped()
  {
    Ul(seq(8, p requires 0 <= p < 8 => UlProc(0, false, ul.procs[p].phichActive, false)),
       ul.msg3Active, ul.msg3Flag, ul.msg3Frame, ul.msg3Subframe,
       Zeros8x8(), Zeros8x8(), Zeros(8), 0)
  }

  // What mac_phy_remove_ue leaves in the slot it frees.
  function Cleaned(cfg: Config, u: Ue): Ue
    requires cfg.Valid() && u.dl.Valid(cfg) && u.ul.Shaped()
  {
    Ue(0, 0, 0, NotSynched, CleanDl(cfg, u.dl), CleanUl(u.ul))
  }

  ghost predicate Shaped(cfg: Config, tab: seq<Ue>) {
    forall i :: 0 <= i < |tab| ==> tab[i].dl.Valid(cfg) && tab[i].ul.Shaped()
  }
}
