// The master information block: packing at the eNodeB, and the UE's search for
// the broadcast phase and recovery of the frame number.
module Mib {

  datatype Resource = OneSixth | Half | One | Two

  // Fields of the cell that the block carries.
  datatype Cell = Cell(nRb: nat, extendedPhich: bool, phichResource: Resource)

  datatype Pdu = Pdu(byte0: bv8, byte1: bv8, byte2: bv8)

  function BandwidthCode(nRb: nat): (c: bv8)
    ensures c <= 5
  {
    match nRb
    case 6 => 0
    case 15 => 1
    case 25 => 2
    case 50 => 3
    case 75 => 4
    case 100 => 5
    case _ => 2
  }

  function ResourceCode(r: Resource): (c: bv8)
    ensures c <= 3
  {
    match r
    case OneSixth => 0
    case Half => 1
    case One => 2
    case Two => 3
  }

  // What the block says, in the words of initial_sync.
  function ReadBandwidth(p: Pdu): bv8 { (p.byte2 >> 5) & 7 }

  function ReadDuration(p: Pdu): bv8 { (p.byte2 >> 4) & 1 }

  function ReadResource(p: Pdu): bv8 { (p.byte2 >> 2) & 3 }

  // The bandwidths and PHICH resources that initial_sync takes the codes for.
  const BANDWIDTHS := [6, 15, 25, 50, 75, 100]
  const RESOURCES := [OneSixth, Half, One, Two]

  // A cell of a bandwidth that the standard has.
  predicate Standard(cell: Cell) {
    cell.nRb in BANDWIDTHS
  }

  // The frame number without its two lowest bits.
  function ReadFrame(p: Pdu): bv16 {
    ((p.byte2 & 3) as bv16 << 8) + (p.byte1 & 0xfc) as bv16
  }

  // The block carries every field of cell and frame intact.
  ghost predicate Carries(p: Pdu, cell: Cell, frame: bv16) {
    && ReadBandwidth(p) as nat < 6 && BANDWIDTHS[ReadBandwidth(p)] == (if Standard(cell) then cell.nRb else 25)
    && ReadDuration(p) == (if cell.extendedPhich then 1 else 0)
    && ReadResource(p) as nat < 4 && RESOURCES[ReadResource(p)] == cell.phichResource
    && ReadFrame(p) == frame & 0x3fc
  }

  // The third byte, field by field.
  method PackByte2(code: bv8, duration: bv8, resource: bv8, frameHigh: bv8) returns (b2: bv8)
    requires code <= 7 && duration <= 1 && resource <= 3 && frameHigh <= 3
    ensures (b2 >> 5) & 7 == code
    ensures (b2 >> 4) & 1 == duration
    ensures (b2 >> 2) & 3 == resource
    ensures b2 & 3 == frameHigh
  {
    b2 := 0;
    b2 := (b2 & 0x1f) | (code << 5);
    b2 := (b2 & 0xef) | ((duration << 4) & 0x10);
    b2 := (b2 & 0xf3) | (resource << 2);
    b2 := (b2 & 0xfc) | (frameHigh & 3);
  }

  // The packing in common_signal_procedures.
  method Pack(cell: Cell, frame: bv16) returns (p: Pdu)
    requires frame < 1024
    ensures Carries(p, cell, frame)
  {
    var duration: bv8 := if cell.extendedPhich then 1 else 0;
    var b2 := PackByte2(BandwidthCode(cell.nRb), duration, ResourceCode(cell.phichResource), FrameHigh(frame));
    p := Pdu(0, FrameLow(frame), b2);
    FrameSplit(frame, b2);
  }

  function FrameHigh(frame: bv16): (b: bv8)
    ensures b <= 3
  {
    ((frame >> 8) & 3) as bv8
  }

  function FrameLow(frame: bv16): bv8 {
    (frame & 0xfc) as bv8
  }

  lemma FrameSplit(frame: bv16, b2: bv8)
    requires frame < 1024 && b2 & 3 == FrameHigh(frame)
    ensures ReadFrame(Pdu(0, FrameLow(frame), b2)) == frame & 0x3fc
  {
  }

  lemma MultipleOfFour(frame: bv16)
    requires frame < 1024 && frame & 3 == 0
    ensures frame & 0x3fc == frame && frame & 0xfc03 == 0
  {
  }

  lemma CarriesOn(p: Pdu, cell: Cell, built: bv16, frame: bv16)
    requires Carries(p, cell, built) && built == frame & 0x3fc
    ensures Carries(p, cell, frame)
  {
    assert built & 0x3fc == frame & 0x3fc;
  }

  class ENodeB {
    const cell: Cell
    var pdu: Pdu
    ghost var builtFor: bv16

    constructor (cell: Cell)
      ensures this.cell == cell
    {
      this.cell := cell;
      pdu := Pdu(0, 0, 0);
      builtFor := 0;
    }

    // The block is right for the group of four frames it was last built in.
    ghost predicate Valid()
      reads this
    {
      builtFor & 0xfc03 == 0 && Carries(pdu, cell, builtFor)
    }

    // Between the starts of groups the block is that of the frame's group.
    ghost predicate Ready(frame: bv16)
      reads this
    {
      frame & 3 != 0 ==> Valid() && builtFor == frame & 0x3fc
    }

    // The block is rebuilt when the frame number is divisible by 4, and sent on
    // as it is in between.
    method Broadcast(frame: bv16) returns (sent: Pdu)
      requires frame < 1024
      requires Ready(frame)
      modifies this
      ensures Valid() && builtFor == frame & 0x3fc && Ready(NextFrame(frame))
      ensures sent == pdu && Carries(sent, cell, frame)
    {
      if frame & 3 == 0 {
        pdu := Pack(cell, frame);
        builtFor := frame;
        MultipleOfFour(frame);
      }
      CarriesOn(pdu, cell, builtFor, frame);
      if NextFrame(frame) & 3 != 0 {
        SameGroup(frame);
      }
      sent := pdu;
    }
  }

  function NextFrame(frame: bv16): (f: bv16)
    requires frame < 1024
    ensures f < 1024
  {
    if frame == 1023 then 0 else frame + 1
  }

  function FrameAfter(frame: bv16, n: nat): (f: bv16)
    requires frame < 1024
    ensures f < 1024
  {
    if n == 0 then frame else NextFrame(FrameAfter(frame, n - 1))
  }

  lemma SameGroup(frame: bv16)
    requires frame < 1024 && NextFrame(frame) & 3 != 0
    ensures NextFrame(frame) & 0x3fc == frame & 0x3fc
  {
  }

  // Whatever multiple of 4 broadcasting starts at and however long it goes on,
  // across the wrap too, each frame's block carries that frame.
  method BroadcastRun(enb: ENodeB, start: bv16, n: nat) returns (sent: seq<Pdu>)
    requires start < 1024 && start & 3 == 0
    modifies enb
    ensures |sent| == n && forall k :: 0 <= k < n ==> Carries(sent[k], enb.cell, FrameAfter(start, k))
  {
    sent := [];
    for k := 0 to n
      invariant |sent| == k && enb.Ready(FrameAfter(start, k))
      invariant forall j :: 0 <= j < k ==> Carries(sent[j], enb.cell, FrameAfter(start, j))
    {
      var p := enb.Broadcast(FrameAfter(start, k));
      sent := sent + [p];
    }
  }

  // The frame number is the block's part and the phase it was decoded at.
  lemma FrameRecovered(p: Pdu, cell: Cell, frame: bv16)
    requires frame < 1024 && Carries(p, cell, frame)
    ensures ReadFrame(p) + (frame & 3) == frame
  {
  }

  // A frame counter with its ten lowest bits replaced.
  function Adjusted(counter: bv32, frame: bv32): bv32 {
    (counter & 0xfffffc00) | (frame & 0x3ff)
  }

  lemma LowBits(frame: bv32)
    ensures frame < 1024 ==> frame & 0x3ff == frame
  {
  }

  lemma AdjustedLow(counter: bv32, frame: bv32)
    ensures frame < 1024 ==> Adjusted(counter, frame) & 0x3ff == frame
  {
  }

  lemma AdjustedHigh(counter: bv32, frame: bv32)
    ensures High(Adjusted(counter, frame)) == High(counter)
  {
  }

  lemma AdjustedTwice(counter: bv32, frame: bv32)
    ensures Adjusted(Adjusted(counter, frame), frame) == Adjusted(counter, frame)
  {
  }

  // The UE's frame counters: of the receiving context and of the other one.
  datatype Counters = Counters(rx: bv32, tx: bv32, otherRx: bv32, otherTx: bv32)

  // The counters after a decoding that gave `frame`.
  predicate Follow(before: Counters, after: Counters, frame: bv32, first: bool) {
    var off := first || before.rx & 0x3ff != frame;
    && after.rx == (if off then Adjusted(before.rx, frame) else before.rx)
    && (off ==> after.tx == after.rx && after.otherRx == after.rx && after.otherTx == after.rx)
    && (!off ==> after == before)
  }

  // They are then at the cell's frame, modulo 1024...
  lemma FollowsTheCell(before: Counters, after: Counters, frame: bv32, first: bool)
    requires frame < 1024 && Follow(before, after, frame, first)
    ensures after.rx & 0x3ff == frame
  {
    AdjustedLow(before.rx, frame);
  }

  // ... and so are all four counters, if they were set.
  lemma AllFollow(before: Counters, after: Counters, frame: bv32, first: bool)
    requires frame < 1024 && Follow(before, after, frame, first)
    ensures first || before.rx & 0x3ff != frame ==> after == Counters(after.rx, after.rx, after.rx, after.rx)
    ensures !first && before.rx & 0x3ff == frame ==> after == before
  {
  }

  // ... with their upper bits unchanged: High is what the ten bits leave.
  function High(counter: bv32): bv32 {
    counter >> 10
  }

  lemma UpperBitsStay(before: Counters, after: Counters, frame: bv32, first: bool)
    requires Follow(before, after, frame, first)
    ensures High(after.rx) == High(before.rx)
  {
    AdjustedHigh(before.rx, frame);
  }

  class Ue {
    var counters: Counters
    var firstRun: bool
    var errors: nat
    var errorsInARow: nat

    constructor ()
      ensures firstRun
    {
      counters := Counters(0, 0, 0, 0);
      firstRun, errors, errorsInARow := true, 0, 0;
    }

    function Now(): Snapshot
      reads this
    {
      Snapshot(counters, firstRun)
    }

    // A frame begins: both receiving contexts count it.
    method Tick()
      modifies this`counters
      ensures counters == Ticked(old(counters))
    {
      counters := counters.(rx := counters.rx + 1, otherRx := counters.otherRx + 1);
    }

    // Counting a frame and then looking for the block in it.
    method ReceiveFrame(pdu: Pdu, cell: Cell, ghost frame: bv16, decode: bv8 -> int)
      requires frame < 1024 && Carries(pdu, cell, frame)
      requires forall phase :: Decoded(decode(phase)) ==> phase == TruePhase(frame)
      modifies this
      ensures UeFrame(old(Now()), Now(), frame, Tells(decode, frame))
    {
      Tick();
      Pbch(pdu, cell, frame, decode);
    }

    // ue_pbch_procedures. decode(phase) is rx_pbch: the number of transmit
    // antennas, outside 1..4 for failure; it can succeed at the true phase only.
    method Pbch(pdu: Pdu, cell: Cell, ghost frame: bv16, decode: bv8 -> int)
      requires frame < 1024 && Carries(pdu, cell, frame)
      requires forall phase :: Decoded(decode(phase)) ==> phase == TruePhase(frame)
      modifies this
      ensures
        var antennas := decode(TruePhase(frame));
        if 1 <= antennas <= 2 then
          && Follow(old(counters), counters, frame as bv32, old(firstRun))
          && !firstRun && errorsInARow == 0 && errors == old(errors)
        else
          && counters == old(counters) && firstRun == old(firstRun)
          && errors == old(errors) + (if Decoded(antennas) then 0 else 1)
          && errorsInARow == old(errorsInARow) + (if Decoded(antennas) then 0 else 1)
    {
      var phase, antennas := SearchPhase(StartPhase(counters), decode);
      if Decoded(antennas) {
        if antennas > 2 {
          return;
        }
        errorsInARow := 0;
        RecoveredIs(pdu, cell, frame, phase);
        counters := Adjust(counters, firstRun, Recovered(pdu, phase) as bv32);
        firstRun := false;
      } else {
        errorsInARow := errorsInARow + 1;
        errors := errors + 1;
      }
    }
  }

  function TruePhase(frame: bv16): (p: bv8) {
    (frame & 3) as bv8
  }

  function StartPhase(c: Counters): (p: bv8)
    ensures p < 4
  {
    (c.rx % 4) as bv8
  }

  function Recovered(p: Pdu, phase: bv8): bv16 {
    ReadFrame(p) + phase as bv16
  }

  lemma RecoveredIs(p: Pdu, cell: Cell, frame: bv16, phase: bv8)
    requires frame < 1024 && Carries(p, cell, frame) && phase == TruePhase(frame)
    ensures Recovered(p, phase) == frame
  {
    FrameRecovered(p, cell, frame);
  }

  // Adjusting the counters on the first decoding, re-adjusting them later.
  method Adjust(c0: Counters, first: bool, decoded: bv32) returns (c: Counters)
    requires decoded < 1024
    ensures Follow(c0, c, decoded, first)
  {
    c := c0;
    AdjustedTwice(c0.rx, decoded);
    LowBits(decoded);
    if first {
      c := c.(rx := Adjusted(c.rx, decoded));
      c := c.(tx := c.rx);
      c := c.(otherRx := c.rx);
      c := c.(otherTx := c.tx);
    } else if decoded & 0x3ff != c.rx & 0x3ff {
      c := c.(rx := Adjusted(c.rx, decoded));
      c := c.(otherRx := Adjusted(c.rx, decoded));
      c := c.(tx := c.rx);
      c := c.(otherTx := c.rx);
    }
  }

  // What rx_pbch returns on success.
  predicate Decoded(antennas: int) {
    1 <= antennas <= 4
  }

  // The four trials of ue_pbch_procedures, from the phase the UE's own frame
  // counter suggests: they find a decodable phase if there is one.
  method SearchPhase(start: bv8, decode: bv8 -> int) returns (phase: bv8, antennas: int)
    requires start < 4
    ensures Decoded(antennas) ==> phase < 4 && antennas == decode(phase)
    ensures !Decoded(antennas) ==> forall p: bv8 :: p < 4 ==> !Decoded(decode(p))
  {
    phase, antennas := start, 0;
    ghost var tried: set<bv8> := {};
    for trial := 0 to 4
      invariant phase == Phase(start, trial) && !Decoded(antennas)
      invariant forall p: bv8 :: p in tried ==> !Decoded(decode(p))
      invariant forall k :: 0 <= k < trial ==> Phase(start, k) in tried
    {
      antennas := decode(phase);
      if Decoded(antennas) {
        return phase, antennas;
      }
      tried := tried + {phase};
      phase := phase + 1;
      if phase >= 4 {
        phase := 0;
      }
    }
    assert {Phase(start, 0), Phase(start, 1), Phase(start, 2), Phase(start, 3)} <= tried;
  }

  // ----- Both ends over frames -----

  function Ticked(c: Counters): Counters {
    c.(rx := c.rx + 1, otherRx := c.otherRx + 1)
  }

  // Both receiving contexts count to the cell's frame, modulo 1024.
  ghost predicate At(c: Counters, frame: bv16) {
    c.rx & 0x3ff == frame as bv32 && c.otherRx & 0x3ff == frame as bv32
  }

  lemma TickKeepsStep(rx: bv32, frame: bv16)
    requires frame < 1024 && rx & 0x3ff == frame as bv32
    ensures (rx + 1) & 0x3ff == NextFrame(frame) as bv32
  {
  }

  lemma TicksTogether(c: Counters, frame: bv16)
    requires frame < 1024 && At(c, frame)
    ensures At(Ticked(c), NextFrame(frame))
  {
    TickKeepsStep(c.rx, frame);
    TickKeepsStep(c.otherRx, frame);
  }

  lemma StayAlike(before: Counters, after: Counters, frame: bv32, first: bool)
    requires Follow(before, after, frame, first) && before.rx == before.otherRx
    ensures after.rx == after.otherRx
  {
  }

  // Decoding brings the contexts to the cell's frame, if they count alike, and
  // leaves them there.
  lemma DecodingSyncs(before: Counters, after: Counters, frame: bv16, first: bool)
    requires frame < 1024 && Follow(before, after, frame as bv32, first) && before.rx == before.otherRx
    ensures At(after, frame) && after.rx == after.otherRx
  {
    FollowsTheCell(before, after, frame as bv32, first);
    StayAlike(before, after, frame as bv32, first);
  }

  // The block tells the UE the frame: it is decoded, from 1 or 2 antennas.
  predicate Tells(decode: bv8 -> int, frame: bv16) {
    1 <= decode(TruePhase(frame)) <= 2
  }

  lemma SyncKept(before: Counters, after: Counters, frame: bv16, first: bool, told: bool, synced: bool)
    requires frame < 1024 && before.rx == before.otherRx && (synced ==> At(before, frame))
    requires if told then Follow(before, after, frame as bv32, first) else after == before
    ensures after.rx == after.otherRx
    ensures synced || told ==> At(after, frame) && At(Ticked(after), NextFrame(frame))
  {
    if told {
      DecodingSyncs(before, after, frame, first);
    }
    if synced || told {
      TicksTogether(after, frame);
    }
  }

  // The UE between two frames.
  datatype Snapshot = Snapshot(counters: Counters, firstRun: bool)

  // What one frame does to the UE: it counts the frame and then decodes, or
  // fails to decode, the block.
  ghost predicate UeFrame(before: Snapshot, after: Snapshot, frame: bv16, told: bool) {
    if told then Follow(Ticked(before.counters), after.counters, frame as bv32, before.firstRun) && !after.firstRun
    else after == Snapshot(Ticked(before.counters), before.firstRun)
  }

  // One frame at both ends: what the eNodeB broadcasts tells the UE its frame if
  // the UE decodes it.
  method FrameAtBothEnds(enb: ENodeB, ue: Ue, frame: bv16, decode: bv8 -> int)
    requires frame < 1024 && enb.Ready(frame)
    requires forall phase :: Decoded(decode(phase)) ==> phase == TruePhase(frame)
    modifies enb, ue
    ensures enb.Ready(NextFrame(frame))
    ensures UeFrame(old(ue.Now()), ue.Now(), frame, Tells(decode, frame))
  {
    var pdu := enb.Broadcast(frame);
    ue.ReceiveFrame(pdu, enb.cell, frame, decode);
  }

  // Both contexts count alike, and, once synced, the next frame is the cell's.
  ghost predicate Tracks(s: Snapshot, frame: bv16, synced: bool) {
    s.counters.rx == s.counters.otherRx && (synced ==> At(Ticked(s.counters), frame))
  }

  lemma TracksOn(s: Snapshot, t: Snapshot, frame: bv16, told: bool, synced: bool)
    requires frame < 1024 && Tracks(s, frame, synced) && UeFrame(s, t, frame, told)
    ensures Tracks(t, NextFrame(frame), synced || told)
    ensures synced || told ==> At(t.counters, frame)
  {
    SyncKept(Ticked(s.counters), t.counters, frame, s.firstRun, told, synced);
  }

  // A run of the UE: ues[i] is the UE before the i-th frame, told[i] whether that
  // frame's block is decoded.
  ghost predicate FrameOn(start: bv16, ues: seq<Snapshot>, told: seq<bool>, i: nat)
    requires start < 1024 && |ues| == |told| + 1 && i < |told|
  {
    UeFrame(ues[i], ues[i + 1], FrameAfter(start, i), told[i])
  }

  // However many frames pass, wraps included, and whichever decodings fail: from
  // the first frame j that a block tells it on, the UE's counters are congruent
  // to the cell's frame modulo 1024.
  lemma TracksCell(start: bv16, ues: seq<Snapshot>, told: seq<bool>, j: nat, k: nat)
    requires start < 1024 && |ues| == |told| + 1 && j <= k < |told| && told[j]
    requires ues[0].counters.rx == ues[0].counters.otherRx
    requires forall i :: 0 <= i < |told| ==> FrameOn(start, ues, told, i)
    ensures At(ues[k + 1].counters, FrameAfter(start, k))
  {
    TracksTo(start, ues, told, j, k);
    assert FrameOn(start, ues, told, k);
    TracksOn(ues[k], ues[k + 1], FrameAfter(start, k), told[k], k > j);
  }

  lemma {:induction false} TracksTo(start: bv16, ues: seq<Snapshot>, told: seq<bool>, j: nat, n: nat)
    requires start < 1024 && |ues| == |told| + 1 && j < |told| && told[j] && n <= |told|
    requires ues[0].counters.rx == ues[0].counters.otherRx
    requires forall i :: 0 <= i < |told| ==> FrameOn(start, ues, told, i)
    ensures Tracks(ues[n], FrameAfter(start, n), n > j)
  {
    if n > 0 {
      TracksTo(start, ues, told, j, n - 1);
      TracksOnward(start, ues, told, n - 1, n - 1 > j);
    }
  }

  lemma TracksOnward(start: bv16, ues: seq<Snapshot>, told: seq<bool>, i: nat, synced: bool)
    requires start < 1024 && |ues| == |told| + 1 && i < |told| && FrameOn(start, ues, told, i)
    requires Tracks(ues[i], FrameAfter(start, i), synced)
    ensures Tracks(ues[i + 1], FrameAfter(start, i + 1), synced || told[i])
  {
    TracksOn(ues[i], ues[i + 1], FrameAfter(start, i), told[i], synced);
  }

  // The phase of the k-th trial.
  function Phase(start: bv8, k: nat): (p: bv8)
    requires start < 4 && k <= 4
    ensures p < 4
  {
    if k == 0 then start
    else
      var before := Phase(start, k - 1);
      if before == 3 then 0 else before + 1
  }
}
