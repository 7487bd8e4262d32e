// Subframe directions, uplink HARQ numbering and the timing of Msg3. Time is
// counted in subframes and wraps every 1024 frames.
module Msg3Timing {
  import opened Arithmetic
  import opened UeState

  const WRAP := 10240

  function Time(frame: nat, sf: nat): nat {
    10 * frame + sf
  }

  datatype Direction = Downlink | Uplink | Special

  // subframe_select for the supported TDD configurations.
  function SubframeSelect(config: nat, sf: nat): Direction
    requires config == 1 || config == 3
  {
    if config == 1 then
      if sf in {0, 4, 5, 9} then Downlink else if sf in {2, 3, 7, 8} then Uplink else Special
    else
      if sf < 1 || sf >= 5 then Downlink else if 1 < sf then Uplink else Special
  }

  // Table 4.2-2 of TS 36.211.
  const CONFIG1 := "DSUUDDSUUD"
  const CONFIG3 := "DSUUUDDDDD"

  lemma DirectionsByTable(config: nat, sf: nat)
    requires (config == 1 || config == 3) && sf < 10
    ensures
      var c := (if config == 1 then CONFIG1 else CONFIG3)[sf];
      && (SubframeSelect(config, sf) == Downlink <==> c == 'D')
      && (SubframeSelect(config, sf) == Uplink <==> c == 'U')
      && (SubframeSelect(config, sf) == Special <==> c == 'S')
  {
  }

  // Both directions run in every FDD subframe.
  predicate CanSend(d: Duplex, t: nat)
    requires d.TDD? ==> d.config == 1 || d.config == 3
  {
    d.FDD? || SubframeSelect(d.config, t % 10) == Uplink
  }

  predicate CanReceive(d: Duplex, t: nat)
    requires d.TDD? ==> d.config == 1 || d.config == 3
  {
    d.FDD? || SubframeSelect(d.config, t % 10) == Downlink
  }

  // t is the first uplink time not before `from`.
  ghost predicate FirstUplink(d: Duplex, from: nat, t: nat)
    requires d.TDD? ==> d.config == 1 || d.config == 3
  {
    from <= t && CanSend(d, t) && forall x :: from <= x < t ==> !CanSend(d, x)
  }

  // The next time, from time `now` on, that a frame and subframe stand for.
  function Ahead(now: nat, frame: nat, sf: nat): nat
    requires now < WRAP
  {
    if Time(frame, sf) >= now then Time(frame, sf) else Time(frame, sf) + WRAP
  }

  // Whole frames do not matter to directions, so the first uplink time can be
  // looked for in the first frames.
  lemma FirstUplinkShifts(d: Duplex, frame: nat, from: nat, t: nat)
    requires d.TDD? ==> d.config == 1 || d.config == 3
    requires FirstUplink(d, from, t)
    ensures FirstUplink(d, 10 * frame + from, 10 * frame + t)
  {
    forall x | from <= x <= t
      ensures CanSend(d, 10 * frame + x) == CanSend(d, x)
    {
    }
    forall y | 10 * frame + from <= y < 10 * frame + t
      ensures !CanSend(d, y)
    {
      var x := y - 10 * frame;
      assert !CanSend(d, x);
    }
  }

  lemma AheadIs(frame: nat, sf: nat, frames: nat, target: nat)
    requires frame < 1024 && sf < 10 && frames <= 2 && target < 10 && sf <= 10 * frames + target
    ensures Ahead(Time(frame, sf), (frame + frames) % 1024, target) == 10 * frame + (10 * frames + target)
  {
  }

  // The allocation `frames` frames on, in subframe `target`, is the earliest
  // legal one if it is so seen from frame 0.
  lemma Earliest(d: Duplex, frame: nat, sf: nat, frames: nat, target: nat)
    requires d.TDD? ==> d.config == 1 || d.config == 3
    requires frame < 1024 && sf < 10 && frames <= 2 && target < 10
    requires FirstUplink(d, sf + 6, 10 * frames + target)
    ensures FirstUplink(d, Time(frame, sf) + 6, Ahead(Time(frame, sf), (frame + frames) % 1024, target))
  {
    AheadIs(frame, sf, frames, target);
    FirstUplinkShifts(d, frame, sf + 6, 10 * frames + target);
  }

  // get_Msg3_alloc in FDD. The frame is reduced to 10 bits only where it is
  // incremented.
  function InitialAlloc(currentSf: nat, currentFrame: nat): (nat, nat) {
    if currentSf + 6 > 9 then ((currentFrame + 1) % 1024, currentSf - 4) else (currentFrame, currentSf + 6)
  }

  // Modulo 1024 frames that is exactly 6 subframes on.
  lemma InitialAllocIsSixLater(frame: nat, sf: nat)
    requires frame < 1024 && sf < 10
    ensures
      var (f, s) := InitialAlloc(sf, frame);
      f < 1024 && s < 10 && Ahead(Time(frame, sf), f, s) == Time(frame, sf) + 6
  {
    if sf + 6 > 9 {
      AheadIs(frame, sf, 1, sf - 4);
    }
  }

  // get_Msg3_alloc: the output parameters keep their values where the code has
  // no case.
  method GetMsg3Alloc(d: Duplex, currentSf: nat, currentFrame: nat, frame0: nat, subframe0: nat)
    returns (frame: nat, subframe: nat)
    requires currentSf < 10
    ensures d.FDD? ==> (frame, subframe) == InitialAlloc(currentSf, currentFrame)
    ensures d.FDD? && currentFrame < 1024 ==>
              Ahead(Time(currentFrame, currentSf), frame, subframe) == Time(currentFrame, currentSf) + 6
    ensures d == TDD(1) || d == TDD(3) ==>
              EarliestAlloc(d.config, currentSf, currentFrame, frame0, subframe0, frame, subframe)
    ensures d.TDD? && d.config != 1 && d.config != 3 ==> frame == frame0 && subframe == subframe0
  {
    frame, subframe := frame0, subframe0;
    if d.FDD? {
      subframe := currentSf + 6;
      if subframe > 9 {
        subframe := subframe - 10;
        frame := (currentFrame + 1) % 1024;
      } else {
        frame := currentFrame;
      }
      if currentFrame < 1024 {
        InitialAllocIsSixLater(currentFrame, currentSf);
      }
    } else if d.config == 1 {
      frame, subframe := Config1Alloc(currentSf, currentFrame, frame0, subframe0);
    } else if d.config == 3 {
      frame, subframe := Config3Alloc(currentSf, currentFrame, frame0, subframe0);
    }
  }

  // From a downlink subframe, the first uplink time at distance 6 or more; from
  // others, nothing.
  ghost predicate EarliestAlloc(config: nat, sf: nat, current: nat, frame0: nat, subframe0: nat, frame: nat, subframe: nat)
    requires (config == 1 || config == 3) && sf < 10
  {
    if !CanReceive(TDD(config), sf) then frame == frame0 && subframe == subframe0
    else
      && subframe < 10
      && (current < 1024 ==>
            && frame < 1024
            && FirstUplink(TDD(config), Time(current, sf) + 6, Ahead(Time(current, sf), frame, subframe)))
  }

  method Config1Alloc(currentSf: nat, currentFrame: nat, frame0: nat, subframe0: nat)
    returns (frame: nat, subframe: nat)
    requires currentSf < 10
    ensures EarliestAlloc(1, currentSf, currentFrame, frame0, subframe0, frame, subframe)
  {
    frame, subframe := frame0, subframe0;
    ghost var frames := 1;
    if currentSf == 0 {
      subframe, frame, frames := 7, currentFrame, 0;
    } else if currentSf == 4 {
      subframe, frame := 2, (currentFrame + 1) % 1024;
    } else if currentSf == 5 {
      subframe, frame := 2, (currentFrame + 1) % 1024;
    } else if currentSf == 9 {
      subframe, frame := 7, (currentFrame + 1) % 1024;
    }
    if currentFrame < 1024 && CanReceive(TDD(1), currentSf) {
      Earliest(TDD(1), currentFrame, currentSf, frames, subframe);
    }
  }

  method Config3Alloc(currentSf: nat, currentFrame: nat, frame0: nat, subframe0: nat)
    returns (frame: nat, subframe: nat)
    requires currentSf < 10
    ensures EarliestAlloc(3, currentSf, currentFrame, frame0, subframe0, frame, subframe)
  {
    frame, subframe := frame0, subframe0;
    ghost var frames := 1;
    if currentSf == 0 || currentSf == 5 || currentSf == 6 {
      subframe, frame := 2, (currentFrame + 1) % 1024;
    } else if currentSf == 7 {
      subframe, frame := 3, (currentFrame + 1) % 1024;
    } else if currentSf == 8 {
      subframe, frame := 4, (currentFrame + 1) % 1024;
    } else if currentSf == 9 {
      subframe, frame, frames := 2, (currentFrame + 2) % 1024, 2;
    }
    if currentFrame < 1024 && CanReceive(TDD(3), currentSf) {
      Earliest(TDD(3), currentFrame, currentSf, frames, subframe);
    }
  }

  // get_Msg3_alloc_ret. In TDD the subframe output is never written.
  function RetransmissionAlloc(d: Duplex, currentSf: nat, currentFrame: nat, frame0: nat, subframe0: nat): (nat, nat)
  {
    match d
    case FDD =>
      if currentSf + 8 > 9 then ((currentFrame + 1) % 1024, currentSf - 2)
      else (currentFrame, currentSf + 8)
    case TDD(config) =>
      if config == 1 || config == 3 then ((currentFrame + 1) % 1024, subframe0) else (frame0, subframe0)
  }

  // In TDD a retransmission is one frame after the reception, in the same subframe.
  lemma RetransmissionIsOneFrameLater(config: nat, frame: nat, sf: nat, frame0: nat)
    requires (config == 1 || config == 3) && frame < 1024 && sf < 10
    ensures
      var (f, s) := RetransmissionAlloc(TDD(config), sf, frame, frame0, sf);
      f < 1024 && Ahead(Time(frame, sf), f, s) == Time(frame, sf) + 10
  {
    AheadIs(frame, sf, 1, sf);
  }

  // subframe2harq_pid in FDD.
  function HarqPid(frame: nat, sf: nat): (p: nat)
    ensures p < 8
  {
    (2 * frame + sf) % 8
  }

  // The FDD process number is the time modulo 8, and the 1024-frame wrap keeps it.
  lemma HarqPidOfTime(t: nat)
    ensures HarqPid(t / 10 % 1024, t % 10) == t % 8
  {
    PidOfWrapped(t / 10, t % 10);
  }

  lemma PidOfWrapped(frame: nat, sf: nat)
    ensures HarqPid(frame % 1024, sf) == (10 * frame + sf) % 8
  {
    var q, g := frame / 1024, frame % 1024;
    SameRemainder(8, frame + 256 * q, 2 * g + sf);
  }

  // A retransmission of Msg3 is exactly 8 subframes after the reception, across
  // the wrap too, and so meets the same HARQ process.
  lemma RetransmissionIsEightLater(t: nat, frame0: nat, subframe0: nat)
    ensures
      var (f, s) := RetransmissionAlloc(FDD, t % 10, t / 10 % 1024, frame0, subframe0);
      && f == (t + 8) / 10 % 1024 && s == (t + 8) % 10
      && HarqPid(f, s) == HarqPid(t / 10 % 1024, t % 10)
  {
    HarqPidOfTime(t);
    SameRemainder(8, 1, t);
    if t % 10 + 8 > 9 {
      RemainderIs(10, t / 10 + 1, t % 10 - 2);
      SameRemainder(1024, t / 10 / 1024, t / 10 % 1024 + 1);
      PidOfWrapped(t / 10 + 1, t % 10 - 2);
    } else {
      RemainderIs(10, t / 10, t % 10 + 8);
      PidOfWrapped(t / 10, t % 10 + 8);
    }
  }
}
