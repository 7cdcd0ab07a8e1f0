/** The servo as the state machine holds it, updated in place
    (tsn_gptp/clock_master_sync_receive_sm.c). Each method is tied to the function of Servo. */
module ServoMachine {
  import opened Arith
  import opened Servo

  class ClockMasterSyncReceive {
    const cfg: Cfg

    var offsetGM: int
    var offsetGmStable: Adj
    var offsetGmStableCount: int
    var gmchangeInd: int
    var mrate: real
    var alpha: real
    var rateStableCount: int
    var rateIsStable: bool
    var gmadjppb: int
    var skipFreqadj: int
    var lastLts: int
    var lastMts: int
    ghost var plog: seq<Entry>
    ghost var rlog: seq<Entry>
    ghost var acts: seq<Act>

    ghost function AbsPhase(): Phase
      reads this
    {
      Phase(offsetGM, offsetGmStable, offsetGmStableCount, gmchangeInd)
    }

    ghost function AbsRate(): Rate
      reads this
    {
      Rate(mrate, alpha, rateStableCount, rateIsStable, gmadjppb, skipFreqadj)
    }

    ghost function Abs(): State
      reads this
    {
      State(AbsPhase(), AbsRate(), lastLts, lastMts, plog, rlog, acts)
    }

    constructor (cfg: Cfg)
      ensures Abs() == Boot() && this.cfg == cfg
    {
      this.cfg := cfg;
      offsetGM, offsetGmStable, offsetGmStableCount, gmchangeInd := 0, StartAdj, 0, 0;
      mrate, alpha, rateStableCount, rateIsStable, gmadjppb, skipFreqadj := 0.0, 0.0, 0, false, 0, 0;
      lastLts, lastMts := 0, 0;
      plog, rlog, acts := [], [], [];
    }

    /** The first part of set_phase_offsetGM: true when the sample is dropped. */
    method CheckJump(gap: nat, gm: int) returns (dropped: bool)
      modifies `offsetGmStable, `plog
      ensures (AbsPhase(), dropped) == Jump(old(AbsPhase()), gap, gm)
      ensures plog == if dropped then old(plog) + [StartedOver] else old(plog)
    {
      if gap >= PHASE_NEWGM_CRITERION {
        if gmchangeInd != 0 && gmchangeInd == gm {
          if offsetGmStable != NotAdj {
            offsetGmStable := NotAdj;
            plog := plog + [StartedOver];
            return true;
          }
        }
        offsetGmStable := StartAdj;
      }
      return false;
    }

    /** The switch of set_phase_offsetGM. */
    method TrackPhase(dts: int, gap: nat, gm: int) returns (offset: Option<int>)
      requires Valid(cfg)
      modifies `offsetGmStable, `offsetGmStableCount, `gmchangeInd, `plog
      ensures (AbsPhase(), offset) == Track(cfg, old(AbsPhase()), dts, gap, gm)
      ensures plog == old(plog) + [PhaseEntry(old(AbsPhase()), gap, gm)]
    {
      plog := plog + [PhaseEntry(AbsPhase(), gap, gm)];
      match offsetGmStable {
        case NotAdj =>
          offset := Some(dts);
          offsetGmStable, offsetGmStableCount := UnstableAdj, 0;
        case StartAdj =>
          offset := Some(dts);
          offsetGmStable, offsetGmStableCount := UnstableAdj, 0;
        case UnstableAdj =>
          var a := cfg.phase.alphaStart;
          offset := Some(DivC(dts, a) + (a - 1) * DivC(offsetGM, a));
          if gap < PHASE_STABLE_CRITERION {
            offsetGmStableCount := offsetGmStableCount + 1;
            if offsetGmStableCount >= STABLE_TRNS {
              offsetGmStable := StableAdj;
              gmchangeInd := gm;
              offsetGmStableCount := 0;
            }
          } else {
            offsetGmStableCount := 0;
          }
        case StableAdj =>
          if gmchangeInd != gm {
            offsetGmStable := StartAdj;
            return None;
          }
          var a := cfg.phase.alphaStable;
          offset := Some(DivC(dts, a) + (a - 1) * DivC(offsetGM, a));
          if gap > PHASE_UNSTABLE_CRITERION {
            offsetGmStable := UnstableAdj;
          }
      }
    }

    /** The end of set_phase_offsetGM. */
    method ApplyPhase(offset: int) returns (r: int)
      modifies `offsetGM, `skipFreqadj, `acts
      ensures (Abs(), r) == StepPhase(cfg, old(Abs()), offset)
    {
      var od := offset - offsetGM;
      if Arith.Abs(od) < cfg.phase.byFreqBelow && cfg.phase.byFreq {
        return od;
      }
      acts := acts + [SetOffset(offset)];
      if cfg.phase.hwPhase {
        offsetGM := 0;
        skipFreqadj := cfg.rate.skipMax;
      } else {
        offsetGM := offset;
      }
      return 0;
    }

    /** set_phase_offsetGM */
    method SetPhaseOffsetGM(dts: int, dlts: int, gm: int) returns (r: int)
      requires Valid(cfg)
      modifies `offsetGM, `offsetGmStable, `offsetGmStableCount, `gmchangeInd, `skipFreqadj, `plog, `acts
      ensures (Abs(), r) == SetPhase(cfg, old(Abs()), dts, dlts, gm)
    {
      hide Track, StepPhase;
      var gap := Arith.Abs(dts - offsetGM);
      var dropped := CheckJump(gap, gm);
      if dropped {
        return 0;
      }
      if dlts > 0 && dlts < cfg.phase.intervalMsec * MSEC_NS
         && (offsetGmStable == UnstableAdj || offsetGmStable == StableAdj) {
        return NOOP;
      }
      var offset := TrackPhase(dts, gap, gm);
      if offset.None? {
        return 0;
      }
      r := ApplyPhase(offset.value);
    }

    /** The change between the stable and the unstable rate in computeGmRateRatio. */
    method CheckRate(ppb: int)
      requires Valid(cfg)
      modifies `rateStableCount, `rateIsStable, `alpha, `rlog
      ensures AbsRate() == TrackRate(cfg, old(AbsRate()), ppb) && rlog == old(rlog) + [Sample(Arith.Abs(ppb))]
    {
      rlog := rlog + [Sample(Arith.Abs(ppb))];
      if !rateIsStable {
        if Arith.Abs(ppb) < cfg.rate.stablePpb {
          rateStableCount := rateStableCount + 1;
          if rateStableCount >= STABLE_TRNS {
            rateIsStable := true;
            alpha := Inverse(cfg.rate.alphaStable);
          }
        } else {
          rateStableCount := 0;
        }
      } else if Arith.Abs(ppb) > cfg.rate.leapPpb {
        rateStableCount := 0;
        rateIsStable := false;
        alpha := Inverse(cfg.rate.alphaStart);
      }
    }

    /** The adjustment at the end of computeGmRateRatio. */
    method ApplyRate(ppb: int)
      modifies `gmadjppb, `mrate, `acts
      ensures Abs() == AdjustRate(cfg, old(Abs()), ppb)
    {
      if Arith.Abs(ppb) > cfg.rate.updatePpb {
        gmadjppb := gmadjppb + ppb;
        if gmadjppb > cfg.rate.maxAdj {
          gmadjppb := cfg.rate.maxAdj;
        } else if gmadjppb < -cfg.rate.maxAdj {
          gmadjppb := -cfg.rate.maxAdj;
        }
        acts := acts + [SetAdj(gmadjppb)];
        mrate := 1.0;
      }
    }

    /** The filter of the rate ratio. */
    method FilteredPpb(dmts: int, dlts: int) returns (ppb: int)
      requires dlts != 0
      ensures ppb == RatePpb(AbsRate(), dmts, dlts)
    {
      hide Iir, ToPpb;
      var nrate := Iir(alpha, dmts as real / dlts as real, mrate);
      ppb := ToPpb(nrate);
    }

    /** computeGmRateRatio once the frequency is to be followed. */
    method FollowRate(dmts: int, dlts: int, comp: int)
      requires Valid(cfg) && dlts != 0
      modifies this
      ensures Abs() == UpdateRate(cfg, old(Abs()), dmts, dlts, comp)
    {
      hide TrackRate, AdjustRate;
      var ppb := FilteredPpb(dmts, dlts);
      hide RatePpb;
      CheckRate(ppb);
      ApplyRate(ppb + comp);
    }

    /** computeGmRateRatio without a new Sync. */
    method StartOver()
      modifies `rateStableCount, `rateIsStable, `skipFreqadj, `offsetGmStable, `offsetGmStableCount, `plog, `rlog
      ensures Abs() == Restart(old(Abs()))
    {
      rateStableCount, rateIsStable := 0, false;
      offsetGmStable, offsetGmStableCount := StartAdj, 0;
      skipFreqadj := 1;
      assert AbsRate() == old(AbsRate()).(count := 0, stable := false, skip := 1);
      assert AbsPhase() == old(AbsPhase()).(adj := StartAdj, count := 0);
      plog := plog + [StartedOver];
      rlog := rlog + [StartedOver];
    }

    /** computeGmRateRatio from where the times of the Sync are kept. */
    method FollowSync(lts: int, mts: int, comp: int)
      requires Valid(cfg) && lts != lastLts
      modifies this
      ensures Abs() == AfterPhase(cfg, old(Abs()), lts, mts, comp)
    {
      hide UpdateRate;
      var dlts, dmts := lts - lastLts, mts - lastMts;
      lastLts, lastMts := lts, mts;
      if Arith.Abs(dmts - dlts) > TOO_BIG_PASSTIME_GAP {
        return;
      }
      if skipFreqadj > 0 {
        skipFreqadj := skipFreqadj - 1;
        return;
      }
      FollowRate(dmts, dlts, comp);
    }

    /** computeGmRateRatio; its result is not used. */
    method ComputeGmRateRatio(lts: nat, mts: nat, gm: int)
      requires Valid(cfg)
      modifies this
      ensures Abs() == Compute(cfg, old(Abs()), lts, mts, gm)
    {
      hide SetPhase, AfterPhase, Restart;
      var dlts, dmts := lts - lastLts, mts - lastMts;
      if dmts == 0 || dlts == 0 || mts == 0 || lts == 0 {
        StartOver();
        return;
      }
      var comp := 0;
      if !cfg.rate.quick || rateIsStable {
        comp := SetPhaseOffsetGM(mts - lts, dlts, gm);
        if comp == NOOP {
          return;
        }
      }
      FollowSync(lts, mts, comp);
    }

    method ClearRate()
      requires Valid(cfg)
      modifies `mrate, `alpha, `rateStableCount, `rateIsStable, `skipFreqadj, `lastLts, `lastMts, `rlog
      ensures AbsRate() == Rate(1.0, Inverse(cfg.rate.alphaStart), 0, false, gmadjppb, 0)
      ensures lastLts == lastMts == 0 && rlog == old(rlog) + [Reinitialized]
    {
      mrate, alpha := 1.0, Inverse(cfg.rate.alphaStart);
      lastLts, lastMts := 0, 0;
      rateStableCount, rateIsStable, skipFreqadj := 0, false, 0;
      rlog := rlog + [Reinitialized];
    }

    /** initializing_proc */
    method InitializingProc()
      requires Valid(cfg)
      modifies this
      ensures Abs() == Initialized(cfg, old(Abs()))
    {
      hide Inverse;
      ClearRate();
      offsetGM, offsetGmStableCount := 0, 0;
      plog := plog + [Reinitialized];
    }

    /** receive_source_time_proc for a clock source request. */
    method ReceiveSourceTimeProc(lts: nat, mts: nat, gm: int, unsync: bool)
      requires Valid(cfg)
      modifies this
      ensures Abs() == Handle(cfg, old(Abs()), SourceTime(lts, mts, gm, unsync))
    {
      hide Compute;
      ComputeGmRateRatio(lts, mts, gm);
      if unsync {
        acts := acts + [DeclareSync];
      } else if rateIsStable && offsetGmStable == StableAdj {
        acts := acts + [DeclareStable(|plog|, |rlog|)];
      }
    }
  }
}
