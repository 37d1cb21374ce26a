/**
 * The sensor tasks: the IMU task's drift-free wake-up schedule (a base
 * period plus a fractional-microsecond accumulator), its sleep, trim and
 * late-resync rules, the dt handed to the AHRS and the pressure-altitude
 * guard; and, in the pressure task's read, the gating of AOA and IAS by the
 * data source and the 100 ms deceleration-rate update through the
 * Savitzky-Golay derivative of IAS. Clock readings, pressure readings and
 * the AOA calculator's result are inputs; pow, sqrt and the CAS curve are
 * parameters.
 */
module SensorIO {
  import opened Wrappers
  import opened Numeric
  import SavGolSpec
  import SavGolLib
  import ToneCalc
  import Audio

  const MICROS_PER_SECOND: int := 1000000
  /** A coarse sleep only when more than 2 ms remain, ending 1 ms early. */
  const COARSE_SLEEP_MIN_US: int := 2000
  const SLEEP_MARGIN_US: int := 1000
  /** More than 1 ms late: resynchronise to now. */
  const LATE_LIMIT_US: int := 1000
  const LATE_LOG_INTERVAL_MS: int := 1000
  const DECEL_INTERVAL_MS: int := 100
  const IAS_DERIVATIVE_WINDOW: int := 15
  /** Standard-atmosphere pressure altitude: 145366.45 * (1 - (p / 1013.25) ^ 0.190284) feet. */
  const PALT_SCALE_FT: real := 145366.45
  const SEA_LEVEL_MBAR: real := 1013.25
  const PALT_EXPONENT: real := 0.190284

  /** The IMU sample rate in Hz. */
  type Rate = r: int | 0 < r <= MICROS_PER_SECOND witness 1

  /** The task's two constants, the whole and fractional parts of one period: baseUs + remainderUs / rate microseconds. */
  datatype PeriodSplit = Period(rate: int, baseUs: int, remainderUs: int)
  type Period = p: PeriodSplit | 0 < p.rate <= MICROS_PER_SECOND && 0 <= p.baseUs && 0 <= p.remainderUs < p.rate
    witness Period(1, MICROS_PER_SECOND, 0)

  /** The two parts make up exactly one second over `rate` periods. */
  predicate ExactSplit(p: Period) {
    p.baseUs * p.rate + p.remainderUs == MICROS_PER_SECOND
  }

  /** 1000000 / rate and 1000000 % rate. */
  function PeriodOf(rate: Rate): (p: Period)
    ensures p.rate == rate && ExactSplit(p)
  {
    Period(rate, MICROS_PER_SECOND / rate, MICROS_PER_SECOND % rate)
  }

  // ---------------------------------------------------------------------
  // The wake-up schedule

  datatype Schedule = Schedule(nextWakeUs: u32, remainderAcc: u32)

  /**
   * Schedule the next tick: one base period later, plus one microsecond each
   * time the accumulated remainders reach a whole rate. The accumulator
   * stays below the rate.
   */
  function NextTick(s: Schedule, p: Period): (r: Schedule)
    ensures s.remainderAcc < p.rate ==> r.remainderAcc < p.rate
  {
    var next := U32(s.nextWakeUs + p.baseUs);
    var acc := U32(s.remainderAcc + p.remainderUs);
    if acc >= p.rate then Schedule(U32(next + 1), U32(acc - p.rate))
    else Schedule(next, acc)
  }

  /** The schedule after k on-time ticks. */
  function Ticks(s: Schedule, p: Period, k: nat): Schedule
    decreases k
  {
    if k == 0 then s else NextTick(Ticks(s, p, k - 1), p)
  }

  /** NextTick on an unwrapped microsecond count: the 32-bit wake time is its low word. */
  function UnwrappedNext(n: int, acc: int, p: Period): (int, int) {
    var a := acc + p.remainderUs;
    if a >= p.rate then (n + p.baseUs + 1, a - p.rate) else (n + p.baseUs, a)
  }

  function UnwrappedTicks(n: int, acc: int, p: Period, k: nat): (int, int)
    decreases k
  {
    if k == 0 then (n, acc) else
      var q := UnwrappedTicks(n, acc, p, k - 1);
      UnwrappedNext(q.0, q.1, p)
  }

  /** The unwrapped accumulator stays below the rate. */
  lemma {:induction false} UnwrappedTicksAcc(n: int, acc: int, p: Period, k: nat)
    requires 0 <= acc < p.rate
    ensures 0 <= UnwrappedTicks(n, acc, p, k).1 < p.rate
  {
    if k > 0 {
      UnwrappedTicksAcc(n, acc, p, k - 1);
    }
  }

  /**
   * Every tick moves the wake time forward by exactly 1,000,000 / rate
   * microseconds, counting the accumulator as the fraction: in units of
   * 1/rate microsecond, n * rate + acc grows by 1,000,000 per tick.
   */
  lemma {:induction false} UnwrappedTicksPhase(n: int, acc: int, p: Period, k: nat)
    requires ExactSplit(p)
    ensures var q := UnwrappedTicks(n, acc, p, k);
      q.0 * p.rate + q.1 == n * p.rate + acc + k * MICROS_PER_SECOND
  {
    if k > 0 {
      UnwrappedTicksPhase(n, acc, p, k - 1);
      var q := UnwrappedTicks(n, acc, p, k - 1);
      PhaseStep(q.0, q.1, p);
    }
  }

  lemma PhaseStep(n: int, acc: int, p: Period)
    requires ExactSplit(p)
    ensures var q := UnwrappedNext(n, acc, p);
      q.0 * p.rate + q.1 == n * p.rate + acc + MICROS_PER_SECOND
  {
    assert (n + p.baseUs + 1) * p.rate == n * p.rate + p.baseUs * p.rate + p.rate;
    assert (n + p.baseUs) * p.rate == n * p.rate + p.baseUs * p.rate;
  }

  /** The 32-bit schedule is the low word of the unwrapped one. */
  lemma {:induction false} TicksAreWrapped(s: Schedule, p: Period, k: nat)
    requires s.remainderAcc < p.rate
    ensures var q := UnwrappedTicks(s.nextWakeUs, s.remainderAcc, p, k);
      0 <= q.1 < p.rate && Ticks(s, p, k) == Schedule(U32(q.0), q.1)
  {
    UnwrappedTicksAcc(s.nextWakeUs, s.remainderAcc, p, k);
    if k > 0 {
      TicksAreWrapped(s, p, k - 1);
      var q := UnwrappedTicks(s.nextWakeUs, s.remainderAcc, p, k - 1);
      WrappedStep(q.0, q.1, p);
    }
  }

  lemma WrappedStep(n: int, acc: u32, p: Period)
    requires acc < p.rate
    ensures var q := UnwrappedNext(n, acc, p);
      0 <= q.1 < p.rate && NextTick(Schedule(U32(n), acc), p) == Schedule(U32(q.0), q.1)
  {
    U32Add(n, p.baseUs);
    U32Add(n + p.baseUs, 1);
  }

  /**
   * The average period is exact: `rate` on-time ticks from an empty
   * accumulator advance the wake time by exactly one second (modulo 2^32)
   * and empty the accumulator again.
   */
  lemma OneSecondPerRateTicks(s: Schedule, p: Period)
    requires s.remainderAcc == 0 && ExactSplit(p)
    ensures Ticks(s, p, p.rate).nextWakeUs == U32(s.nextWakeUs + MICROS_PER_SECOND)
    ensures Ticks(s, p, p.rate).remainderAcc == 0
  {
    var n := s.nextWakeUs;
    TicksAreWrapped(s, p, p.rate);
    UnwrappedTicksPhase(n, 0, p, p.rate);
    var q := UnwrappedTicks(n, 0, p, p.rate);
    assert q.0 * p.rate + q.1 == n * p.rate + p.rate * MICROS_PER_SECOND;
    MulAddDistrib(n, p.rate, MICROS_PER_SECOND);
    SameQuotient(p.rate, q.0, q.1, n + MICROS_PER_SECOND);
  }

  lemma MulAddDistrib(n: int, d: int, c: int)
    ensures n * d + d * c == d * (n + c)
  {
  }

  lemma SameQuotient(d: int, q: int, r: int, q2: int)
    requires 0 < d && 0 <= r < d && q * d + r == d * q2
    ensures q == q2 && r == 0
  {
    DivModUnique(d * q2, d, q, r);
    DivModUnique(d * q2, d, q2, 0);
  }

  // ---------------------------------------------------------------------
  // One pass of the IMU task loop

  /** int32_t(a - b) on two microsecond stamps: how far b is behind a. */
  function SignedDeltaUs(a: u32, b: u32): i32 {
    I32(a - b)
  }

  /** The coarse sleep before a wake-up waitUs away: whole milliseconds, ending one to two milliseconds early. */
  function CoarseSleepMs(waitUs: i32): (ms: Option<int>)
    ensures ms.Some? <==> waitUs > COARSE_SLEEP_MIN_US
    ensures ms.Some? ==> 1 <= ms.value && ms.value * 1000 + SLEEP_MARGIN_US <= waitUs < ms.value * 1000 + 2 * SLEEP_MARGIN_US
  {
    if waitUs > COARSE_SLEEP_MIN_US then Some((waitUs - SLEEP_MARGIN_US) / 1000) else None
  }

  /** The microsecond trim: only when the wake time is still ahead, and then it ends exactly on it. */
  function TrimUs(nextWakeUs: u32, nowUs: u32): (us: Option<int>)
    ensures us.Some? <==> SignedDeltaUs(nextWakeUs, nowUs) > 0
    ensures us.Some? ==> 0 < us.value && U32(nowUs + us.value) == nextWakeUs
  {
    var waitUs := SignedDeltaUs(nextWakeUs, nowUs);
    if waitUs > 0 then
      U32Congruent(nowUs + waitUs, nextWakeUs);
      Some(waitUs as int)
    else None
  }

  /** The task is late when the clock is more than a millisecond past the wake time. */
  predicate IsLate(nowUs: u32, nextWakeUs: u32) {
    SignedDeltaUs(nowUs, nextWakeUs) > LATE_LIMIT_US
  }

  /** The rate limit of the "late" log line. */
  predicate LateLogDue(nowMs: u32, lastLogMs: u32) {
    U32(nowMs - lastLogMs) > LATE_LOG_INTERVAL_MS
  }

  /**
   * The step handed to the AHRS: the measured time between IMU reads, or the
   * nominal period 1/rate when the two stamps are equal. Never zero.
   */
  function DtSeconds(readUs: u32, lastReadUs: u32, rate: Rate): (dt: real)
    ensures 0.0 < dt < 4295.0
    ensures readUs == lastReadUs ==> dt == 1.0 / rate as real
    ensures readUs != lastReadUs ==> dt * 1000000.0 == U32(readUs - lastReadUs) as real
  {
    var dtUs := U32(readUs - lastReadUs);
    if dtUs > 0 then dtUs as real * 0.000001 else 1.0 / rate as real
  }

  /** Pressure altitude in feet, keeping the previous value when the bias-corrected pressure is not positive. */
  function PressureAltitudeFeet(staticMbar: real, biasMbar: real, prevPalt: real, pow: (real, real) -> real): real {
    var corrected := staticMbar - biasMbar;
    if corrected <= 0.0 then prevPalt
    else PALT_SCALE_FT * (1.0 - pow(corrected / SEA_LEVEL_MBAR, PALT_EXPONENT))
  }

  /**
   * A non-positive corrected pressure keeps the previous altitude; standard
   * sea-level pressure gives 0 ft; and, with pow increasing in its base,
   * a lower pressure gives a higher altitude.
   */
  lemma PressureAltitudeGuard(staticMbar: real, lower: real, biasMbar: real, prevPalt: real, pow: (real, real) -> real)
    requires lower < staticMbar
    ensures staticMbar - biasMbar <= 0.0 ==> PressureAltitudeFeet(staticMbar, biasMbar, prevPalt, pow) == prevPalt
    ensures pow(1.0, PALT_EXPONENT) == 1.0 ==> PressureAltitudeFeet(SEA_LEVEL_MBAR + biasMbar, biasMbar, prevPalt, pow) == 0.0
    ensures 0.0 < lower - biasMbar && pow((lower - biasMbar) / SEA_LEVEL_MBAR, PALT_EXPONENT) < pow((staticMbar - biasMbar) / SEA_LEVEL_MBAR, PALT_EXPONENT) ==>
      PressureAltitudeFeet(lower, biasMbar, prevPalt, pow) > PressureAltitudeFeet(staticMbar, biasMbar, prevPalt, pow)
  {
    assert (SEA_LEVEL_MBAR + biasMbar - biasMbar) / SEA_LEVEL_MBAR == 1.0;
  }

  /** The five microsecond readings and one millisecond reading a pass of the loop takes. */
  datatype ImuClock = ImuClock(sleepCheckUs: u32, trimCheckUs: u32, lateCheckUs: u32, resyncUs: u32, readUs: u32, nowMs: u32)

  datatype ImuState = ImuState(sched: Schedule, lastImuReadUs: u32, lastLateLogMs: u32)

  /** What a pass does besides updating its state. */
  datatype ImuActions = ImuActions(sleepMs: Option<int>, trimUs: Option<int>, lateLogged: bool, dtSeconds: real)

  /**
   * One pass: schedule, sleep, trim, resynchronise when late (logging at
   * most once a second), then read and hand the AHRS its dt.
   */
  function ImuIteration(st: ImuState, p: Period, clk: ImuClock): (r: (ImuState, ImuActions))
  {
    var s1 := NextTick(st.sched, p);
    var late := IsLate(clk.lateCheckUs, s1.nextWakeUs);
    var logged := late && LateLogDue(clk.nowMs, st.lastLateLogMs);
    var s2 := if late then Schedule(clk.resyncUs, 0) else s1;
    (ImuState(s2, clk.readUs, if logged then clk.nowMs else st.lastLateLogMs),
     ImuActions(CoarseSleepMs(SignedDeltaUs(s1.nextWakeUs, clk.sleepCheckUs)),
                TrimUs(s1.nextWakeUs, clk.trimCheckUs), logged,
                DtSeconds(clk.readUs, st.lastImuReadUs, p.rate)))
  }

  /**
   * A pass keeps the accumulator below the rate; an on-time pass advances
   * the schedule by exactly one tick; a late one restarts it from the clock
   * with an empty accumulator.
   */
  lemma ImuIterationSchedule(st: ImuState, p: Period, clk: ImuClock)
    requires st.sched.remainderAcc < p.rate
    ensures ImuIteration(st, p, clk).0.sched.remainderAcc < p.rate
    ensures !IsLate(clk.lateCheckUs, NextTick(st.sched, p).nextWakeUs) ==> ImuIteration(st, p, clk).0.sched == NextTick(st.sched, p)
    ensures IsLate(clk.lateCheckUs, NextTick(st.sched, p).nextWakeUs) ==> ImuIteration(st, p, clk).0.sched == Schedule(clk.resyncUs, 0)
    ensures ImuIteration(st, p, clk).0.lastImuReadUs == clk.readUs
  {
  }

  function OptionSeq(o: Option<int>): (s: seq<int>)
    ensures |s| <= 1
  {
    if o.Some? then [o.value] else []
  }

  /** The ImuReadTask loop: its locals as fields, and its outputs recorded. */
  class ImuReadTask {
    const period: Period
    const pow: (real, real) -> real
    var nextWakeUs: u32
    var remainderAcc: u32
    var lastImuReadUs: u32
    var lastLateLogMs: u32
    /** g_Sensors.PStatic and g_Sensors.Palt. */
    var pStatic: real
    var palt: real
    /** Coarse sleeps (ms), trims (us), "late" log times (ms) and AHRS steps (s), in order. */
    var sleeps: seq<int>
    var trims: seq<int>
    var lateLogsMs: seq<u32>
    var ahrsDts: seq<real>

    ghost function State(): ImuState
      reads this
    {
      ImuState(Schedule(nextWakeUs, remainderAcc), lastImuReadUs, lastLateLogMs)
    }

    /** Every dt handed to the AHRS is positive, and the late log fires at most once a second. */
    ghost predicate Valid()
      reads this
    {
      remainderAcc < period.rate && DtsPositive() && LogsSpaced()
    }

    ghost predicate DtsPositive()
      reads this
    {
      forall i :: 0 <= i < |ahrsDts| ==> ahrsDts[i] > 0.0
    }

    ghost predicate LogsSpaced()
      reads this
    {
      && (forall i :: 0 < i < |lateLogsMs| ==> LateLogDue(lateLogsMs[i], lateLogsMs[i - 1]))
      && (|lateLogsMs| > 0 ==> lastLateLogMs == lateLogsMs[|lateLogsMs| - 1])
    }

    constructor (rate: Rate, pow: (real, real) -> real, startUs: u32, palt: real)
      ensures Valid() && period == PeriodOf(rate) && this.pow == pow
      ensures State() == ImuState(Schedule(startUs, 0), startUs, 0) && this.palt == palt
      ensures sleeps == [] && trims == [] && lateLogsMs == [] && ahrsDts == []
    {
      period := PeriodOf(rate);
      this.pow := pow;
      nextWakeUs := startUs;
      remainderAcc := 0;
      lastImuReadUs := startUs;
      lastLateLogMs := 0;
      pStatic := 0.0;
      this.palt := palt;
      sleeps, trims, lateLogsMs, ahrsDts := [], [], [], [];
    }

    /** One pass of the loop, given the clock readings, the static pressure read and the configured bias. */
    method Iterate(clk: ImuClock, staticMbar: real, biasMbar: real)
      requires Valid()
      modifies this
      ensures Valid()
      ensures var r := ImuIteration(old(State()), period, clk);
        && State() == r.0
        && sleeps == old(sleeps) + OptionSeq(r.1.sleepMs)
        && trims == old(trims) + OptionSeq(r.1.trimUs)
        && lateLogsMs == old(lateLogsMs) + (if r.1.lateLogged then [clk.nowMs] else [])
        && ahrsDts == old(ahrsDts) + [r.1.dtSeconds]
      ensures pStatic == staticMbar && palt == PressureAltitudeFeet(staticMbar, biasMbar, old(palt), pow)
    {
      ghost var st := State();
      ghost var r := ImuIteration(st, period, clk);
      ScheduleNext();
      ghost var s1 := Schedule(nextWakeUs, remainderAcc);
      assert s1 == NextTick(st.sched, period);
      WaitForWake(clk);
      assert sleeps == old(sleeps) + OptionSeq(r.1.sleepMs);
      assert trims == old(trims) + OptionSeq(r.1.trimUs);
      CheckLate(clk);
      assert Schedule(nextWakeUs, remainderAcc) == r.0.sched && lastLateLogMs == r.0.lastLateLogMs;
      assert lateLogsMs == old(lateLogsMs) + (if r.1.lateLogged then [clk.nowMs] else []);
      ReadImu(clk, staticMbar, biasMbar);
    }

    /** Schedule the next tick. */
    method ScheduleNext()
      requires remainderAcc < period.rate
      modifies this`nextWakeUs, this`remainderAcc
      ensures Schedule(nextWakeUs, remainderAcc) == NextTick(old(Schedule(nextWakeUs, remainderAcc)), period)
      ensures remainderAcc < period.rate
    {
      nextWakeUs := U32(nextWakeUs + period.baseUs);
      remainderAcc := U32(remainderAcc + period.remainderUs);
      if remainderAcc >= period.rate {
        nextWakeUs := U32(nextWakeUs + 1);
        remainderAcc := U32(remainderAcc - period.rate);
      }
    }

    /** Coarse sleep, then microsecond trim. */
    method WaitForWake(clk: ImuClock)
      modifies this`sleeps, this`trims
      ensures sleeps == old(sleeps) + OptionSeq(CoarseSleepMs(SignedDeltaUs(nextWakeUs, clk.sleepCheckUs)))
      ensures trims == old(trims) + OptionSeq(TrimUs(nextWakeUs, clk.trimCheckUs))
    {
      var waitUs := SignedDeltaUs(nextWakeUs, clk.sleepCheckUs);
      if waitUs > COARSE_SLEEP_MIN_US {
        sleeps := sleeps + [(waitUs - SLEEP_MARGIN_US) / 1000];
      }
      waitUs := SignedDeltaUs(nextWakeUs, clk.trimCheckUs);
      if waitUs > 0 {
        trims := trims + [waitUs];
      }
    }

    /** When late: log (at most once a second) and resynchronise to the clock. */
    method CheckLate(clk: ImuClock)
      requires LogsSpaced()
      modifies this`lateLogsMs, this`lastLateLogMs, this`nextWakeUs, this`remainderAcc
      ensures LogsSpaced()
      ensures var late := IsLate(clk.lateCheckUs, old(nextWakeUs));
        var logged := late && LateLogDue(clk.nowMs, old(lastLateLogMs));
        && lateLogsMs == old(lateLogsMs) + (if logged then [clk.nowMs] else [])
        && lastLateLogMs == (if logged then clk.nowMs else old(lastLateLogMs))
        && Schedule(nextWakeUs, remainderAcc) == (if late then Schedule(clk.resyncUs, 0) else old(Schedule(nextWakeUs, remainderAcc)))
    {
      var lateUs := SignedDeltaUs(clk.lateCheckUs, nextWakeUs);
      if lateUs > LATE_LIMIT_US {
        if U32(clk.nowMs - lastLateLogMs) > LATE_LOG_INTERVAL_MS {
          lateLogsMs := lateLogsMs + [clk.nowMs];
          lastLateLogMs := clk.nowMs;
        }
        nextWakeUs := clk.resyncUs;
        remainderAcc := 0;
      }
    }

    /** Read the pressure, update the altitude, and hand the AHRS the elapsed time. */
    method ReadImu(clk: ImuClock, staticMbar: real, biasMbar: real)
      requires DtsPositive()
      modifies this`pStatic, this`palt, this`lastImuReadUs, this`ahrsDts
      ensures DtsPositive()
      ensures pStatic == staticMbar && palt == PressureAltitudeFeet(staticMbar, biasMbar, old(palt), pow)
      ensures lastImuReadUs == clk.readUs
      ensures ahrsDts == old(ahrsDts) + [DtSeconds(clk.readUs, old(lastImuReadUs), period.rate)]
    {
      pStatic := staticMbar;
      palt := PressureAltitudeFeet(staticMbar, biasMbar, palt, pow);
      var dtUs := U32(clk.readUs - lastImuReadUs);
      lastImuReadUs := clk.readUs;
      var dtSeconds := if dtUs > 0 then dtUs as real * 0.000001 else 1.0 / period.rate as real;
      ahrsDts := ahrsDts + [dtSeconds];
    }
  }

  // ---------------------------------------------------------------------
  // The pressure task's read: AOA/IAS gating and the deceleration rate

  /** The configured data source, as far as the read distinguishes it. */
  datatype DataSource = TestPot | RangeSweep | OtherSource

  /** AOA and IAS are recomputed from the pressures except when a test source drives them. */
  predicate ComputesAirData(source: DataSource) {
    source != TestPot && source != RangeSweep
  }

  /**
   * IAS in knots from the smoothed dynamic pressure: sqrt(2q/1.225) converted
   * to knots, through the CAS curve when it is enabled, and 0 when the
   * pressure is not positive.
   */
  function IndicatedAirspeed(pfwdPascal: real, casCurveEnabled: bool, sqrt: real -> real, casCurve: real -> real): real {
    if pfwdPascal > 0.0 then
      var ias := sqrt(2.0 * pfwdPascal / 1.225) * 1.94384;
      if casCurveEnabled then casCurve(ias) else ias
    else 0.0
  }

  /** A non-positive dynamic pressure reads zero airspeed; with a non-negative sqrt and no CAS curve the airspeed is never negative. */
  lemma IndicatedAirspeedSign(pfwdPascal: real, sqrt: real -> real, casCurve: real -> real)
    ensures pfwdPascal <= 0.0 ==> IndicatedAirspeed(pfwdPascal, true, sqrt, casCurve) == 0.0
    ensures sqrt(2.0 * pfwdPascal / 1.225) >= 0.0 ==> IndicatedAirspeed(pfwdPascal, false, sqrt, casCurve) >= 0.0
  {
  }

  /** Samples per second of the deceleration update; on the update path it is 1000/delta and at most 10. */
  function DecelSampleHz(deltaMs: u32): (hz: real)
    ensures deltaMs >= DECEL_INTERVAL_MS ==> 0.0 < hz <= 10.0 && hz * deltaMs as real == 1000.0
  {
    if deltaMs > 0 then 1000.0 / deltaMs as real else 10.0
  }

  /** One pressure reading's worth of inputs from the sensors and the AOA calculator. */
  datatype PressureSample = PressureSample(aoa: real, coeffP: real, pfwdPascal: real, nowMs: u32)

  /** SensorIO::Read's air-data and deceleration state. */
  class SensorReader {
    var ias: real
    var aoa: real
    var coeffP: real
    var decelRate: real
    /** The function-static time of the last deceleration update. */
    var lastDecelUpdateMs: u32
    /** The microsecond time of the last IAS update, which the AHRS reads for its dt. */
    var iasUpdateUs: u32
    const iasDerivative: SavGolLib.SavGolDerivative

    ghost predicate Valid()
      reads this, iasDerivative, iasDerivative.buffer
    {
      iasDerivative.Valid() && iasDerivative.windowSize == IAS_DERIVATIVE_WINDOW
    }

    /** The static's first-entry initialisation reads the clock: firstReadMs. */
    constructor (firstReadMs: u32)
      ensures Valid() && fresh(iasDerivative) && fresh(iasDerivative.buffer)
      ensures ias == 0.0 && aoa == 0.0 && decelRate == 0.0 && lastDecelUpdateMs == firstReadMs && iasUpdateUs == 0
      ensures iasDerivative.State() == SavGolSpec.ResetState()
    {
      iasDerivative := new SavGolLib.SavGolDerivative(IAS_DERIVATIVE_WINDOW);
      ias, aoa, coeffP, decelRate := 0.0, 0.0, 0.0, 0.0;
      lastDecelUpdateMs := firstReadMs;
      iasUpdateUs := 0;
    }

    /**
     * One read: AOA and IAS follow the sample unless a test source drives
     * them; every 100 ms or more the IAS goes through the derivative filter
     * and the deceleration rate becomes its per-sample output times the
     * update frequency. The IAS update time is stamped with the microsecond
     * clock nowUs, and the read ends by re-planning the audio player's tone
     * from the new AOA and IAS.
     */
    method Read(source: DataSource, casCurveEnabled: bool, sample: PressureSample, sqrt: real -> real, casCurve: real -> real,
                nowUs: u32, player: Audio.AudioPlay, audioEnable: bool, th: ToneCalc.ToneThresholds, muteUnderIas: int)
      requires Valid() && player.Valid()
      modifies this, iasDerivative, iasDerivative.buffer, player
      ensures Valid() && player.Valid()
      ensures iasUpdateUs == nowUs
      ensures player.fTonePulseCounter == old(player.fTonePulseCounter) && player.bPulseLevel == old(player.bPulseLevel)
      ensures player.written == old(player.written)
      ensures old(player.bAudioTest) ==> player.CurrentSettings() == old(player.CurrentSettings())
      ensures !old(player.bAudioTest) ==>
        var plan := Audio.TonePlan(audioEnable, aoa, ias, th, muteUnderIas);
        player.CurrentSettings() == old(player.CurrentSettings()).(tone := Audio.ToAudioTone(plan.tone),
                                                                   pulseMaxSamples := Audio.PulseMaxSamples(plan.pulseFreq, player.sampleRate))
      ensures ComputesAirData(source) ==>
        aoa == sample.aoa && coeffP == sample.coeffP && ias == IndicatedAirspeed(sample.pfwdPascal, casCurveEnabled, sqrt, casCurve)
      ensures !ComputesAirData(source) ==> aoa == old(aoa) && coeffP == old(coeffP) && ias == old(ias)
      ensures var deltaMs := U32(sample.nowMs - old(lastDecelUpdateMs));
        if deltaMs >= DECEL_INTERVAL_MS then
          var step := SavGolSpec.Step(old(iasDerivative.State()), IAS_DERIVATIVE_WINDOW,
                                      SavGolLib.FillLength(IAS_DERIVATIVE_WINDOW), iasDerivative.norm, ias);
          && lastDecelUpdateMs == sample.nowMs
          && iasDerivative.State() == step.0
          && decelRate == step.1 * DecelSampleHz(deltaMs)
        else
          && lastDecelUpdateMs == old(lastDecelUpdateMs) && decelRate == old(decelRate)
          && iasDerivative.State() == old(iasDerivative.State())
    {
      UpdateAirData(source, casCurveEnabled, sample, sqrt, casCurve);
      iasUpdateUs := nowUs;
      UpdateDecelRate(sample.nowMs);
      player.UpdateTones(audioEnable, aoa, ias, th, muteUnderIas);
    }

    /** AOA and IAS from the sample, unless a test source drives them. */
    method UpdateAirData(source: DataSource, casCurveEnabled: bool, sample: PressureSample, sqrt: real -> real, casCurve: real -> real)
      modifies this`aoa, this`coeffP, this`ias
      ensures ComputesAirData(source) ==>
        aoa == sample.aoa && coeffP == sample.coeffP && ias == IndicatedAirspeed(sample.pfwdPascal, casCurveEnabled, sqrt, casCurve)
      ensures !ComputesAirData(source) ==> aoa == old(aoa) && coeffP == old(coeffP) && ias == old(ias)
    {
      if ComputesAirData(source) {
        aoa := sample.aoa;
        coeffP := sample.coeffP;
        if sample.pfwdPascal > 0.0 {
          ias := sqrt(2.0 * sample.pfwdPascal / 1.225) * 1.94384;
          if casCurveEnabled {
            ias := casCurve(ias);
          }
        } else {
          ias := 0.0;
        }
      }
    }

    /** Every 100 ms or more: the IAS through the derivative filter, scaled to a per-second rate. */
    method UpdateDecelRate(nowMs: u32)
      requires Valid()
      modifies this`lastDecelUpdateMs, this`decelRate, iasDerivative, iasDerivative.buffer
      ensures Valid()
      ensures var deltaMs := U32(nowMs - old(lastDecelUpdateMs));
        if deltaMs >= DECEL_INTERVAL_MS then
          var step := SavGolSpec.Step(old(iasDerivative.State()), IAS_DERIVATIVE_WINDOW,
                                      SavGolLib.FillLength(IAS_DERIVATIVE_WINDOW), iasDerivative.norm, ias);
          && lastDecelUpdateMs == nowMs
          && iasDerivative.State() == step.0
          && decelRate == step.1 * DecelSampleHz(deltaMs)
        else
          && lastDecelUpdateMs == old(lastDecelUpdateMs) && decelRate == old(decelRate)
          && iasDerivative.State() == old(iasDerivative.State())
    {
      var deltaMs := U32(nowMs - lastDecelUpdateMs);
      if deltaMs >= DECEL_INTERVAL_MS {
        lastDecelUpdateMs := nowMs;
        var sampleHz := if deltaMs > 0 then 1000.0 / deltaMs as real else 10.0;
        var derivative := iasDerivative.Compute(ias);
        decelRate := derivative * sampleHz;
      }
    }
  }
}
