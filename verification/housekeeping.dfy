/**
 * The 100 ms housekeeping loop: the over-G voice warning and the Vno chime,
 * each with its repeat cooldown, the 3-D audio channel gains that follow the
 * ball, the volume knob every second tick and the heartbeat LED every third
 * tick. The sensor readings of a tick and the configuration are inputs; the
 * audio player is driven through its setters and the LED channel is a sink.
 */
module Housekeeping {
  import opened Wrappers
  import opened Numeric
  import opened Heartbeat
  import Audio

  /** 30 ticks of 100 ms between over-G warnings. */
  const GLIMIT_REPEAT_TIMEOUT_TICKS: int := 30
  /** Roll or yaw rate (degrees per second) at which the load limits tighten. */
  const ASYMMETRIC_GYRO_LIMIT: real := 15.0
  const ASYMMETRIC_LOAD_FACTOR: real := 0.666
  const SMOOTHING_FACTOR: real := 0.1
  const VOLUME_SMOOTHING_FACTOR: real := 0.5
  /** The largest chime interval whose tick count still fits an int. */
  const MAX_SAFE_VNO_INTERVAL: int := 214748364

  datatype Config = Config(
    overGWarning: bool, loadLimitPositive: real, loadLimitNegative: real,
    vnoChimeEnabled: bool, vno: int, vnoChimeInterval: u32,
    audio3D: bool,
    volumeControl: bool, volumeLowAnalog: int, volumeHighAnalog: int, defaultVolume: int)

  /**
   * What one tick reads: roll and yaw rates, corrected vertical and lateral
   * G, airspeed, the audio-enable switch and the volume knob, which is None
   * when the sensor mutex was not taken within 5 ms.
   */
  datatype Inputs = Inputs(
    gRoll: real, gYaw: real, accelVertCorr: real, accelLatCorr: real, ias: real,
    audioEnable: bool, volumeReading: Option<int>)

  /** The task's locals that live across ticks. */
  datatype HkState = HkState(
    tick: u32, gLimitCooldown: int, vnoCooldown: int, volPos: int, volInit: bool,
    channelGain: real, blink: BlinkState)

  /** What a tick does outside its own state: voice, gains and volume set on the player, the LED duty written. */
  datatype Effects = Effects(voice: Option<Audio.Voice>, gains: Option<(real, real)>,
                             volumePercent: Option<int>, duty: Option<int>)

  /**
   * The knob maps through a non-empty analog range when volume control is
   * on. With equal ends the firmware divides by zero and casts the infinite
   * or NaN quotient to int, which C leaves undefined; the model does not
   * choose a value for that case and requires a non-empty range instead.
   */
  predicate VolumeRangeOk(cfg: Config) {
    cfg.volumeControl ==> cfg.volumeLowAnalog != cfg.volumeHighAnalog
  }

  function InitialState(): HkState {
    HkState(0, 0, 0, 0, false, 0.0, BlinkState(false, 0))
  }

  // ---------------------------------------------------------------------
  // Cooldowns

  /**
   * A repeat cooldown: while it is positive it only counts down; at zero or
   * below a trigger fires and reloads it.
   */
  function Cooldown(c: int, trigger: bool, reload: int): (r: (int, bool))
    ensures r.1 <==> c <= 0 && trigger
    ensures r.1 ==> r.0 == reload
    ensures !r.1 ==> r.0 == (if c > 0 then c - 1 else c)
  {
    if c > 0 then (c - 1, false)
    else if trigger then (reload, true)
    else (c, false)
  }

  /** The cooldown and its firings over a sequence of trigger readings. */
  function Cooldowns(c: int, triggers: seq<bool>, reload: int): (r: (int, seq<bool>))
    ensures |r.1| == |triggers|
    decreases |triggers|
  {
    if triggers == [] then (c, [])
    else
      var first := Cooldown(c, triggers[0], reload);
      var rest := Cooldowns(first.0, triggers[1..], reload);
      (rest.0, [first.1] + rest.1)
  }

  /** A non-negative cooldown with a non-negative reload never goes negative. */
  lemma {:induction false} CooldownsStayNonNegative(c: int, triggers: seq<bool>, reload: int)
    requires 0 <= c && 0 <= reload
    ensures 0 <= Cooldowns(c, triggers, reload).0
    decreases |triggers|
  {
    if triggers != [] {
      CooldownsStayNonNegative(Cooldown(c, triggers[0], reload).0, triggers[1..], reload);
    }
  }

  /** Nothing fires during the first c ticks of a cooldown of c, whatever the triggers. */
  lemma {:induction false} CooldownQuiet(c: int, triggers: seq<bool>, reload: int)
    ensures forall i :: 0 <= i < |triggers| && i < c ==> !Cooldowns(c, triggers, reload).1[i]
    decreases |triggers|
  {
    if triggers != [] {
      var first := Cooldown(c, triggers[0], reload);
      CooldownQuiet(first.0, triggers[1..], reload);
      var fires := Cooldowns(c, triggers, reload).1;
      assert fires == [first.1] + Cooldowns(first.0, triggers[1..], reload).1;
      forall i | 0 <= i < |triggers| && i < c
        ensures !fires[i]
      {
        if i > 0 {
          assert fires[i] == Cooldowns(first.0, triggers[1..], reload).1[i - 1];
        }
      }
    }
  }

  /** Two firings are always more than `reload` ticks apart. */
  lemma {:induction false} CooldownSpacing(c: int, triggers: seq<bool>, reload: int)
    requires 0 <= c && 0 <= reload
    ensures forall i, j :: (0 <= i < j < |triggers| && Cooldowns(c, triggers, reload).1[i]
      && Cooldowns(c, triggers, reload).1[j]) ==> j - i > reload
    decreases |triggers|
  {
    if triggers != [] {
      var first := Cooldown(c, triggers[0], reload);
      var tail := Cooldowns(first.0, triggers[1..], reload).1;
      var fires := Cooldowns(c, triggers, reload).1;
      assert fires == [first.1] + tail;
      CooldownSpacing(first.0, triggers[1..], reload);
      CooldownQuiet(first.0, triggers[1..], reload);
      forall i, j | 0 <= i < j < |triggers| && fires[i] && fires[j]
        ensures j - i > reload
      {
        assert fires[j] == tail[j - 1];
        if i == 0 {
          assert first.0 == reload;
        } else {
          assert fires[i] == tail[i - 1];
        }
      }
    }
  }

  // ---------------------------------------------------------------------
  // Over-G warning

  /** The load limits: tightened to 0.666 of the configured ones while rolling or yawing at 15 deg/s or more. */
  function GLimits(cfg: Config, gRoll: real, gYaw: real): (r: (real, real))
  {
    if Abs(gRoll) >= ASYMMETRIC_GYRO_LIMIT || Abs(gYaw) >= ASYMMETRIC_GYRO_LIMIT
    then (cfg.loadLimitPositive * ASYMMETRIC_LOAD_FACTOR, cfg.loadLimitNegative * ASYMMETRIC_LOAD_FACTOR)
    else (cfg.loadLimitPositive, cfg.loadLimitNegative)
  }

  predicate GLimitTriggered(cfg: Config, sense: Inputs) {
    var limits := GLimits(cfg, sense.gRoll, sense.gYaw);
    cfg.overGWarning && (sense.accelVertCorr >= limits.0 || sense.accelVertCorr <= limits.1)
  }

  /**
   * With a positive and a negative limit, the asymmetric limits lie strictly
   * inside the symmetric ones, so a rolling or yawing aircraft is warned at
   * every load that would warn it in symmetric flight, and earlier.
   */
  lemma AsymmetricLimitsTighter(cfg: Config, sense: Inputs)
    requires cfg.loadLimitNegative < 0.0 < cfg.loadLimitPositive
    requires Abs(sense.gRoll) >= ASYMMETRIC_GYRO_LIMIT || Abs(sense.gYaw) >= ASYMMETRIC_GYRO_LIMIT
    ensures cfg.loadLimitNegative < GLimits(cfg, sense.gRoll, sense.gYaw).1 < 0.0
    ensures 0.0 < GLimits(cfg, sense.gRoll, sense.gYaw).0 < cfg.loadLimitPositive
    ensures cfg.overGWarning && (sense.accelVertCorr >= cfg.loadLimitPositive || sense.accelVertCorr <= cfg.loadLimitNegative)
      ==> GLimitTriggered(cfg, sense)
  {
  }

  // ---------------------------------------------------------------------
  // Vno chime

  predicate VnoTriggered(cfg: Config, ias: real) {
    cfg.vnoChimeEnabled && ias > cfg.vno as real
  }

  /**
   * The chime's cooldown in ticks: the interval in seconds, at least 1, times
   * 10, computed in unsigned 32-bit arithmetic and stored in an int.
   */
  function VnoReload(interval: u32): (r: int)
    ensures interval <= MAX_SAFE_VNO_INTERVAL ==> r == (if interval == 0 then 1 else interval) * 10 && r >= 10
  {
    var uInterval := if interval == 0 then 1 else interval;
    I32(U32(uInterval * 10))
  }

  /** Past MAX_SAFE_VNO_INTERVAL seconds the tick count wraps negative and the chime repeats on every tick. */
  lemma VnoReloadWrapsForHugeIntervals()
    ensures VnoReload(MAX_SAFE_VNO_INTERVAL + 1) < 0
  {
    assert (MAX_SAFE_VNO_INTERVAL + 1) * 10 == 0x8000_0002;
  }

  // ---------------------------------------------------------------------
  // 3-D audio

  /** AUDIO_3D_CURVE: gain against |lateral G|, 0.08 G per ball width. */
  function Curve3D(x: real): real {
    -92.822 * x * x + 20.025 * x
  }

  /** The curve gain clamped to [0, 1], carrying the sign of the lateral G. */
  function CurveGain(lateralG: real): (g: real)
    ensures -1.0 <= g <= 1.0
    ensures lateralG >= 0.0 ==> g >= 0.0
    ensures lateralG < 0.0 ==> g <= 0.0
  {
    var c := Clamp(Curve3D(Abs(lateralG)), 0.0, 1.0);
    if lateralG >= 0.0 then c else -c
  }

  /** One smoothing step of the channel gain, clamped to [-1, 1]. */
  function ChannelGainStep(prev: real, lateralG: real): (g: real)
    ensures -1.0 <= g <= 1.0
  {
    Clamp(SMOOTHING_FACTOR * CurveGain(lateralG) + (1.0 - SMOOTHING_FACTOR) * prev, -1.0, 1.0)
  }

  /** From a gain in range the clamp never acts: the step is a plain exponential average. */
  lemma SmoothingStaysInRange(prev: real, lateralG: real)
    requires -1.0 <= prev <= 1.0
    ensures ChannelGainStep(prev, lateralG) == SMOOTHING_FACTOR * CurveGain(lateralG) + (1.0 - SMOOTHING_FACTOR) * prev
  {
  }

  /** Left and right gains: |-1 + g| and |1 + g|. */
  function ChannelGains(g: real): (r: (real, real))
  {
    (Abs(-1.0 + g), Abs(1.0 + g))
  }

  /** Over [-1, 1] the channel gain pans: both gains in [0, 2], summing to 2, the right one louder for a positive gain. */
  lemma GainsBalanced(g: real)
    requires -1.0 <= g <= 1.0
    ensures ChannelGains(g) == (1.0 - g, 1.0 + g)
    ensures 0.0 <= ChannelGains(g).0 <= 2.0 && 0.0 <= ChannelGains(g).1 <= 2.0
    ensures ChannelGains(g).0 + ChannelGains(g).1 == 2.0
    ensures g > 0.0 <==> ChannelGains(g).1 > ChannelGains(g).0
  {
  }

  // ---------------------------------------------------------------------
  // Volume

  /** The knob position after a reading: the first reading is taken as is, later ones averaged half and half. */
  function SmoothVolume(volInit: bool, volPos: int, reading: Option<int>): (r: (bool, int))
  {
    match reading
    case None => (volInit, volPos)
    case Some(raw) =>
      if !volInit then (true, raw)
      else (true, Trunc(VOLUME_SMOOTHING_FACTOR * raw as real + (1.0 - VOLUME_SMOOTHING_FACTOR) * volPos as real))
  }

  /** The average of two readings, truncated, lies between them. */
  lemma SmoothVolumeBetween(volPos: int, raw: int)
    ensures Min(raw, volPos) <= SmoothVolume(true, volPos, Some(raw)).1
    ensures SmoothVolume(true, volPos, Some(raw)).1 <= (if raw < volPos then volPos else raw)
  {
    var avg := VOLUME_SMOOTHING_FACTOR * raw as real + (1.0 - VOLUME_SMOOTHING_FACTOR) * volPos as real;
    assert Min(raw, volPos) as real <= avg <= (if raw < volPos then volPos else raw) as real;
    TruncBounds(avg);
  }

  /** The knob position mapped from the analog range onto 0..100 and truncated. */
  function VolumePercent(volPos: int, cfg: Config): int
    requires cfg.volumeLowAnalog != cfg.volumeHighAnalog
  {
    Trunc(MapFloat(volPos as real, cfg.volumeLowAnalog as real, cfg.volumeHighAnalog as real, 0.0, 100.0))
  }

  /** The ends of the analog range are 0 % and 100 %. */
  lemma VolumePercentEnds(cfg: Config)
    requires cfg.volumeLowAnalog != cfg.volumeHighAnalog
    ensures VolumePercent(cfg.volumeLowAnalog, cfg) == 0
    ensures VolumePercent(cfg.volumeHighAnalog, cfg) == 100
  {
    MapFloatEndpoints(cfg.volumeLowAnalog as real, cfg.volumeHighAnalog as real, 0.0, 100.0);
    TruncBounds(0.0);
    TruncBounds(100.0);
  }

  // ---------------------------------------------------------------------
  // One tick

  /**
   * One pass of the loop body: the tick counter advances (wrapping at 2^32);
   * both cooldowns step, the Vno chime overriding an over-G voice set in the
   * same tick; 3-D audio smooths the channel gain; every second tick reads
   * the volume; every third tick steps the heartbeat blink.
   */
  function HkStep(s: HkState, cfg: Config, sense: Inputs): (r: (HkState, Effects))
    requires VolumeRangeOk(cfg)
  {
    var tick := U32(s.tick + 1);
    var g := Cooldown(s.gLimitCooldown, GLimitTriggered(cfg, sense), GLIMIT_REPEAT_TIMEOUT_TICKS);
    var v := Cooldown(s.vnoCooldown, VnoTriggered(cfg, sense.ias), VnoReload(cfg.vnoChimeInterval));
    var gain := GainAfter(cfg, s.channelGain, sense.accelLatCorr);
    var vol := VolumeAfter(cfg, tick, s.volInit, s.volPos, sense.volumeReading);
    var blink := BlinkAfter(tick, s.blink, sense.audioEnable);
    (HkState(tick, g.0, v.0, vol.1, vol.0, gain, blink.0),
     Effects(VoiceAfter(g.1, v.1), GainsAfter(cfg, gain), PercentAfter(cfg, tick, vol.1), blink.1))
  }

  /** The voice set in a tick: the Vno chime's SetVoice comes after the over-G one. */
  function VoiceAfter(gFired: bool, vnoFired: bool): Option<Audio.Voice> {
    if vnoFired then Some(Audio.VoiceVnoChime) else if gFired then Some(Audio.VoiceGLimit) else None
  }

  function GainAfter(cfg: Config, prev: real, lateralG: real): real {
    if cfg.audio3D then ChannelGainStep(prev, lateralG) else prev
  }

  function GainsAfter(cfg: Config, gain: real): Option<(real, real)> {
    if cfg.audio3D then Some(ChannelGains(gain)) else None
  }

  function VolumeAfter(cfg: Config, tick: int, volInit: bool, volPos: int, reading: Option<int>): (bool, int) {
    if tick % 2 == 0 && cfg.volumeControl then SmoothVolume(volInit, volPos, reading) else (volInit, volPos)
  }

  function PercentAfter(cfg: Config, tick: int, volPos: int): Option<int>
    requires VolumeRangeOk(cfg)
  {
    if tick % 2 != 0 then None
    else if cfg.volumeControl then Some(VolumePercent(volPos, cfg))
    else Some(cfg.defaultVolume)
  }

  function BlinkAfter(tick: int, blink: BlinkState, audioEnable: bool): (BlinkState, Option<int>) {
    if tick % 3 == 0 then BlinkStep(blink, audioEnable) else (blink, None)
  }

  /**
   * The warnings of one tick: which voice is set, and when. HkStep takes its
   * cooldowns and its voice from exactly these Cooldown and VoiceAfter calls,
   * which do not depend on the volume map.
   */
  lemma TickWarnings(s: HkState, cfg: Config, sense: Inputs)
    ensures var g := Cooldown(s.gLimitCooldown, GLimitTriggered(cfg, sense), GLIMIT_REPEAT_TIMEOUT_TICKS);
      var v := Cooldown(s.vnoCooldown, VnoTriggered(cfg, sense.ias), VnoReload(cfg.vnoChimeInterval));
      var voice := VoiceAfter(g.1, v.1);
      && (voice == Some(Audio.VoiceVnoChime) <==> s.vnoCooldown <= 0 && VnoTriggered(cfg, sense.ias))
      && (voice == Some(Audio.VoiceGLimit) <==>
            s.gLimitCooldown <= 0 && GLimitTriggered(cfg, sense) && !(s.vnoCooldown <= 0 && VnoTriggered(cfg, sense.ias)))
      && (voice.Some? ==> voice == Some(Audio.VoiceVnoChime) || voice == Some(Audio.VoiceGLimit))
      && (s.gLimitCooldown <= 0 && GLimitTriggered(cfg, sense) ==> g.0 == GLIMIT_REPEAT_TIMEOUT_TICKS)
      && (s.gLimitCooldown > 0 ==> g.0 == s.gLimitCooldown - 1)
      && (s.vnoCooldown > 0 ==> v.0 == s.vnoCooldown - 1)
  {
  }

  /** With sane chime intervals both cooldowns stay non-negative, the channel gain in [-1, 1] and the blink counter in [0, 2]. */
  lemma TickKeepsBounds(s: HkState, cfg: Config, sense: Inputs)
    requires VolumeRangeOk(cfg) && cfg.vnoChimeInterval <= MAX_SAFE_VNO_INTERVAL
    requires 0 <= s.gLimitCooldown && 0 <= s.vnoCooldown && -1.0 <= s.channelGain <= 1.0
    requires 0 <= s.blink.slowBlinkCounter < SLOW_BLINK_TICKS
    ensures var r := HkStep(s, cfg, sense);
      && 0 <= r.0.gLimitCooldown && 0 <= r.0.vnoCooldown
      && -1.0 <= r.0.channelGain <= 1.0
      && 0 <= r.0.blink.slowBlinkCounter < SLOW_BLINK_TICKS
  {
  }

  /** Volume is set exactly on even ticks; with the knob off it is the configured default. */
  lemma TickVolume(s: HkState, cfg: Config, sense: Inputs)
    requires VolumeRangeOk(cfg)
    ensures var r := HkStep(s, cfg, sense);
      && (r.1.volumePercent.Some? <==> r.0.tick % 2 == 0)
      && (r.0.tick % 2 == 0 && !cfg.volumeControl ==> r.1.volumePercent == Some(cfg.defaultVolume))
      && (r.0.tick % 2 != 0 || !cfg.volumeControl ==> r.0.volPos == s.volPos && r.0.volInit == s.volInit)
  {
  }

  /**
   * Every third tick the LED steps exactly as the heartbeat task's blink
   * machine; otherwise it is left alone. HkStep's blink state and duty are
   * this BlinkAfter call on the advanced tick counter.
   */
  lemma TickBlink(s: HkState, sense: Inputs)
    ensures var tick := U32(s.tick + 1);
      var b := BlinkAfter(tick, s.blink, sense.audioEnable);
      && (tick % 3 == 0 ==> b == BlinkStep(s.blink, sense.audioEnable))
      && (tick % 3 != 0 ==> b.0 == s.blink && b.1 == None)
  {
  }

  function WithVoice(st: Audio.Settings, voice: Option<Audio.Voice>): Audio.Settings {
    if voice.Some? then st.(voice := voice.value) else st
  }

  function WithGains(st: Audio.Settings, gains: Option<(real, real)>): Audio.Settings {
    if gains.Some? then st.(leftGain := gains.value.0, rightGain := gains.value.1) else st
  }

  function WithVolume(st: Audio.Settings, percent: Option<int>): Audio.Settings {
    if percent.Some? then st.(volume := Audio.VolumeFraction(percent.value)) else st
  }

  /** The over-G voice followed by the Vno voice is the voice VoiceAfter picks. */
  lemma VoiceCompose(st: Audio.Settings, gFired: bool, vnoFired: bool)
    ensures WithVoice(WithVoice(st, VoiceAfter(gFired, false)), VoiceAfter(false, vnoFired)) == WithVoice(st, VoiceAfter(gFired, vnoFired))
  {
  }

  /** The player's settings after the tick's setter calls, in the order the loop makes them. */
  function ApplyEffects(st: Audio.Settings, e: Effects): Audio.Settings {
    WithVolume(WithGains(WithVoice(st, e.voice), e.gains), e.volumePercent)
  }

  /** The HousekeepingTask loop, its locals as fields, driving the audio player. */
  class HousekeepingTask {
    var uTick: u32
    var iGLimitCooldown: int
    var iVnoCooldown: int
    var iVolPos: int
    var bVolInit: bool
    var fChannelGain: real
    var bLedOn: bool
    var iSlowBlinkCounter: int
    /** Every duty written to the LED channel so far. */
    var ledDuties: seq<int>
    const audio: Audio.AudioPlay

    ghost function State(): HkState
      reads this
    {
      HkState(uTick, iGLimitCooldown, iVnoCooldown, iVolPos, bVolInit, fChannelGain, BlinkState(bLedOn, iSlowBlinkCounter))
    }

    constructor (audio: Audio.AudioPlay)
      ensures State() == InitialState() && ledDuties == [] && this.audio == audio
    {
      this.audio := audio;
      uTick := 0;
      iGLimitCooldown := 0;
      iVnoCooldown := 0;
      iVolPos := 0;
      bVolInit := false;
      fChannelGain := 0.0;
      bLedOn := false;
      iSlowBlinkCounter := 0;
      ledDuties := [];
    }

    /** One 100 ms pass of the loop body (the delay and the log lines are not modelled). */
    method Tick(cfg: Config, sense: Inputs)
      requires audio.Valid() && VolumeRangeOk(cfg)
      modifies this, audio
      ensures audio.Valid()
      ensures State() == HkStep(old(State()), cfg, sense).0
      ensures audio.CurrentSettings() == ApplyEffects(old(audio.CurrentSettings()), HkStep(old(State()), cfg, sense).1)
      ensures audio.fTonePulseCounter == old(audio.fTonePulseCounter) && audio.bPulseLevel == old(audio.bPulseLevel)
      ensures audio.written == old(audio.written)
      ensures ledDuties == old(ledDuties) + Written(HkStep(old(State()), cfg, sense).1.duty)
    {
      uTick := U32(uTick + 1);
      AudioChecks(cfg, sense);
      BlinkLed(sense.audioEnable);
    }

    /** The four player-side steps of a tick, in the loop's order. */
    method AudioChecks(cfg: Config, sense: Inputs)
      requires audio.Valid() && VolumeRangeOk(cfg)
      modifies this`iGLimitCooldown, this`iVnoCooldown, this`fChannelGain, this`iVolPos, this`bVolInit, audio
      ensures audio.Valid()
      ensures iGLimitCooldown == Cooldown(old(iGLimitCooldown), GLimitTriggered(cfg, sense), GLIMIT_REPEAT_TIMEOUT_TICKS).0
      ensures iVnoCooldown == Cooldown(old(iVnoCooldown), VnoTriggered(cfg, sense.ias), VnoReload(cfg.vnoChimeInterval)).0
      ensures fChannelGain == GainAfter(cfg, old(fChannelGain), sense.accelLatCorr)
      ensures (bVolInit, iVolPos) == VolumeAfter(cfg, uTick, old(bVolInit), old(iVolPos), sense.volumeReading)
      ensures audio.CurrentSettings() == ApplyEffects(old(audio.CurrentSettings()), Effects(
        VoiceAfter(Cooldown(old(iGLimitCooldown), GLimitTriggered(cfg, sense), GLIMIT_REPEAT_TIMEOUT_TICKS).1,
                   Cooldown(old(iVnoCooldown), VnoTriggered(cfg, sense.ias), VnoReload(cfg.vnoChimeInterval)).1),
        GainsAfter(cfg, fChannelGain), PercentAfter(cfg, uTick, iVolPos), None))
      ensures audio.fTonePulseCounter == old(audio.fTonePulseCounter) && audio.bPulseLevel == old(audio.bPulseLevel)
      ensures audio.written == old(audio.written)
    {
      ghost var a0 := audio.CurrentSettings();
      ghost var g := Cooldown(iGLimitCooldown, GLimitTriggered(cfg, sense), GLIMIT_REPEAT_TIMEOUT_TICKS).1;
      ghost var v := Cooldown(iVnoCooldown, VnoTriggered(cfg, sense.ias), VnoReload(cfg.vnoChimeInterval)).1;
      GLimitCheck(cfg, sense);
      VnoCheck(cfg, sense);
      VoiceCompose(a0, g, v);
      Audio3D(cfg, sense.accelLatCorr);
      VolumeUpdate(cfg, sense.volumeReading);
    }

    /** Over-G warning with its cooldown. */
    method GLimitCheck(cfg: Config, sense: Inputs)
      requires audio.Valid()
      modifies this`iGLimitCooldown, audio
      ensures audio.Valid()
      ensures iGLimitCooldown == Cooldown(old(iGLimitCooldown), GLimitTriggered(cfg, sense), GLIMIT_REPEAT_TIMEOUT_TICKS).0
      ensures audio.CurrentSettings() == WithVoice(old(audio.CurrentSettings()),
        VoiceAfter(Cooldown(old(iGLimitCooldown), GLimitTriggered(cfg, sense), GLIMIT_REPEAT_TIMEOUT_TICKS).1, false))
      ensures audio.fTonePulseCounter == old(audio.fTonePulseCounter) && audio.bPulseLevel == old(audio.bPulseLevel)
      ensures audio.written == old(audio.written)
    {
      if iGLimitCooldown > 0 {
        iGLimitCooldown := iGLimitCooldown - 1;
      } else if cfg.overGWarning {
        var fCalcGLimitPos: real;
        var fCalcGLimitNeg: real;
        if Abs(sense.gRoll) >= ASYMMETRIC_GYRO_LIMIT || Abs(sense.gYaw) >= ASYMMETRIC_GYRO_LIMIT {
          fCalcGLimitPos := cfg.loadLimitPositive * 0.666;
          fCalcGLimitNeg := cfg.loadLimitNegative * 0.666;
        } else {
          fCalcGLimitPos := cfg.loadLimitPositive;
          fCalcGLimitNeg := cfg.loadLimitNegative;
        }
        if sense.accelVertCorr >= fCalcGLimitPos || sense.accelVertCorr <= fCalcGLimitNeg {
          audio.SetVoice(Audio.VoiceGLimit);
          iGLimitCooldown := GLIMIT_REPEAT_TIMEOUT_TICKS;
        }
      }
    }

    /** Vno chime with its cooldown. */
    method VnoCheck(cfg: Config, sense: Inputs)
      requires audio.Valid()
      modifies this`iVnoCooldown, audio
      ensures audio.Valid()
      ensures iVnoCooldown == Cooldown(old(iVnoCooldown), VnoTriggered(cfg, sense.ias), VnoReload(cfg.vnoChimeInterval)).0
      ensures audio.CurrentSettings() == WithVoice(old(audio.CurrentSettings()),
        VoiceAfter(false, Cooldown(old(iVnoCooldown), VnoTriggered(cfg, sense.ias), VnoReload(cfg.vnoChimeInterval)).1))
      ensures audio.fTonePulseCounter == old(audio.fTonePulseCounter) && audio.bPulseLevel == old(audio.bPulseLevel)
      ensures audio.written == old(audio.written)
    {
      if iVnoCooldown > 0 {
        iVnoCooldown := iVnoCooldown - 1;
      } else if cfg.vnoChimeEnabled && sense.ias > cfg.vno as real {
        audio.SetVoice(Audio.VoiceVnoChime);
        var uInterval: int := cfg.vnoChimeInterval;
        if uInterval == 0 {
          uInterval := 1;
        }
        iVnoCooldown := I32(U32(uInterval * 10));
      }
    }

    /** 3-D audio, when configured: smooth the channel gain toward the curve gain and pan the player. */
    method Audio3D(cfg: Config, fLateralG: real)
      requires audio.Valid()
      modifies this`fChannelGain, audio
      ensures audio.Valid()
      ensures fChannelGain == GainAfter(cfg, old(fChannelGain), fLateralG)
      ensures audio.CurrentSettings() == WithGains(old(audio.CurrentSettings()), GainsAfter(cfg, fChannelGain))
      ensures audio.fTonePulseCounter == old(audio.fTonePulseCounter) && audio.bPulseLevel == old(audio.bPulseLevel)
      ensures audio.written == old(audio.written)
    {
      if !cfg.audio3D {
        return;
      }
      var fCurveGain := Curve3D(Abs(fLateralG));
      if fCurveGain > 1.0 {
        fCurveGain := 1.0;
      }
      if fCurveGain < 0.0 {
        fCurveGain := 0.0;
      }
      if fLateralG < 0.0 {
        fCurveGain := -fCurveGain;
      }
      fChannelGain := SMOOTHING_FACTOR * fCurveGain + (1.0 - SMOOTHING_FACTOR) * fChannelGain;
      if fChannelGain > 1.0 {
        fChannelGain := 1.0;
      }
      if fChannelGain < -1.0 {
        fChannelGain := -1.0;
      }
      var fLeftGain := Abs(-1.0 + fChannelGain);
      var fRightGain := Abs(1.0 + fChannelGain);
      audio.SetGain(fLeftGain, fRightGain);
    }

    /** On every second tick, the volume knob (or the default volume). */
    method VolumeUpdate(cfg: Config, reading: Option<int>)
      requires audio.Valid() && VolumeRangeOk(cfg)
      modifies this`iVolPos, this`bVolInit, audio
      ensures audio.Valid()
      ensures (bVolInit, iVolPos) == VolumeAfter(cfg, uTick, old(bVolInit), old(iVolPos), reading)
      ensures audio.CurrentSettings() == WithVolume(old(audio.CurrentSettings()), PercentAfter(cfg, uTick, iVolPos))
      ensures audio.fTonePulseCounter == old(audio.fTonePulseCounter) && audio.bPulseLevel == old(audio.bPulseLevel)
      ensures audio.written == old(audio.written)
    {
      if uTick % 2 != 0 {
        return;
      }
      if cfg.volumeControl {
        if reading.Some? {
          var iRaw := reading.value;
          if !bVolInit {
            iVolPos := iRaw;
            bVolInit := true;
          } else {
            iVolPos := Trunc(VOLUME_SMOOTHING_FACTOR * iRaw as real + (1.0 - VOLUME_SMOOTHING_FACTOR) * iVolPos as real);
          }
        }
        var iVolumePercent := Trunc(MapFloat(iVolPos as real, cfg.volumeLowAnalog as real,
                                             cfg.volumeHighAnalog as real, 0.0, 100.0));
        audio.SetVolume(iVolumePercent);
      } else {
        audio.SetVolume(cfg.defaultVolume);
      }
    }

    /** On every third tick, the heartbeat LED. */
    method BlinkLed(audioEnable: bool)
      modifies this`bLedOn, this`iSlowBlinkCounter, this`ledDuties
      ensures BlinkState(bLedOn, iSlowBlinkCounter) == BlinkAfter(uTick, old(BlinkState(bLedOn, iSlowBlinkCounter)), audioEnable).0
      ensures ledDuties == old(ledDuties) + Written(BlinkAfter(uTick, old(BlinkState(bLedOn, iSlowBlinkCounter)), audioEnable).1)
    {
      if uTick % 3 != 0 {
        return;
      }
      if audioEnable {
        iSlowBlinkCounter := 0;
        if bLedOn {
          ledDuties := ledDuties + [0];
          bLedOn := false;
        } else {
          ledDuties := ledDuties + [200];
          bLedOn := true;
        }
      } else {
        iSlowBlinkCounter := iSlowBlinkCounter + 1;
        if iSlowBlinkCounter >= 3 {
          iSlowBlinkCounter := 0;
          if bLedOn {
            ledDuties := ledDuties + [0];
            bLedOn := false;
          } else {
            ledDuties := ledDuties + [200];
            bLedOn := true;
          }
        }
      }
    }
  }
}
