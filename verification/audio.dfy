/**
 * The audio side of the AOA cue: sample scaling and stereo packing, the
 * pulse envelope, the 240-frame write batching towards the I2S sink, voice
 * clip playback and the per-update tone selection.
 *
 * The I2S peripheral is a sink: `written` records the frames handed to each
 * write call, in order. The PCM clips and the two tone tables are data given
 * to the player when it is built.
 */
module Audio {
  import opened Numeric
  import opened ToneCalc

  /** Frames per I2S write, the default DMA frame count. */
  const FRAMES_PER_WRITE: int := 240
  /** Voice clips are recorded quieter than the tones and get this boost. */
  const VOICE_BOOST: real := 3.0
  /** Scale applied to the tone during the low half of a pulse. */
  const PULSE_LOW_SCALE: real := 0.2
  /** Attenuation of the opposite channel for the left/right speaker test clips. */
  const SPEAKER_TEST_CROSS: real := 0.25
  const MIN_PULSE_FREQ: real := 1.0
  const MAX_PULSE_FREQ: real := 25.0

  datatype Voice =
    | VoiceNone | VoiceDatamark | VoiceDisabled | VoiceEnabled | VoiceGLimit | VoiceCalCancel
    | VoiceCalMode | VoiceCalSaved | VoiceOverG | VoiceVnoChime | VoiceLeft | VoiceRight

  datatype AudioTone = ToneNone | ToneLow | ToneHigh

  // ---------------------------------------------------------------------
  // Samples and frames

  /** The float product of a sample and its gain. */
  function Scale(x: real, t: real): real {
    x * t
  }

  /** Scale a sample, truncate toward zero and saturate to the int16 range. */
  function ScaleAndClampI16(sample: i16, scale: real): (r: i16)
    ensures Trunc(Scale(sample as real, scale)) > 0x7FFF ==> r == 0x7FFF
    ensures Trunc(Scale(sample as real, scale)) < -0x8000 ==> r == -0x8000
    ensures -0x8000 <= Trunc(Scale(sample as real, scale)) <= 0x7FFF ==> r == Trunc(Scale(sample as real, scale))
  {
    var scaled := Trunc(Scale(sample as real, scale));
    if scaled > 0x7FFF then 0x7FFF
    else if scaled < -0x8000 then -0x8000
    else scaled
  }

  /** A scale in [0, 1] never makes a sample louder and never flips its sign. */
  lemma AttenuationNeverAmplifies(sample: i16, scale: real)
    requires 0.0 <= scale <= 1.0
    ensures sample >= 0 ==> 0 <= ScaleAndClampI16(sample, scale) <= sample
    ensures sample < 0 ==> sample <= ScaleAndClampI16(sample, scale) <= 0
  {
    AttenuatedTrunc(sample, scale);
  }

  lemma AttenuatedTrunc(sample: int, scale: real)
    requires 0.0 <= scale <= 1.0
    ensures sample >= 0 ==> 0 <= Trunc(Scale(sample as real, scale)) <= sample
    ensures sample < 0 ==> sample <= Trunc(Scale(sample as real, scale)) <= 0
  {
    TruncScaled(sample as real, scale);
  }

  lemma TruncScaled(x: real, t: real)
    requires 0.0 <= t <= 1.0
    ensures x >= 0.0 ==> 0 <= Trunc(Scale(x, t)) && Trunc(Scale(x, t)) as real <= x
    ensures x < 0.0 ==> x <= Trunc(Scale(x, t)) as real && Trunc(Scale(x, t)) <= 0
  {
    ScaleTowardZero(x, t);
    if x >= 0.0 {
      TruncBelow(Scale(x, t), x);
    } else {
      TruncAbove(Scale(x, t), x);
    }
  }

  /** A value in [0, x] truncates to an integer in [0, x]. */
  lemma TruncBelow(r: real, x: real)
    requires 0.0 <= r <= x
    ensures 0 <= Trunc(r) && Trunc(r) as real <= x
  {
    TruncBounds(r);
  }

  /** A value in [x, 0] truncates to an integer in [x, 0]. */
  lemma TruncAbove(r: real, x: real)
    requires x <= r <= 0.0
    ensures x <= Trunc(r) as real && Trunc(r) <= 0
  {
    TruncBounds(r);
  }

  lemma ScaleTowardZero(x: real, t: real)
    requires 0.0 <= t <= 1.0
    ensures (x >= 0.0 ==> 0.0 <= Scale(x, t) <= x) && (x < 0.0 ==> x <= Scale(x, t) <= 0.0)
  {
    assert x * t == t * x;
    assert x - t * x == (1.0 - t) * x;
    if x > 0.0 {
      MulSign(t, x);
      MulSign(1.0 - t, x);
    } else if x < 0.0 {
      MulSign(t, -x);
      MulSign(1.0 - t, -x);
      assert t * (-x) == -(t * x);
      assert (1.0 - t) * (-x) == -((1.0 - t) * x);
    } else {
      assert x * t == 0.0;
    }
  }

  /** Left sample in the low 16 bits, right sample in the high 16 bits. */
  function PackStereoI16(left: i16, right: i16): (w: u32)
  {
    left % U16_MOD + (right % U16_MOD) * U16_MOD
  }

  function LeftOf(w: u32): i16 {
    I16(w % U16_MOD)
  }

  function RightOf(w: u32): i16 {
    I16(w / U16_MOD)
  }

  /** Unpacking a frame gives back both samples. */
  lemma PackStereoRoundTrip(left: i16, right: i16)
    ensures LeftOf(PackStereoI16(left, right)) == left
    ensures RightOf(PackStereoI16(left, right)) == right
  {
    var w := PackStereoI16(left, right);
    assert w % U16_MOD == left % U16_MOD;
    assert w / U16_MOD == right % U16_MOD;
  }

  /** The signed 16-bit little-endian sample at index i of a PCM byte buffer. */
  function PcmSample(data: seq<u8>, i: int): i16
    requires 0 <= i < |data| / 2
  {
    I16(data[2 * i] as int + 0x100 * (data[2 * i + 1] as int))
  }

  /** The stereo frame of sample i of a PCM clip. */
  function PcmFrame(data: seq<u8>, i: int, leftVolume: real, rightVolume: real): u32
    requires 0 <= i < |data| / 2
  {
    PackStereoI16(ScaleAndClampI16(PcmSample(data, i), leftVolume),
                  ScaleAndClampI16(PcmSample(data, i), rightVolume))
  }

  /** One stereo frame per complete sample of a PCM clip. */
  function PcmFrames(data: seq<u8>, leftVolume: real, rightVolume: real): (frames: seq<u32>)
    ensures |frames| == |data| / 2
    ensures forall i :: 0 <= i < |data| / 2 ==> frames[i] == PcmFrame(data, i, leftVolume, rightVolume)
  {
    seq(|data| / 2, i requires 0 <= i < |data| / 2 => PcmFrame(data, i, leftVolume, rightVolume))
  }

  // ---------------------------------------------------------------------
  // Write batching

  /** Frames cut into consecutive writes of 240, the last one possibly shorter. */
  function Chunks(frames: seq<u32>): (cs: seq<seq<u32>>)
    decreases |frames|
  {
    if |frames| == 0 then []
    else if |frames| <= FRAMES_PER_WRITE then [frames]
    else [frames[..FRAMES_PER_WRITE]] + Chunks(frames[FRAMES_PER_WRITE..])
  }

  function Flatten(cs: seq<seq<u32>>): seq<u32>
    decreases |cs|
  {
    if cs == [] then [] else cs[0] + Flatten(cs[1..])
  }

  /** The writes carry exactly the frames, in order, each write 1..240 frames and all but the last a full 240. */
  lemma {:induction false} ChunksShape(frames: seq<u32>)
    ensures Flatten(Chunks(frames)) == frames
    ensures forall k :: 0 <= k < |Chunks(frames)| ==> 0 < |Chunks(frames)[k]| <= FRAMES_PER_WRITE
    ensures forall k :: 0 <= k < |Chunks(frames)| - 1 ==> |Chunks(frames)[k]| == FRAMES_PER_WRITE
    ensures |Chunks(frames)| == (|frames| + FRAMES_PER_WRITE - 1) / FRAMES_PER_WRITE
    decreases |frames|
  {
    if |frames| > FRAMES_PER_WRITE {
      var rest := frames[FRAMES_PER_WRITE..];
      ChunksShape(rest);
      var cs := Chunks(frames);
      assert cs == [frames[..FRAMES_PER_WRITE]] + Chunks(rest);
      assert cs[1..] == Chunks(rest);
      assert Flatten(cs) == frames[..FRAMES_PER_WRITE] + rest;
      assert frames[..FRAMES_PER_WRITE] + rest == frames;
      forall k | 1 <= k < |cs|
        ensures cs[k] == Chunks(rest)[k - 1]
      {
      }
    } else if |frames| > 0 {
      assert Flatten([frames]) == frames + Flatten([]);
    }
  }

  /** Appending a batch after whole batches appends one write. */
  lemma {:induction false} ChunksAppend(done: seq<u32>, batch: seq<u32>)
    requires |done| % FRAMES_PER_WRITE == 0
    requires 0 < |batch| <= FRAMES_PER_WRITE
    ensures Chunks(done + batch) == Chunks(done) + [batch]
    decreases |done|
  {
    if |done| > 0 {
      var rest := done[FRAMES_PER_WRITE..];
      assert (done + batch)[..FRAMES_PER_WRITE] == done[..FRAMES_PER_WRITE];
      assert (done + batch)[FRAMES_PER_WRITE..] == rest + batch;
      ChunksAppend(rest, batch);
      if |rest| == 0 {
        assert done == done[..FRAMES_PER_WRITE];
      }
    } else {
      assert done + batch == batch;
    }
  }

  // ---------------------------------------------------------------------
  // Pulse envelope

  /** Full level while the pulse is high or pulsing is off, 0.2 during the low half. */
  function PulseScale(level: bool, maxSamples: real): (s: real)
    ensures s == 1.0 || s == PULSE_LOW_SCALE
    ensures s == PULSE_LOW_SCALE <==> !level && maxSamples != 0.0
  {
    if level || maxSamples == 0.0 then 1.0 else PULSE_LOW_SCALE
  }

  /** Per sample: when the counter has reached the half period it wraps and the level flips, otherwise it counts up. */
  function PulseStep(counter: real, level: bool, maxSamples: real): (r: (real, bool))
  {
    if counter >= maxSamples then (counter - maxSamples, !level) else (counter + 1.0, level)
  }

  /** The counter stays non-negative and, once below maxSamples + 1, stays there. */
  lemma PulseStepBounds(counter: real, level: bool, maxSamples: real)
    requires 0.0 <= counter && 0.0 <= maxSamples
    ensures 0.0 <= PulseStep(counter, level, maxSamples).0
    ensures counter < maxSamples + 1.0 ==> PulseStep(counter, level, maxSamples).0 < maxSamples + 1.0
  {
  }

  /** Counter, level and number of level flips after n samples. */
  function PulseRun(n: nat, counter: real, level: bool, maxSamples: real): (r: (real, bool, nat))
  {
    if n == 0 then (counter, level, 0)
    else
      var prev := PulseRun(n - 1, counter, level, maxSamples);
      var next := PulseStep(prev.0, prev.1, maxSamples);
      (next.0, next.1, if next.1 != prev.1 then prev.2 + 1 else prev.2)
  }

  /**
   * Every sample adds one to the counter except a flipping one, which takes
   * maxSamples away instead: so each flip accounts for maxSamples + 1
   * samples, and with a bounded counter the level flips once per
   * maxSamples + 1 samples on average.
   */
  lemma PulseCountLaw(n: nat, counter: real, level: bool, maxSamples: real)
    ensures var r := PulseRun(n, counter, level, maxSamples);
      r.0 + (r.2 as real) * (maxSamples + 1.0) == counter + n as real
  {
    PulseRunBalance(n, counter, level, maxSamples);
    var r := PulseRun(n, counter, level, maxSamples);
    RepeatIsProduct(r.2, maxSamples + 1.0);
  }

  /** k added f times. */
  function Repeat(f: nat, k: real): real {
    if f == 0 then 0.0 else Repeat(f - 1, k) + k
  }

  lemma {:induction false} RepeatIsProduct(f: nat, k: real)
    ensures Repeat(f, k) == (f as real) * k
  {
    if f > 0 {
      RepeatIsProduct(f - 1, k);
      assert (f as real) * k == ((f - 1) as real) * k + k;
    }
  }

  lemma {:induction false} PulseRunBalance(n: nat, counter: real, level: bool, maxSamples: real)
    ensures var r := PulseRun(n, counter, level, maxSamples);
      r.0 + Repeat(r.2, maxSamples + 1.0) == counter + n as real
  {
    if n > 0 {
      PulseRunBalance(n - 1, counter, level, maxSamples);
    }
  }

  /** The counter stays in [0, maxSamples + 1) once there, and the level differs from the start after an odd number of flips. */
  lemma {:induction false} PulseRunInvariant(n: nat, counter: real, level: bool, maxSamples: real)
    requires 0.0 <= counter && 0.0 <= maxSamples
    ensures var r := PulseRun(n, counter, level, maxSamples);
      && 0.0 <= r.0
      && (counter < maxSamples + 1.0 ==> r.0 < maxSamples + 1.0)
      && (r.1 == level <==> r.2 % 2 == 0)
  {
    if n > 0 {
      PulseRunInvariant(n - 1, counter, level, maxSamples);
      var prev := PulseRun(n - 1, counter, level, maxSamples);
      PulseStepBounds(prev.0, prev.1, maxSamples);
    }
  }

  /** The stereo frame of one tone sample at the envelope level in force. */
  function ToneFrame(sample: i16, level: bool, maxSamples: real, leftVolume: real, rightVolume: real): u32 {
    var scale := PulseScale(level, maxSamples);
    PackStereoI16(ScaleAndClampI16(sample, leftVolume * scale), ScaleAndClampI16(sample, rightVolume * scale))
  }

  /**
   * The frames of a tone buffer played under the pulse envelope: sample i at
   * the level reached after i samples. The envelope state after the buffer
   * is PulseRun(|data|, ...).
   */
  function ToneFrames(data: seq<i16>, counter: real, level: bool, maxSamples: real,
                      leftVolume: real, rightVolume: real): (frames: seq<u32>)
    ensures |frames| == |data|
  {
    seq(|data|, i requires 0 <= i < |data| =>
      ToneFrame(data[i], PulseRun(i, counter, level, maxSamples).1, maxSamples, leftVolume, rightVolume))
  }

  /** Frame i of a played tone buffer is the sample at the envelope level reached after i samples. */
  lemma ToneFrameAt(data: seq<i16>, counter: real, level: bool, maxSamples: real,
                    leftVolume: real, rightVolume: real, i: nat, levelAt: bool)
    requires i < |data| && levelAt == PulseRun(i, counter, level, maxSamples).1
    ensures ToneFrames(data, counter, level, maxSamples, leftVolume, rightVolume)[i]
      == ToneFrame(data[i], levelAt, maxSamples, leftVolume, rightVolume)
  {
  }

  // ---------------------------------------------------------------------
  // Settings

  /** Volume percentage to a fraction, saturated to [0, 1]. */
  function VolumeFraction(percent: int): (v: real)
    ensures 0.0 <= v <= 1.0
    ensures percent <= 0 ==> v == 0.0
    ensures percent >= 100 ==> v == 1.0
    ensures 0 <= percent <= 100 ==> v * 100.0 == percent as real
  {
    if percent < 0 then 0.0
    else if percent > 100 then 1.0
    else percent as real / 100.0
  }

  /** A louder setting never gives a quieter volume. */
  lemma VolumeFractionMonotone(p1: int, p2: int)
    requires p1 <= p2
    ensures VolumeFraction(p1) <= VolumeFraction(p2)
  {
  }

  /**
   * Half period of the pulse envelope in samples. Pulse rates outside
   * [1, 25] switch pulsing off (0); inside, two half periods take 1/f seconds.
   */
  function PulseMaxSamples(pulseFreq: real, sampleRate: real): (m: real)
    requires sampleRate > 0.0
    ensures m >= 0.0
    ensures m == 0.0 <==> pulseFreq < MIN_PULSE_FREQ || pulseFreq > MAX_PULSE_FREQ
    ensures MIN_PULSE_FREQ <= pulseFreq <= MAX_PULSE_FREQ ==> m * 2.0 * pulseFreq == sampleRate
  {
    if pulseFreq < MIN_PULSE_FREQ || pulseFreq > MAX_PULSE_FREQ then 0.0
    else sampleRate / (pulseFreq * 2.0)
  }

  /** Channel volumes for a voice clip; each speaker test clip plays its own side at full volume and the other at a quarter. */
  function VoiceVolumes(v: Voice, volume: real, leftGain: real, rightGain: real): (r: (real, real))
  {
    var left := volume * VOICE_BOOST * leftGain;
    var right := volume * VOICE_BOOST * rightGain;
    match v
    case VoiceLeft => (left, right * SPEAKER_TEST_CROSS)
    case VoiceRight => (left * SPEAKER_TEST_CROSS, right)
    case _ => (left, right)
  }

  /** The speaker test clips are the only ones whose channel balance differs from the gains'. */
  lemma VoiceVolumesBalance(v: Voice, volume: real, leftGain: real, rightGain: real)
    ensures var r := VoiceVolumes(v, volume, leftGain, rightGain);
      && (v != VoiceRight ==> r.0 == volume * VOICE_BOOST * leftGain)
      && (v != VoiceLeft ==> r.1 == volume * VOICE_BOOST * rightGain)
      && (v == VoiceLeft ==> r.1 * 4.0 == volume * VOICE_BOOST * rightGain)
      && (v == VoiceRight ==> r.0 * 4.0 == volume * VOICE_BOOST * leftGain)
  {
  }

  /** The cast from the calculator's tone to the player's tone (same order of enumerators). */
  function ToAudioTone(t: ToneType): (a: AudioTone)
    ensures a == ToneNone <==> t == None
    ensures a == ToneLow <==> t == Low
    ensures a == ToneHigh <==> t == High
  {
    match t
    case None => ToneNone
    case Low => ToneLow
    case High => ToneHigh
  }

  /** Pulse rate held while muted on the ground, so the tone picks up quickly on the takeoff roll. */
  const TAXI_PULSE_FREQ: real := 20.0

  /**
   * The tone an update commands: audio switched off lets only the stall
   * warning through; at or below the mute airspeed the tone is off; otherwise
   * the AOA tone of the current flap setting.
   */
  function TonePlan(audioEnable: bool, aoa: real, ias: real, th: ToneThresholds, muteUnderIas: int): (r: ToneResult)
    ensures !audioEnable ==> r == CalculateToneMuted(aoa, ias, th.stallWarn, muteUnderIas)
    ensures audioEnable && ias <= muteUnderIas as real ==> r == ToneResult(None, TAXI_PULSE_FREQ)
    ensures audioEnable && ias > muteUnderIas as real ==> r == CalculateTone(aoa, th)
  {
    if !audioEnable then CalculateToneMuted(aoa, ias, th.stallWarn, muteUnderIas)
    else if ias <= muteUnderIas as real then ToneResult(None, TAXI_PULSE_FREQ)
    else CalculateTone(aoa, th)
  }

  /**
   * Above the mute airspeed an AOA at or past the stall warning always
   * commands the 20 PPS high tone, whether or not the pilot switched audio
   * off; at or below it nothing sounds.
   */
  lemma StallWarningNeverMuted(audioEnable: bool, aoa: real, ias: real, th: ToneThresholds, muteUnderIas: int)
    ensures aoa >= th.stallWarn && ias > muteUnderIas as real ==> TonePlan(audioEnable, aoa, ias, th, muteUnderIas) == StallWarning
    ensures ias <= muteUnderIas as real ==> TonePlan(audioEnable, aoa, ias, th, muteUnderIas).tone == None
    ensures !audioEnable && TonePlan(audioEnable, aoa, ias, th, muteUnderIas) != Silent ==> TonePlan(audioEnable, aoa, ias, th, muteUnderIas) == StallWarning
  {
    RegionsPartition(aoa, th);
    ToneIdentifiesRegion(aoa, th);
  }

  // ---------------------------------------------------------------------
  // The player

  /** The player's settings, everything but the write log and the pulse envelope position. */
  datatype Settings = Settings(voice: Voice, tone: AudioTone, volume: real, leftGain: real, rightGain: real,
                               pulseMaxSamples: real, audioTest: bool)

  class AudioPlay {
    /** SAMPLE_RATE, in samples per second. */
    const sampleRate: real
    /** Whether I2S came up in Init; nothing is written when it did not. */
    const i2sOk: bool
    /** The PCM clip of each voice (little-endian 16-bit mono). */
    const clips: Voice -> seq<u8>
    /** The precomputed 400 Hz and 1600 Hz tone buffers. */
    const tone400: seq<i16>
    const tone1600: seq<i16>

    var enVoice: Voice
    var enTone: AudioTone
    var fVolume: real
    var fLeftGain: real
    var fRightGain: real
    var fTonePulseMaxSamples: real
    var fTonePulseCounter: real
    /** The function-static pulse level of the tone player, high at start. */
    var bPulseLevel: bool
    var bAudioTest: bool
    /** Frames of every I2S write so far, one entry per write. */
    var written: seq<seq<u32>>

    ghost predicate Valid()
      reads this
    {
      sampleRate > 0.0
      && 0.0 <= fVolume <= 1.0
      && 0.0 <= fTonePulseMaxSamples
      && 0.0 <= fTonePulseCounter
    }

    ghost function CurrentSettings(): Settings
      reads this
    {
      Settings(enVoice, enTone, fVolume, fLeftGain, fRightGain, fTonePulseMaxSamples, bAudioTest)
    }

    constructor (sampleRate: real, i2sOk: bool, clips: Voice -> seq<u8>, tone400: seq<i16>, tone1600: seq<i16>)
      requires sampleRate > 0.0
      ensures Valid()
      ensures this.sampleRate == sampleRate && this.i2sOk == i2sOk && this.clips == clips
      ensures this.tone400 == tone400 && this.tone1600 == tone1600
      ensures CurrentSettings() == Settings(VoiceNone, ToneNone, 0.5, 1.0, 1.0, 0.0, false)
      ensures fTonePulseCounter == 0.0 && bPulseLevel && written == []
    {
      this.sampleRate := sampleRate;
      this.i2sOk := i2sOk;
      this.clips := clips;
      this.tone400 := tone400;
      this.tone1600 := tone1600;
      enVoice := VoiceNone;
      enTone := ToneNone;
      fVolume := 0.5;
      fLeftGain := 1.0;
      fRightGain := 1.0;
      fTonePulseMaxSamples := 0.0;
      fTonePulseCounter := 0.0;
      bPulseLevel := true;
      bAudioTest := false;
      written := [];
    }

    method SetVolume(iVolumePercent: int)
      requires Valid()
      modifies this
      ensures Valid()
      ensures CurrentSettings() == old(CurrentSettings()).(volume := VolumeFraction(iVolumePercent))
      ensures fTonePulseCounter == old(fTonePulseCounter) && bPulseLevel == old(bPulseLevel) && written == old(written)
    {
      if iVolumePercent < 0 {
        fVolume := 0.0;
      } else if iVolumePercent > 100 {
        fVolume := 1.0;
      } else {
        fVolume := iVolumePercent as real / 100.0;
      }
    }

    /** Channel gains, taken as given. */
    method SetGain(leftGain: real, rightGain: real)
      requires Valid()
      modifies this
      ensures Valid()
      ensures CurrentSettings() == old(CurrentSettings()).(leftGain := leftGain, rightGain := rightGain)
      ensures fTonePulseCounter == old(fTonePulseCounter) && bPulseLevel == old(bPulseLevel) && written == old(written)
    {
      fLeftGain := leftGain;
      fRightGain := rightGain;
    }

    method SetVoice(v: Voice)
      requires Valid()
      modifies this
      ensures Valid()
      ensures CurrentSettings() == old(CurrentSettings()).(voice := v)
      ensures fTonePulseCounter == old(fTonePulseCounter) && bPulseLevel == old(bPulseLevel) && written == old(written)
    {
      enVoice := v;
    }

    method SetTone(t: AudioTone)
      requires Valid()
      modifies this
      ensures Valid()
      ensures CurrentSettings() == old(CurrentSettings()).(tone := t)
      ensures fTonePulseCounter == old(fTonePulseCounter) && bPulseLevel == old(bPulseLevel) && written == old(written)
    {
      enTone := t;
    }

    method SetPulseFreq(fPulseFreq: real)
      requires Valid()
      modifies this
      ensures Valid()
      ensures CurrentSettings() == old(CurrentSettings()).(pulseMaxSamples := PulseMaxSamples(fPulseFreq, sampleRate))
      ensures fTonePulseCounter == old(fTonePulseCounter) && bPulseLevel == old(bPulseLevel) && written == old(written)
    {
      if fPulseFreq < 1.0 || fPulseFreq > 25.0 {
        fTonePulseMaxSamples := 0.0;
      } else {
        fTonePulseMaxSamples := sampleRate / (fPulseFreq * 2.0);
      }
    }

    /** Play a PCM clip: one frame per sample, handed to I2S in writes of 240 frames. */
    method PlayPcmBuffer(pData: seq<u8>, fLeftVolume: real, fRightVolume: real)
      requires Valid()
      modifies this
      ensures Valid()
      ensures CurrentSettings() == old(CurrentSettings())
      ensures fTonePulseCounter == old(fTonePulseCounter) && bPulseLevel == old(bPulseLevel)
      ensures written == old(written) + (if i2sOk then Chunks(PcmFrames(pData, fLeftVolume, fRightVolume)) else [])
    {
      if !i2sOk {
        return;
      }
      ghost var frames := PcmFrames(pData, fLeftVolume, fRightVolume);
      var aFrames := new u32[FRAMES_PER_WRITE];
      var iFrameCount := 0;
      var writes: seq<seq<u32>> := [];
      ghost var done := 0;
      var iSampleCount := |pData| / 2;
      for iSampleIdx := 0 to iSampleCount
        modifies aFrames
        invariant 0 <= iFrameCount < FRAMES_PER_WRITE && done + iFrameCount == iSampleIdx
        invariant done % FRAMES_PER_WRITE == 0
        invariant aFrames[..iFrameCount] == frames[done..iSampleIdx]
        invariant writes == Chunks(frames[..done])
      {
        var iSample := PcmSample(pData, iSampleIdx);
        var iLeftValue := ScaleAndClampI16(iSample, fLeftVolume);
        var iRightValue := ScaleAndClampI16(iSample, fRightVolume);
        iFrameCount, writes, done := PushFrame(aFrames, iFrameCount, PackStereoI16(iLeftValue, iRightValue), writes, frames, done, iSampleIdx);
      }
      writes := FlushFrames(aFrames, iFrameCount, writes, frames, done);
      written := written + writes;
    }

    /** Play a tone buffer under the pulse envelope, in writes of 240 frames. */
    method PlayToneBuffer(pData: seq<i16>, fLeftVolume: real, fRightVolume: real)
      requires Valid()
      modifies this
      ensures Valid()
      ensures CurrentSettings() == old(CurrentSettings())
      ensures i2sOk ==>
        && written == old(written) + Chunks(ToneFrames(pData, old(fTonePulseCounter), old(bPulseLevel),
                                                       fTonePulseMaxSamples, fLeftVolume, fRightVolume))
        && fTonePulseCounter == PulseRun(|pData|, old(fTonePulseCounter), old(bPulseLevel), fTonePulseMaxSamples).0
        && bPulseLevel == PulseRun(|pData|, old(fTonePulseCounter), old(bPulseLevel), fTonePulseMaxSamples).1
      ensures !i2sOk ==>
        written == old(written) && fTonePulseCounter == old(fTonePulseCounter) && bPulseLevel == old(bPulseLevel)
    {
      if !i2sOk {
        return;
      }
      var writes, counter, level := ToneBatches(pData, fTonePulseCounter, bPulseLevel, fTonePulseMaxSamples,
                                                fLeftVolume, fRightVolume);
      written := written + writes;
      fTonePulseCounter, bPulseLevel := counter, level;
    }

    /** Play the voice that was set, then clear it so it plays only once. */
    method PlayVoice()
      requires Valid()
      modifies this
      ensures Valid()
      ensures CurrentSettings() == old(CurrentSettings()).(voice := VoiceNone)
      ensures fTonePulseCounter == old(fTonePulseCounter) && bPulseLevel == old(bPulseLevel)
      ensures written == old(written) + VoiceWrites(old(enVoice), old(fVolume), old(fLeftGain), old(fRightGain))
    {
      PlayVoiceClip(enVoice);
      enVoice := VoiceNone;
    }

    /** What playing voice v writes: its clip at the voice volumes, nothing for no voice or without I2S. */
    ghost function VoiceWrites(v: Voice, volume: real, leftGain: real, rightGain: real): seq<seq<u32>>
      reads this
    {
      if !i2sOk || v == VoiceNone then []
      else
        var vol := VoiceVolumes(v, volume, leftGain, rightGain);
        Chunks(PcmFrames(clips(v), vol.0, vol.1))
    }

    method PlayVoiceClip(v: Voice)
      requires Valid()
      modifies this
      ensures Valid()
      ensures CurrentSettings() == old(CurrentSettings())
      ensures fTonePulseCounter == old(fTonePulseCounter) && bPulseLevel == old(bPulseLevel)
      ensures written == old(written) + VoiceWrites(v, old(fVolume), old(fLeftGain), old(fRightGain))
    {
      var (fLeftVoiceVolume, fRightVoiceVolume) := VoiceVolumes(v, fVolume, fLeftGain, fRightGain);
      if v != VoiceNone {
        PlayPcmBuffer(clips(v), fLeftVoiceVolume, fRightVoiceVolume);
      }
    }

    /** The tone table of a tone: low is the 400 Hz table, high the 1600 Hz table. */
    function ToneTable(t: AudioTone): seq<i16>
      requires t != ToneNone
    {
      if t == ToneLow then tone400 else tone1600
    }

    /** Play one buffer of the tone that was set, at the master volume times each channel's gain. */
    method PlayTone()
      requires Valid()
      modifies this
      ensures Valid()
      ensures CurrentSettings() == old(CurrentSettings())
      ensures enTone == ToneNone || !i2sOk ==>
        written == old(written) && fTonePulseCounter == old(fTonePulseCounter) && bPulseLevel == old(bPulseLevel)
      ensures enTone != ToneNone && i2sOk ==>
        && written == old(written) + Chunks(ToneFrames(ToneTable(enTone), old(fTonePulseCounter), old(bPulseLevel),
                                                       fTonePulseMaxSamples, old(fVolume * fLeftGain), old(fVolume * fRightGain)))
        && fTonePulseCounter == PulseRun(|ToneTable(enTone)|, old(fTonePulseCounter), old(bPulseLevel), fTonePulseMaxSamples).0
        && bPulseLevel == PulseRun(|ToneTable(enTone)|, old(fTonePulseCounter), old(bPulseLevel), fTonePulseMaxSamples).1
    {
      match enTone {
        case ToneLow => PlayToneBuffer(tone400, fVolume * fLeftGain, fVolume * fRightGain);
        case ToneHigh => PlayToneBuffer(tone1600, fVolume * fLeftGain, fVolume * fRightGain);
        case ToneNone =>
      }
    }

    /** Choose the tone and pulse rate for the current AOA; an audio test in progress leaves both alone. */
    method UpdateTones(audioEnable: bool, aoa: real, ias: real, th: ToneThresholds, muteUnderIas: int)
      requires Valid()
      modifies this
      ensures Valid()
      ensures fTonePulseCounter == old(fTonePulseCounter) && bPulseLevel == old(bPulseLevel) && written == old(written)
      ensures old(bAudioTest) ==> CurrentSettings() == old(CurrentSettings())
      ensures !old(bAudioTest) ==>
        var plan := TonePlan(audioEnable, aoa, ias, th, muteUnderIas);
        CurrentSettings() == old(CurrentSettings()).(tone := ToAudioTone(plan.tone),
                                                     pulseMaxSamples := PulseMaxSamples(plan.pulseFreq, sampleRate))
    {
      if bAudioTest {
        return;
      }
      var result: ToneResult;
      if !audioEnable {
        result := CalculateToneMuted(aoa, ias, th.stallWarn, muteUnderIas);
      } else if ias <= muteUnderIas as real {
        result := ToneResult(None, TAXI_PULSE_FREQ);
      } else {
        result := CalculateTone(aoa, th);
      }
      SetTone(ToAudioTone(result.tone));
      SetPulseFreq(result.pulseFreq);
    }
  }

  /** The envelope state reached after i samples of a buffer started in (counter0, level0). */
  predicate EnvelopeAt(i: nat, counter: real, level: bool, counter0: real, level0: bool, maxSamples: real) {
    counter == PulseRun(i, counter0, level0, maxSamples).0 && level == PulseRun(i, counter0, level0, maxSamples).1 && 0.0 <= counter
  }

  /**
   * One sample of a tone buffer: the frame at the envelope level in force,
   * then one step of the envelope, where at the half period the counter wraps
   * and the level flips.
   */
  method ToneSample(pData: seq<i16>, i: int, counter: real, level: bool, maxSamples: real,
                    fLeftVolume: real, fRightVolume: real, ghost counter0: real, ghost level0: bool)
    returns (frame: u32, counter': real, level': bool)
    requires 0 <= i < |pData| && 0.0 <= maxSamples
    requires EnvelopeAt(i, counter, level, counter0, level0, maxSamples)
    ensures frame == ToneFrames(pData, counter0, level0, maxSamples, fLeftVolume, fRightVolume)[i]
    ensures EnvelopeAt(i + 1, counter', level', counter0, level0, maxSamples)
  {
    frame := ToneFrame(pData[i], level, maxSamples, fLeftVolume, fRightVolume);
    ToneFrameAt(pData, counter0, level0, maxSamples, fLeftVolume, fRightVolume, i, level);
    if counter >= maxSamples {
      counter' := counter - maxSamples;
      level' := !level;
    } else {
      counter' := counter + 1.0;
      level' := level;
    }
  }

  /**
   * Store one frame in the batch buffer and hand the batch to I2S once it
   * holds 240 frames. The writes so far are always the whole batches of the
   * frames produced so far; the buffer holds the frames after them.
   */
  method PushFrame(aFrames: array<u32>, iFrameCount: int, frame: u32, writes: seq<seq<u32>>,
                   ghost frames: seq<u32>, ghost done: int, ghost idx: int)
    returns (count: int, writes': seq<seq<u32>>, ghost done': int)
    requires aFrames.Length == FRAMES_PER_WRITE
    requires 0 <= iFrameCount < FRAMES_PER_WRITE && 0 <= done && done % FRAMES_PER_WRITE == 0
    requires idx == done + iFrameCount && idx < |frames| && frame == frames[idx]
    requires aFrames[..iFrameCount] == frames[done..done + iFrameCount]
    requires writes == Chunks(frames[..done])
    modifies aFrames
    ensures 0 <= count < FRAMES_PER_WRITE && 0 <= done' && done' % FRAMES_PER_WRITE == 0
    ensures done' + count == done + iFrameCount + 1
    ensures aFrames[..count] == frames[done'..done' + count]
    ensures writes' == Chunks(frames[..done'])
  {
    ghost var pending := aFrames[..iFrameCount];
    aFrames[iFrameCount] := frame;
    count := iFrameCount + 1;
    assert aFrames[..count] == pending + [frame];
    assert frames[done..done + count] == frames[done..done + iFrameCount] + [frame];
    writes', done' := writes, done;
    if count == FRAMES_PER_WRITE {
      Flush(frames, done, aFrames[..count], writes);
      writes' := writes + [aFrames[..count]];
      WholeBatchesStep(done);
      done' := done + count;
      count := 0;
    }
  }

  /**
   * The loop of PlayToneBuffer: each sample scaled by the channel volume and
   * the envelope level in force, the envelope advanced one sample, the frame
   * batched towards I2S. Returns the writes and the envelope state after the
   * buffer.
   */
  method ToneBatches(pData: seq<i16>, counter0: real, level0: bool, maxSamples: real,
                     fLeftVolume: real, fRightVolume: real)
    returns (writes: seq<seq<u32>>, counter: real, level: bool)
    requires 0.0 <= counter0 && 0.0 <= maxSamples
    ensures writes == Chunks(ToneFrames(pData, counter0, level0, maxSamples, fLeftVolume, fRightVolume))
    ensures (counter, level) == (PulseRun(|pData|, counter0, level0, maxSamples).0, PulseRun(|pData|, counter0, level0, maxSamples).1)
    ensures 0.0 <= counter
  {
    ghost var frames := ToneFrames(pData, counter0, level0, maxSamples, fLeftVolume, fRightVolume);
    var aFrames := new u32[FRAMES_PER_WRITE];
    var iFrameCount := 0;
    writes := [];
    ghost var done := 0;
    counter, level := counter0, level0;
    for iWordIdx := 0 to |pData|
      invariant EnvelopeAt(iWordIdx, counter, level, counter0, level0, maxSamples)
      invariant 0 <= iFrameCount < FRAMES_PER_WRITE && done + iFrameCount == iWordIdx
      invariant done % FRAMES_PER_WRITE == 0
      invariant aFrames[..iFrameCount] == frames[done..iWordIdx]
      invariant writes == Chunks(frames[..done])
    {
      var frame;
      frame, counter, level := ToneSample(pData, iWordIdx, counter, level, maxSamples, fLeftVolume, fRightVolume,
                                          counter0, level0);
      iFrameCount, writes, done := PushFrame(aFrames, iFrameCount, frame, writes, frames, done, iWordIdx);
    }
    writes := FlushFrames(aFrames, iFrameCount, writes, frames, done);
  }

  /** Hand the last, partial batch to I2S if there is one. */
  method FlushFrames(aFrames: array<u32>, iFrameCount: int, writes: seq<seq<u32>>,
                     ghost frames: seq<u32>, ghost done: int)
    returns (writes': seq<seq<u32>>)
    requires 0 <= iFrameCount < FRAMES_PER_WRITE && iFrameCount <= aFrames.Length
    requires 0 <= done && done % FRAMES_PER_WRITE == 0 && done + iFrameCount == |frames|
    requires aFrames[..iFrameCount] == frames[done..]
    requires writes == Chunks(frames[..done])
    ensures writes' == Chunks(frames)
  {
    writes' := writes;
    if iFrameCount > 0 {
      Flush(frames, done, aFrames[..iFrameCount], writes);
      writes' := writes + [aFrames[..iFrameCount]];
    }
    assert frames[..done + iFrameCount] == frames;
  }

  lemma WholeBatchesStep(done: int)
    requires done % FRAMES_PER_WRITE == 0
    ensures (done + FRAMES_PER_WRITE) % FRAMES_PER_WRITE == 0
  {
  }

  /** One write of a full or final batch extends the writes so far by exactly that batch. */
  lemma Flush(frames: seq<u32>, done: int, batch: seq<u32>, writes: seq<seq<u32>>)
    requires 0 <= done && done % FRAMES_PER_WRITE == 0
    requires 0 < |batch| <= FRAMES_PER_WRITE && done + |batch| <= |frames|
    requires batch == frames[done..done + |batch|]
    requires writes == Chunks(frames[..done])
    ensures writes + [batch] == Chunks(frames[..done + |batch|])
  {
    assert frames[..done + |batch|] == frames[..done] + batch;
    ChunksAppend(frames[..done], batch);
  }
}
