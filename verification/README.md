# OnSpeed angle-of-attack firmware: a Dafny model

OnSpeed is an angle-of-attack (AOA) indicator for light aircraft. The Gen3
ESP32 box reads pressure and inertial sensors, estimates AOA and attitude,
and plays an audio cue in the pilot's headset: a slow-pulsing low tone
approaching the L/Dmax band, a solid low tone in the on-speed band, a
pulsing high tone above it, and a fast 20 PPS high tone at the stall
warning. It also reads flight data from an EFIS on a serial port. The M5
display unit receives the box's "#1" serial frame and shows it.

This project models the core of that firmware in Dafny and proves
properties about the model:

- `tone_calc.dfy` (module ToneCalc): the choice of tone and pulse rate from
  AOA and the four thresholds, and the muted variant.
- `audio.dfy` (module Audio): the audio player. It covers sample scaling and
  clamping, stereo packing, the volume and gain setters, and the pulse
  envelope. It also covers PCM and tone buffer playback in batches to the
  I2S sink, voice clips, and the tone update.
- `housekeeping.dfy` and `heartbeat.dfy`: the 100 ms housekeeping tick and
  the 300 ms heartbeat tick. The housekeeping tick covers the over-G and Vno
  warning cooldowns, the 3-D audio gain, the volume knob smoothing and the
  LED blink.
- `sensor_io.dfy` (module SensorIO): the IMU task's wake-time scheduler,
  which spreads 1 000 000 us over `rate` ticks with a remainder
  accumulator. It also covers the dt fallback, the pressure-altitude guard,
  and the IAS and deceleration gating of `SensorIO::Read`, with its IAS
  time stamp and its closing call to the audio player's `UpdateTones`.
- `mcp3202.dfy`: the three-byte MCP3202 ADC exchange and its 12-bit result.
- `savgol_spec.dfy`, `savgol_lib.dfy`, `savgol_m5.dfy`: the two copies of the
  Savitzky-Golay derivative filter (the shared library copy and the M5
  copy). There is one shared reference definition and one class per copy.
- `efis_codec.dfy`, `efis_crc.dfy`, `efis_records.dfy`, `efis_serial.dfy`:
  the EFIS serial reader. The codec covers field parsing, checksums and the
  MGL length. The CRC file covers the VN-300 CRC-16. The records file covers
  record recognition and decoding for Dynon SkyView, Dynon D10, Garmin G5 and
  G3X, MGL and VN-300. The serial file holds the three byte-at-a-time
  framing machines and the `EfisSerialIO` class that runs them in place.
- `m5_serial.dfy` (module M5Serial): the M5 display's frame assembly,
  checksum, field slicing and the post-processing of the displayed values.
- `ekf6_matrix.dfy`, `ekf6_model.dfy`, `ekf6_correction.dfy`,
  `ekf6_invert.dfy`, `ekf6.dfy`: the six-state extended Kalman filter.
  - The sparse predict and correct steps are proved equal to their dense
    matrix forms.
  - The 4x4 Gauss-Jordan inversion is proved to fail exactly when a pivot
    column stalls, and otherwise to return a right inverse.
  - The `Filter` class runs those steps in place on arrays.
- `numeric.dfy`: integer widths (wrap-around to 16 and 32 bits), C's
  truncating float-to-int conversion, clamping and the firmware's
  `mapfloat`, plus an Option type.

Floating-point values are modelled as reals. Clocks (`millis`, `micros`),
the UART and the SPI bus are inputs or recorded outputs. The math library
(sin, cos, pow, sqrt, strtof, toFloat) enters as function parameters.

## Model

| member | source | states |
|---|---|---|
| ToneCalc.CalculateTone | software/Libraries/onspeed_core/ToneCalc.cpp:7-36 | AOA at or above the stall warning gives the High tone at 20 pulses/s. Above the on-speed slow edge it gives High at the mapfloat rate, in [1.5, 6.2). Inside the on-speed band it gives a solid Low. In the pulsed low band (only when L/Dmax is below the fast edge) it gives Low at the mapfloat rate, in [1.5, 8.2). Otherwise it is silent |
| ToneCalc.RegionsPartition | software/Libraries/onspeed_core/ToneCalc.cpp:9-35 | the five regions the if-chain tests cover every AOA and are pairwise disjoint, for any thresholds |
| ToneCalc.ToneIdentifiesRegion | software/Libraries/onspeed_core/ToneCalc.cpp:7-36 | in both directions: the tone type, the 20 pulse/s warning and the solid Low each identify their region |
| ToneCalc.PulseRateAtBandPoints | software/Libraries/onspeed_core/ToneCalc.cpp:14-33 | each pulsed band starts at its minimum rate and gives the middle rate half way through the band |
| ToneCalc.PulseRateMonotone | software/Libraries/onspeed_core/ToneCalc.cpp:14-33 | inside each pulsed band the pulse rate never falls as AOA rises |
| ToneCalc.NoPulsedLowWhenLdMaxNotBelowFast | software/Libraries/onspeed_core/ToneCalc.cpp:27-35 | when L/Dmax is not below the fast edge, an AOA below the fast edge gives no tone (the full-flap case) |
| ToneCalc.CalculateToneMuted | software/Libraries/onspeed_core/ToneCalc.cpp:38-45 | the stall warning sounds exactly when AOA >= stall warning and IAS > the mute airspeed; otherwise there is silence |
| ToneCalc.MutedImpliesUnmuted | software/Libraries/onspeed_core/ToneCalc.cpp:38-45 | whenever the muted variant sounds, the normal selection gives the same stall warning |
| ToneCalc.CleanConfigurationExamples | test/test_tone_calc/test_tone_calc.cpp:34-111 | the clean-flap thresholds 8.03 / 11.25 / 13.84 / 16.48 give silence, pulsed Low at 1.5, solid Low, the middle High rate and the stall warning at the sample AOAs of that test file |
| Numeric.MapFloatEndpoints | software/Libraries/onspeed_core/ToneCalc.cpp:16-18 | mapfloat sends the input ends to the output ends and the midpoint to the midpoint |
| Numeric.MapFloatRange | software/Libraries/onspeed_core/ToneCalc.cpp:29-31 | on a rising input range the mapped value stays in the output range, strictly inside it for inputs strictly inside |
| Numeric.U32Add | software/OnSpeed-Gen3-ESP32/SensorIO.cpp:109-115 | wrapping an intermediate uint32_t sum to 32 bits does not change the wrapped total |
| Numeric.TruncBounds | software/OnSpeed-Gen3-ESP32/Audio.cpp:85-93 | a float-to-int conversion moves the value toward zero by less than one |
| Numeric.ClampInt | software/OnSpeed-M5-Display/src/SerialRead.cpp:208-209 | constrain returns the bound that was crossed, or the value itself when it is in range |
| Heartbeat.BlinkStep | software/OnSpeed-Gen3-ESP32/HeartBeat.cpp:38-71 | the LED toggles on every tick while audio is enabled, and on every third tick while muted. A duty is written exactly when the LED toggles: 200 when it lights, 0 when it goes dark. The counter stays at most 2 |
| Heartbeat.CounterStaysInRange | software/OnSpeed-Gen3-ESP32/HeartBeat.cpp:31-71 | over any run of ticks the slow-blink counter stays in [0, 2] |
| Heartbeat.FastBlink | software/OnSpeed-Gen3-ESP32/HeartBeat.cpp:38-52 | n enabled ticks write n alternating duties, starting from the opposite of the current LED, and reset the counter |
| Heartbeat.SlowBlink | software/OnSpeed-Gen3-ESP32/HeartBeat.cpp:53-71 | n muted ticks leave the counter at (c + n) mod 3, write (c + n) div 3 duties and toggle the LED that many times |
| Heartbeat.HeartbeatLed.Tick | software/OnSpeed-Gen3-ESP32/HeartBeat.cpp:36-71 | one loop pass updates ledOn and the counter as BlinkStep does and appends the duty written, if any |
| Heartbeat.HeartbeatLed.Run | software/OnSpeed-Gen3-ESP32/HeartBeat.cpp:33-72 | a run of passes ends in the Blinks state and appends every written duty in order |
| Heartbeat.HeartbeatLed.constructor | software/OnSpeed-Gen3-ESP32/HeartBeat.cpp:22-31 | the LED starts off with the slow-blink counter at 0 and nothing written |
| Mcp3202.MaskChannel | software/OnSpeed-Gen3-ESP32/Mcp3202Adc.cpp:13 | the channel is reduced to 0 or 1 (the low bit) |
| Mcp3202.ConfigByte | software/OnSpeed-Gen3-ESP32/Mcp3202Adc.cpp:19 | channel 0 gives 0xA0 and channel 1 gives 0xE0 |
| Mcp3202.Assemble | software/OnSpeed-Gen3-ESP32/Mcp3202Adc.cpp:31 | the result's high byte is the low nibble of the second reply and its low byte is the third reply |
| Mcp3202.AssembleRange | software/OnSpeed-Gen3-ESP32/Mcp3202Adc.cpp:31 | every result is a 12-bit count, and the high nibble of the second reply never matters |
| Mcp3202.AssembleRoundTrip | software/OnSpeed-Gen3-ESP32/Mcp3202Adc.cpp:24-31 | every count 0..4095 sent as B11..B8 after any null bits, then B7..B0, is read back exactly |
| Mcp3202.ConversionFramed | software/OnSpeed-Gen3-ESP32/Mcp3202Adc.cpp:21-29 | the three transfers happen in order: after beginTransaction with chip select low, and before chip select goes high and the transaction ends |
| Mcp3202.Mcp3202Read | software/OnSpeed-Gen3-ESP32/Mcp3202Adc.cpp:8-32 | with no bus it returns 0 and logs nothing. Otherwise it logs exactly one framed conversion (start bit, config byte, 0x00) and returns the 12-bit count assembled from the replies |
| Mcp3202.SpiBus.constructor | software/OnSpeed-Gen3-ESP32/Mcp3202Adc.cpp:21-29 | a new bus has made no transfers and logged no events |
| Mcp3202.SpiBus.Begin | software/OnSpeed-Gen3-ESP32/Mcp3202Adc.cpp:21 | beginTransaction appends its clock rate to the bus log and transfers nothing |
| Mcp3202.SpiBus.Select | software/OnSpeed-Gen3-ESP32/Mcp3202Adc.cpp:22-28 | the chip-select level is appended to the bus log and transfers nothing |
| Mcp3202.SpiBus.TransferByte | software/OnSpeed-Gen3-ESP32/Mcp3202Adc.cpp:24-26 | a transfer returns the device's next reply and logs the byte sent with the byte received |
| Mcp3202.SpiBus.End | software/OnSpeed-Gen3-ESP32/Mcp3202Adc.cpp:29 | endTransaction is appended to the bus log and transfers nothing |
| Mcp3202.SensorSpi.constructor | software/OnSpeed-Gen3-ESP32/Mcp3202Adc.cpp:10 | the sensor handle holds the given bus, which may be missing |
| Housekeeping.Cooldown | software/OnSpeed-Gen3-ESP32/Housekeeping.cpp:50-75 | a repeat cooldown fires exactly when it has run down (at or below zero) and its trigger holds. Firing reloads it; otherwise a positive cooldown counts down by one |
| Housekeeping.CooldownsStayNonNegative | software/OnSpeed-Gen3-ESP32/Housekeeping.cpp:50-89 | from a non-negative cooldown with a non-negative reload, the cooldown never goes negative over any run of ticks |
| Housekeeping.CooldownQuiet | software/OnSpeed-Gen3-ESP32/Housekeeping.cpp:50-53 | nothing fires during the first c ticks of a cooldown of c, whatever the triggers |
| Housekeeping.CooldownSpacing | software/OnSpeed-Gen3-ESP32/Housekeeping.cpp:50-89 | two firings are always more than the reload apart (over-G: 30 ticks, 3 s) |
| Housekeeping.AsymmetricLimitsTighter | software/OnSpeed-Gen3-ESP32/Housekeeping.cpp:59-74 | while rolling or yawing at 15 deg/s or more, the 0.666 limits lie strictly inside the configured ones, so every load that warns in symmetric flight also warns then |
| Housekeeping.VnoReload | software/OnSpeed-Gen3-ESP32/Housekeeping.cpp:85-88 | for a sane interval the reload is 10 ticks per second of interval, with an interval of 0 taken as 1, so at least 10 ticks |
| Housekeeping.VnoReloadWrapsForHugeIntervals | software/OnSpeed-Gen3-ESP32/Housekeeping.cpp:85-88 | an interval one past 214748364 s makes the unsigned product wrap to a negative int cooldown |
| Housekeeping.CurveGain | software/OnSpeed-Gen3-ESP32/Housekeeping.cpp:95-101 | the clamped curve gain lies in [-1, 1] and has the sign of the lateral G |
| Housekeeping.ChannelGainStep | software/OnSpeed-Gen3-ESP32/Housekeeping.cpp:102-104 | the smoothed channel gain always lies in [-1, 1] |
| Housekeeping.SmoothingStaysInRange | software/OnSpeed-Gen3-ESP32/Housekeeping.cpp:102-104 | from a gain in [-1, 1] the clamp never acts: the step is the plain 0.1 / 0.9 exponential average |
| Housekeeping.GainsBalanced | software/OnSpeed-Gen3-ESP32/Housekeeping.cpp:106-108 | for a gain in [-1, 1] the left and right gains are 1 - g and 1 + g: both in [0, 2], summing to 2, and the right is louder exactly when g > 0 |
| Housekeeping.SmoothVolumeBetween | software/OnSpeed-Gen3-ESP32/Housekeeping.cpp:128 | the half-and-half average of the old position and a new reading, truncated, lies between the two |
| Housekeeping.VolumePercentEnds | software/OnSpeed-Gen3-ESP32/Housekeeping.cpp:133 | the ends of the configured analog range map to 0 % and 100 % |
| Housekeeping.TickWarnings | software/OnSpeed-Gen3-ESP32/Housekeeping.cpp:49-89 | for any configuration, over the two Cooldown steps and the VoiceAfter choice that HkStep makes: the Vno chime is set exactly when its cooldown has run down and IAS > Vno with the chime on. The over-G voice is set exactly when its own condition holds and the chime does not override it. A fired over-G cooldown is 30, and running cooldowns count down |
| Housekeeping.TickKeepsBounds | software/OnSpeed-Gen3-ESP32/Housekeeping.cpp:44-181 | with chime intervals that do not wrap, a tick keeps both cooldowns non-negative, the channel gain in [-1, 1] and the blink counter in [0, 2] |
| Housekeeping.TickVolume | software/OnSpeed-Gen3-ESP32/Housekeeping.cpp:114-142 | the volume is set exactly on even ticks, and is the configured default when the knob is off. The knob position changes only on even ticks with the knob on |
| Housekeeping.TickBlink | software/OnSpeed-Gen3-ESP32/Housekeeping.cpp:145-181 | for any configuration, over the BlinkAfter step that HkStep makes on the advanced tick counter: every third tick the LED steps exactly as the heartbeat task's blink does; on other ticks it is left alone |
| Housekeeping.VoiceCompose | software/OnSpeed-Gen3-ESP32/Housekeeping.cpp:72-84 | setting the over-G voice and then the Vno voice leaves the voice VoiceAfter picks: the chime wins |
| Housekeeping.HousekeepingTask.Tick | software/OnSpeed-Gen3-ESP32/Housekeeping.cpp:44-183 | one pass moves the locals to HkStep's new state and applies the tick's voice, gain and volume calls to the player in order. It appends the LED duty written, if any, and leaves the player's pulse state and output alone |
| Housekeeping.HousekeepingTask.GLimitCheck | software/OnSpeed-Gen3-ESP32/Housekeeping.cpp:49-75 | the over-G cooldown steps as Cooldown with reload 30, and the voice is set exactly when it fires |
| Housekeeping.HousekeepingTask.VnoCheck | software/OnSpeed-Gen3-ESP32/Housekeeping.cpp:77-89 | the chime cooldown steps as Cooldown with VnoReload, and the voice is set exactly when it fires |
| Housekeeping.HousekeepingTask.Audio3D | software/OnSpeed-Gen3-ESP32/Housekeeping.cpp:91-111 | with 3-D audio on, the channel gain is smoothed and the player's gains are set from it |
| Housekeeping.HousekeepingTask.VolumeUpdate | software/OnSpeed-Gen3-ESP32/Housekeeping.cpp:113-142 | on even ticks the knob reading is smoothed and the volume is set from the mapped percentage, or from the default with the knob off |
| Housekeeping.HousekeepingTask.BlinkLed | software/OnSpeed-Gen3-ESP32/Housekeeping.cpp:144-181 | on every third tick the LED state and duty follow BlinkStep |
| Housekeeping.Cooldowns | software/OnSpeed-Gen3-ESP32/Housekeeping.cpp:50-89 | a run of ticks reports one firing flag per trigger reading |
| Housekeeping.HousekeepingTask.constructor | software/OnSpeed-Gen3-ESP32/Housekeeping.cpp:34-42 | the task's locals all start at zero, false or off, and no LED duty has been written |
| Housekeeping.HousekeepingTask.AudioChecks | software/OnSpeed-Gen3-ESP32/Housekeeping.cpp:49-142 | the over-G and Vno cooldowns, the channel gain and the volume step as Cooldown, GainAfter and VolumeAfter say, and the player receives exactly the tick's effects |
| SavGolSpec.ShiftInContents | software/Libraries/onspeed_core/SavGolDerivative.h:79-83 | the shift moves slots 1..w-1 down by one, puts the new sample in slot w-1 and leaves the slots past the window alone |
| SavGolSpec.SumSquaresClosedForm | software/OnSpeed-M5-Display/lib/onspeed_core/SavGolDerivative.h:40-43 | 6 * (1^2 + ... + k^2) = k(k+1)(2k+1), the closed form the constructor's normalisation uses |
| SavGolSpec.RampDerivSum | software/Libraries/onspeed_core/SavGolDerivative.h:65-74 | on a straight line of slope s, the weighted difference sum over taps 1..k is 2 s (1^2 + ... + k^2) |
| SavGolSpec.LinearTapsDerivSum | software/OnSpeed-M5-Display/lib/onspeed_core/SavGolDerivative.h:62-72 | when each tap difference buf[h+j] - buf[h-j] is 2 s j, the weighted sum is 2 s times the sum of squares |
| SavGolSpec.ConstantDerivSum | software/Libraries/onspeed_core/SavGolDerivative.h:65-74 | a constant window has a weighted difference of zero |
| SavGolSpec.RampSlope | software/OnSpeed-M5-Display/lib/onspeed_core/SavGolDerivative.h:1-14 | over a window holding a ramp, the weighted sum divided by twice the sum of squares is exactly the slope |
| SavGolSpec.Run | software/Libraries/onspeed_core/SavGolDerivative.h:50-86 | one output per call, for any fill length |
| SavGolSpec.StepTracksRamp | software/OnSpeed-M5-Display/lib/onspeed_core/SavGolDerivative.h:52-83 | one call of a full-window filter fed the next ramp point keeps the recent history, and outputs 0 while filling and the slope once full |
| SavGolSpec.FullWindowTracksRamp | software/OnSpeed-M5-Display/lib/onspeed_core/SavGolDerivative.h:52-83 | fed the rest of a ramp from any state holding its start, a filter that fills a whole window outputs 0 until it holds w samples and the slope on every call after |
| SavGolSpec.FullFillExactOnRamps | software/OnSpeed-M5-Display/lib/onspeed_core/SavGolDerivative.h:52-83 | from reset, with the normalisation twice the sum of squares, a ramp gives 0 for the first w calls and exactly its slope on every later call |
| SavGolSpec.RunAppend | software/Libraries/onspeed_core/SavGolDerivative.h:54-86 | feeding xs and then ys gives xs's outputs followed by ys's outputs from the state xs left |
| SavGolSpec.FillPhase | software/Libraries/onspeed_core/SavGolDerivative.h:57-63 | while filling, each call stores one sample, advances the fill count by one and outputs 0 |
| SavGolSpec.SlidingIgnoresFillLength | software/Libraries/onspeed_core/SavGolDerivative.h:57-63 | once the fill count has reached the fill length, the filter behaves the same whatever fill length it was built with |
| SavGolSpec.SlidingTracksRamp | software/Libraries/onspeed_core/SavGolDerivative.h:65-85 | once the window holds only ramp samples (w calls after any earlier padding), every output is the ramp's slope |
| SavGolLib.SelectWindow | software/Libraries/onspeed_core/SavGolDerivative.h:34-47 | a supported odd size from 5 to 25 is kept; anything else becomes 15 |
| SavGolLib.NormTableIsTwiceSumSquares | software/Libraries/onspeed_core/SavGolDerivative.h:35-46 | every entry of the constructor's normalisation table (10, 28, ..., 1300) is 2 * (1^2 + ... + (w/2)^2) |
| SavGolLib.SavGolDerivative.Compute | software/Libraries/onspeed_core/SavGolDerivative.h:54-86 | one call moves the buffer and fill count to the specification's Step and returns its output. That is 0 while the first (w+1)/2 samples are stored, and otherwise the weighted difference over the old window divided by the norm, after which the new sample is shifted in |
| SavGolLib.SavGolDerivative.WeightedSum | software/Libraries/onspeed_core/SavGolDerivative.h:69-74 | the loop's sum is the weighted difference sum of the current window |
| SavGolLib.SavGolDerivative.ShiftLeft | software/Libraries/onspeed_core/SavGolDerivative.h:79-83 | the buffer becomes the window shifted left with the new sample last |
| SavGolLib.SavGolDerivative.Reset | software/Libraries/onspeed_core/SavGolDerivative.h:91-96 | fill count 0 and every slot zero, with window and coefficients kept |
| SavGolLib.ConstantInputStartupTransient | software/Libraries/onspeed_core/SavGolDerivative.h:57-77 | a constant 50 with window 5 reads 0, 0, 0 and then -15, because the first estimate still sees zero padding |
| SavGolLib.ExactOnRampsAfterTransient | software/Libraries/onspeed_core/SavGolDerivative.h:54-86 | from reset, fed a straight line, the output is 0 for the first (w+1)/2 calls and exactly the slope from call (w+1)/2 + w on |
| SavGolLib.SettledOutputsWindowFive | test/test_savgol_derivative/test_savgol_derivative.cpp:58-90 | window 5: a constant 50 reads 0 on the 11th call, and a ramp of step 10 reads +10 on the 20th |
| SavGolM5.SelectWindow | software/OnSpeed-M5-Display/lib/onspeed_core/SavGolDerivative.h:35-38 | sizes below 5, above 25 or even fall back to 15, so every chosen window is odd and from 5 to 25 |
| SavGolM5.NormIsTwiceSumSquares | software/OnSpeed-M5-Display/lib/onspeed_core/SavGolDerivative.h:40-43 | h(h+1)(2h+1)/3 with h = w/2 is twice the sum of squares 1..h |
| SavGolM5.AgreesWithLibraryTables | software/OnSpeed-M5-Display/lib/onspeed_core/SavGolDerivative.h:35-43 | for every requested size both copies choose the same window and the same normalisation |
| SavGolM5.SavGolDerivative.Compute | software/OnSpeed-M5-Display/lib/onspeed_core/SavGolDerivative.h:52-83 | one call moves the buffer and fill count to Step with a fill length of a whole window, and returns its output |
| SavGolM5.SavGolDerivative.WeightedSum | software/OnSpeed-M5-Display/lib/onspeed_core/SavGolDerivative.h:65-72 | the loop's sum is the weighted difference sum of the current window |
| SavGolM5.SavGolDerivative.ShiftLeft | software/OnSpeed-M5-Display/lib/onspeed_core/SavGolDerivative.h:76-80 | the buffer becomes the window shifted left with the new sample last |
| SavGolM5.SavGolDerivative.Reset | software/OnSpeed-M5-Display/lib/onspeed_core/SavGolDerivative.h:88-93 | fill count 0 and every slot zero, with the window kept |
| SavGolM5.ExactOnRampsFromReset | software/OnSpeed-M5-Display/lib/onspeed_core/SavGolDerivative.h:1-14 | slope in, slope out: from reset a straight line reads 0 for the first w calls and exactly its slope on every later call |
| SavGolM5.ConstantInputHasNoTransient | software/OnSpeed-M5-Display/lib/onspeed_core/SavGolDerivative.h:55-60 | the constant input that shows the library copy's transient gives 0 on every call here |
| SavGolSpec.Step | software/Libraries/onspeed_core/SavGolDerivative.h:54-86 | one call keeps the filter ready: the buffer keeps its size, the fill count stays non-negative, and the window and norm are unchanged |
| SavGolSpec.Feed | software/Libraries/onspeed_core/SavGolDerivative.h:54-86 | the state after any run of calls is still ready for the next call |
| SavGolLib.TransientFromEmpty | software/Libraries/onspeed_core/SavGolDerivative.h:54-86 | from an empty filter fed a ramp, the first FillLength outputs are 0 and every output from FillLength + w on is the ramp's slope |
| SavGolLib.SlopeAfterFill | software/Libraries/onspeed_core/SavGolDerivative.h:72-86 | once the fill phase is over, the outputs after w more calls are the ramp's slope |
| SavGolLib.SavGolDerivative.constructor | software/Libraries/onspeed_core/SavGolDerivative.h:22-48 | an unsupported window becomes 15, and the filter starts empty with the window's norm |
| SavGolM5.SavGolDerivative.constructor | software/OnSpeed-M5-Display/lib/onspeed_core/SavGolDerivative.h:25-44 | an unsupported window becomes 15, and the filter starts empty with the window's norm |
| SensorIO.PeriodOf | software/OnSpeed-Gen3-ESP32/SensorIO.cpp:99-100 | the base period and the remainder make up exactly one second over rate periods, with the remainder below the rate |
| SensorIO.NextTick | software/OnSpeed-Gen3-ESP32/SensorIO.cpp:109-115 | the fractional accumulator stays below the rate |
| SensorIO.UnwrappedTicksAcc | software/OnSpeed-Gen3-ESP32/SensorIO.cpp:109-115 | over any number of on-time ticks the accumulator stays in [0, rate) |
| SensorIO.UnwrappedTicksPhase | software/OnSpeed-Gen3-ESP32/SensorIO.cpp:97-115 | after k ticks the wake time times the rate, plus the accumulator, has grown by exactly k seconds' worth of microseconds |
| SensorIO.TicksAreWrapped | software/OnSpeed-Gen3-ESP32/SensorIO.cpp:109-115 | the 32-bit schedule is the low word of the unwrapped schedule, so the wrap-around of micros() loses nothing |
| SensorIO.OneSecondPerRateTicks | software/OnSpeed-Gen3-ESP32/SensorIO.cpp:97-115 | from a zero accumulator, rate on-time ticks advance the wake time by exactly 1 000 000 us (mod 2^32) and return the accumulator to 0: the average period is exact |
| SensorIO.CoarseSleepMs | software/OnSpeed-Gen3-ESP32/SensorIO.cpp:117-120 | a coarse sleep happens exactly when more than 2 ms remain. It lasts whole milliseconds and ends between 1 and 2 ms before the wake time |
| SensorIO.TrimUs | software/OnSpeed-Gen3-ESP32/SensorIO.cpp:122-124 | the microsecond trim happens exactly when the wake time is still ahead, and then ends exactly on it |
| SensorIO.DtSeconds | software/OnSpeed-Gen3-ESP32/SensorIO.cpp:152-154 | the AHRS step is positive and below 4295 s. With no elapsed time it is one sample period; otherwise it is the wrapped microsecond difference |
| SensorIO.PressureAltitudeGuard | software/OnSpeed-Gen3-ESP32/SensorIO.cpp:21-30 | a non-positive bias-corrected pressure keeps the previous altitude. Sea-level pressure reads 0 ft, and a lower pressure reads a higher altitude |
| SensorIO.ImuIterationSchedule | software/OnSpeed-Gen3-ESP32/SensorIO.cpp:106-153 | after a pass the accumulator is below the rate. On time, the schedule is the next tick; late by more than 1 ms, it restarts from the clock with a zero accumulator. The last read time is the read's clock |
| SensorIO.ImuReadTask.Iterate | software/OnSpeed-Gen3-ESP32/SensorIO.cpp:106-160 | one pass updates the schedule, read time and log time as ImuIteration does. It records the sleep, trim, late log and AHRS step, and stores the static pressure and altitude. Every AHRS step stays positive and the late logs stay more than a second apart |
| SensorIO.ImuReadTask.ScheduleNext | software/OnSpeed-Gen3-ESP32/SensorIO.cpp:108-115 | the wake time and accumulator step as NextTick, with the accumulator below the rate |
| SensorIO.ImuReadTask.WaitForWake | software/OnSpeed-Gen3-ESP32/SensorIO.cpp:117-124 | appends the coarse sleep and the trim that CoarseSleepMs and TrimUs choose, if any |
| SensorIO.ImuReadTask.CheckLate | software/OnSpeed-Gen3-ESP32/SensorIO.cpp:126-140 | when late, logs at most once per second and resynchronises to the clock with a zero accumulator; otherwise nothing changes |
| SensorIO.ImuReadTask.ReadImu | software/OnSpeed-Gen3-ESP32/SensorIO.cpp:142-159 | stores the static pressure and the guarded altitude, records the read time, and appends DtSeconds as the AHRS step |
| SensorIO.IndicatedAirspeedSign | software/OnSpeed-Gen3-ESP32/SensorIO.cpp:256-269 | a non-positive dynamic pressure reads 0 kt; without the CAS curve, and with a non-negative square root, the airspeed is never negative |
| SensorIO.DecelSampleHz | software/OnSpeed-Gen3-ESP32/SensorIO.cpp:280-292 | on the update path (100 ms or more since the last one) the sample rate is positive, at most 10 Hz, and exactly 1000 / delta |
| SensorIO.SensorReader.Read | software/OnSpeed-Gen3-ESP32/SensorIO.cpp:203-300 | AOA, C_P and IAS come from the sample unless a test pot or range sweep drives them, and the IAS update time becomes the microsecond clock. When 100 ms or more (wrapped) have passed, the IAS goes through the derivative filter and the deceleration becomes its output times the sample rate; otherwise the filter and the rate are unchanged. The read ends with the audio player's UpdateTones: outside an audio test its tone and pulse period become TonePlan's for the new AOA and IAS, and during a test its settings are kept; its envelope and writes are untouched |
| SensorIO.SensorReader.UpdateAirData | software/OnSpeed-Gen3-ESP32/SensorIO.cpp:242-270 | AOA, C_P and IAS are recomputed unless a test source drives them, in which case they are kept |
| SensorIO.SensorReader.UpdateDecelRate | software/OnSpeed-Gen3-ESP32/SensorIO.cpp:278-295 | the deceleration update happens exactly when 100 ms or more have passed since the last one |
| SensorIO.ImuReadTask.constructor | software/OnSpeed-Gen3-ESP32/SensorIO.cpp:97-104 | the period is split as PeriodOf, the schedule starts at the clock with a zero accumulator, and the last read time is the start time |
| SensorIO.SensorReader.constructor | software/OnSpeed-Gen3-ESP32/SensorIO.cpp:172-178 | the IAS filter starts in its reset state with window 15, the deceleration rate and the IAS update time are 0, and the deceleration clock starts at the first read (the function-static initialisation at lines 274-278) |
| M5Serial.Receive | software/OnSpeed-M5-Display/src/SerialRead.cpp:32-75 | a '#' restarts the buffer; a character with no frame started is dropped; a buffer over 80 characters is cleared. Only a completed frame is delivered, and then the buffer is empty. A well-formed buffer stays well formed |
| M5Serial.ReceiveAppended | software/OnSpeed-M5-Display/src/SerialRead.cpp:51-75 | a character after a started buffer of at most 80 is appended, and the result is delivered exactly when it is an 80-character "#1" line ending in LF whose checksum holds |
| M5Serial.ReceiveDeliversValid | software/OnSpeed-M5-Display/src/SerialRead.cpp:55-75 | every delivered frame has the right shape and a checksum that holds |
| M5Serial.ReceiveCompletes | software/OnSpeed-M5-Display/src/SerialRead.cpp:55-75 | the last character of a frame of the right shape delivers it exactly when the checksum holds, and otherwise leaves it in the buffer |
| M5Serial.ReceiveAllAppend | software/OnSpeed-M5-Display/src/SerialRead.cpp:27-53 | receiving two runs of characters one after the other is receiving their concatenation: same buffer, and the frames are concatenated |
| M5Serial.ReceiveAllQuiet | software/OnSpeed-M5-Display/src/SerialRead.cpp:27-53 | a character that completes no frame adds no frame |
| M5Serial.GatherStep | software/OnSpeed-M5-Display/src/SerialRead.cpp:51-53 | inside a frame each character is appended and nothing is delivered |
| M5Serial.GatherLast | software/OnSpeed-M5-Display/src/SerialRead.cpp:55-75 | the frame's last character delivers it exactly when its checksum holds |
| M5Serial.GatherFrame | software/OnSpeed-M5-Display/src/SerialRead.cpp:51-75 | from any prefix that starts with the '#', the rest of a frame ends with the frame delivered (checksum holds) or kept in the buffer |
| M5Serial.FrameOutcome | software/OnSpeed-M5-Display/src/SerialRead.cpp:35-75 | a frame of the right shape, sent from any buffer state, is delivered whole exactly when its checksum holds |
| M5Serial.FrameReceived | software/OnSpeed-M5-Display/src/SerialRead.cpp:35-147 | every valid frame is received whatever the buffer held before it |
| M5Serial.BackToBackFrames | software/OnSpeed-M5-Display/src/SerialRead.cpp:35-147 | two valid frames sent back to back are both received, in order |
| M5Serial.UpdateKeepsCrcField | software/OnSpeed-M5-Display/src/SerialRead.cpp:67-74 | changing a character the checksum covers leaves the transmitted hex digits alone |
| M5Serial.UpdateKeepsShape | software/OnSpeed-M5-Display/src/SerialRead.cpp:55-58 | changing a character between the "#1" and the LF (to anything but '#') keeps the frame's shape |
| M5Serial.CorruptedFrameDropped | software/OnSpeed-M5-Display/src/SerialRead.cpp:67-75 | any single changed character in columns 2..75 loses the frame: nothing is delivered |
| M5Serial.FailedFrameCleared | software/OnSpeed-M5-Display/src/SerialRead.cpp:42-49 | a frame that fails its checksum stays in the buffer; two more characters clear it, delivering nothing |
| M5Serial.ReceiveAllSound | software/OnSpeed-M5-Display/src/SerialRead.cpp:27-153 | over any run of characters the buffer stays well formed and every delivered frame is valid |
| M5Serial.FrameChecksum | software/OnSpeed-M5-Display/src/SerialRead.cpp:68-71 | the loop computes the sum of characters 0..75 reduced to a byte |
| M5Serial.FieldBounds | software/OnSpeed-M5-Display/src/SerialRead.cpp:77-135 | every field is non-empty and lies between the "#1" and the checksum digits |
| M5Serial.FieldText | software/OnSpeed-M5-Display/src/SerialRead.cpp:77-135 | a field's text has its column width, which is positive |
| M5Serial.FieldsContiguous | software/OnSpeed-M5-Display/src/SerialRead.cpp:77-135 | the first k fields follow one another with no gap or overlap from column 2 |
| M5Serial.FieldsCoverPayload | software/OnSpeed-M5-Display/src/SerialRead.cpp:77-135 | the twenty fields exactly cover columns 2..75 |
| M5Serial.FieldInPayload | software/OnSpeed-M5-Display/src/SerialRead.cpp:77-135 | a field's text depends only on columns 2..75 |
| M5Serial.DecodeReadsOnlyPayload | software/OnSpeed-M5-Display/src/SerialRead.cpp:77-135 | the decoded values depend on columns 2..75 only, not on the header, checksum digits or line end |
| M5Serial.Smooth | software/OnSpeed-M5-Display/src/SerialRead.cpp:207-210 | exponential smoothing with a weight in [0, 1] lies between the previous value and the input |
| M5Serial.SmoothBetween | software/OnSpeed-M5-Display/src/SerialRead.cpp:207-210 | the smoothed value lies between the previous value and the input |
| M5Serial.Slip | software/OnSpeed-M5-Display/src/SerialRead.cpp:208-209 | the slip lies in -99..99, is the truncated scaled lateral G when that is in range, and has the sign of the lateral G |
| M5Serial.DisplayAoa | software/OnSpeed-M5-Display/src/SerialRead.cpp:203-204 | the "no data" value -100 is never displayed, and any other AOA is kept |
| M5Serial.Preprocess | software/OnSpeed-M5-Display/src/SerialRead.cpp:200-220 | the AOA sentinel is replaced; the lateral G and AOA are smoothed; the slip is derived from the smoothed lateral G and stays in -99..99; the deceleration is one step of the IAS derivative per 0.1 s and is smoothed; the filter stays ready |
| M5Serial.SerialReadSpec | software/OnSpeed-M5-Display/src/SerialRead.cpp:27-153 | with no character nothing changes; a character that completes no frame changes only the buffer; a completed frame is decoded, its AOA is never the sentinel, and the time is stamped |
| M5Serial.SerialReadQuiet | software/OnSpeed-M5-Display/src/SerialRead.cpp:32-53 | a character that completes no frame changes the buffer and nothing else |
| M5Serial.SerialReadFrame | software/OnSpeed-M5-Display/src/SerialRead.cpp:74-146 | a character that completes a valid frame leaves the decoded, preprocessed values, an empty buffer and the current time |
| M5Serial.Display.constructor | software/OnSpeed-M5-Display/src/SerialRead.cpp:17-19 | the display values start at zero, the buffer empty, and the IAS filter (window 15) in its reset state |
| M5Serial.Display.SerialRead | software/OnSpeed-M5-Display/src/SerialRead.cpp:27-153 | one call leaves the state SerialReadSpec gives, and keeps the buffer well formed and the filter ready |
| M5Serial.Display.ReadChar | software/OnSpeed-M5-Display/src/SerialRead.cpp:34-153 | one available character leaves the state SerialReadSpec gives |
| M5Serial.Display.AppendChar | software/OnSpeed-M5-Display/src/SerialRead.cpp:51-152 | appending a character, checking the completed frame's checksum and decoding it leaves the state SerialReadSpec gives |
| M5Serial.Display.FrameCompleted | software/OnSpeed-M5-Display/src/SerialRead.cpp:74-146 | a completed frame that passed its checksum leaves the state SerialReadSpec gives |
| M5Serial.Display.AcceptFrame | software/OnSpeed-M5-Display/src/SerialRead.cpp:76-146 | the fields are decoded, the buffer is cleared, the values are preprocessed as Preprocess does, and the time is stamped |
| M5Serial.Display.SerialProcess | software/OnSpeed-M5-Display/src/SerialRead.cpp:200-220 | the fields of the class and the filter change exactly as Preprocess says |
| Audio.ScaleAndClampI16 | software/OnSpeed-Gen3-ESP32/Audio.cpp:85-93 | the result is the truncated product when it fits in int16, and saturates to 32767 or -32768 otherwise |
| Audio.AttenuationNeverAmplifies | software/OnSpeed-Gen3-ESP32/Audio.cpp:85-93 | a gain in [0, 1] never makes a sample louder and never flips its sign |
| Audio.AttenuatedTrunc | software/OnSpeed-Gen3-ESP32/Audio.cpp:87 | with a gain in [0, 1] the truncated product lies between 0 and the sample |
| Audio.TruncScaled | software/OnSpeed-Gen3-ESP32/Audio.cpp:87 | the truncated product of a real and a gain in [0, 1] lies between 0 and the real |
| Audio.TruncBelow | software/OnSpeed-Gen3-ESP32/Audio.cpp:87 | a value in [0, x] truncates to an integer in [0, x] |
| Audio.TruncAbove | software/OnSpeed-Gen3-ESP32/Audio.cpp:87 | a value in [x, 0] truncates to an integer in [x, 0] |
| Audio.ScaleTowardZero | software/OnSpeed-Gen3-ESP32/Audio.cpp:87 | a gain in [0, 1] moves a value toward zero without crossing it |
| Audio.PackStereoRoundTrip | software/OnSpeed-Gen3-ESP32/Audio.cpp:95-98 | unpacking the low and high halves of a packed frame gives back the left and right samples |
| Audio.PcmFrames | software/OnSpeed-Gen3-ESP32/Audio.cpp:324-333 | one frame per complete 16-bit sample, each the scaled left and right values packed |
| Audio.ChunksShape | software/OnSpeed-Gen3-ESP32/Audio.cpp:320-344 | the writes carry exactly the frames, in order; each write has 1 to 240 frames and all but the last have 240 |
| Audio.ChunksAppend | software/OnSpeed-Gen3-ESP32/Audio.cpp:334-338 | after whole batches, one more batch adds exactly one write |
| Audio.PulseScale | software/OnSpeed-Gen3-ESP32/Audio.cpp:364 | the level is 1.0 or 0.2, and 0.2 exactly in the low half of an active pulse |
| Audio.PulseStepBounds | software/OnSpeed-Gen3-ESP32/Audio.cpp:369-376 | one sample keeps the counter non-negative, and below the half period plus one once it is there |
| Audio.PulseCountLaw | software/OnSpeed-Gen3-ESP32/Audio.cpp:369-376 | after n samples, the counter plus (half period + 1) per level flip equals the start counter plus n: one flip per half period + 1 samples |
| Audio.RepeatIsProduct | software/OnSpeed-Gen3-ESP32/Audio.cpp:369-376 | adding k f times is f times k |
| Audio.PulseRunBalance | software/OnSpeed-Gen3-ESP32/Audio.cpp:369-376 | the counter plus the repeated half period per flip equals the start counter plus the samples |
| Audio.PulseRunInvariant | software/OnSpeed-Gen3-ESP32/Audio.cpp:359-376 | the counter stays in [0, half period + 1) once there, and the level differs from its start exactly after an odd number of flips |
| Audio.ToneFrames | software/OnSpeed-Gen3-ESP32/Audio.cpp:361-378 | one frame per tone sample |
| Audio.ToneFrameAt | software/OnSpeed-Gen3-ESP32/Audio.cpp:361-378 | frame i is sample i scaled at the envelope level reached after i samples |
| Audio.VolumeFraction | software/OnSpeed-Gen3-ESP32/Audio.cpp:250-255 | the volume is in [0, 1]: 0 at or below 0 percent, 1 at or above 100, and percent/100 in between |
| Audio.VolumeFractionMonotone | software/OnSpeed-Gen3-ESP32/Audio.cpp:250-255 | a louder setting never gives a quieter volume |
| Audio.PulseMaxSamples | software/OnSpeed-Gen3-ESP32/Audio.cpp:302-310 | pulsing is off (0) exactly when the rate is outside [1, 25]; inside, two half periods last 1/rate seconds |
| Audio.VoiceVolumesBalance | software/OnSpeed-Gen3-ESP32/Audio.cpp:410-431 | every voice plays at volume x 3 x gain on each side, except that the left and right speaker clips play the other side at a quarter |
| Audio.ToAudioTone | software/OnSpeed-Gen3-ESP32/Audio.cpp:506 | the calculator's none, low and high tones map to the player's none, low and high tones, one to one |
| Audio.TonePlan | software/OnSpeed-Gen3-ESP32/Audio.cpp:470-504 | audio switched off gives the muted calculation; at or below the mute airspeed the tone is off at 20 PPS; otherwise the flap setting's AOA tone |
| Audio.StallWarningNeverMuted | software/OnSpeed-Gen3-ESP32/Audio.cpp:470-504 | above the mute airspeed an AOA at or past the stall warning always gives the 20 PPS high tone, even with audio off; at or below it no tone sounds; with audio off the only tone is the stall warning |
| Audio.AudioPlay.constructor | software/OnSpeed-Gen3-ESP32/Audio.cpp:176-188 | no voice and no tone, volume 0.5, unit gains, pulsing off and the counter at 0, no audio test, nothing written |
| Audio.AudioPlay.SetVolume | software/OnSpeed-Gen3-ESP32/Audio.cpp:250-255 | only the volume changes, to VolumeFraction of the percentage |
| Audio.AudioPlay.SetGain | software/OnSpeed-Gen3-ESP32/Audio.cpp:262-267 | only the two gains change, to the values given |
| Audio.AudioPlay.SetVoice | software/OnSpeed-Gen3-ESP32/Audio.cpp:273-276 | only the voice changes |
| Audio.AudioPlay.SetTone | software/OnSpeed-Gen3-ESP32/Audio.cpp:282-285 | only the tone changes |
| Audio.AudioPlay.SetPulseFreq | software/OnSpeed-Gen3-ESP32/Audio.cpp:302-310 | only the pulse half period changes, to PulseMaxSamples of the rate |
| Audio.AudioPlay.PlayPcmBuffer | software/OnSpeed-Gen3-ESP32/Audio.cpp:315-345 | without I2S nothing is written; otherwise the writes are the clip's frames, batched 240 at a time, and no setting changes |
| Audio.AudioPlay.PlayToneBuffer | software/OnSpeed-Gen3-ESP32/Audio.cpp:350-390 | the writes are the tone frames under the pulse envelope, batched 240 at a time, and the envelope ends where PulseRun says; without I2S nothing changes |
| Audio.AudioPlay.PlayVoice | software/OnSpeed-Gen3-ESP32/Audio.cpp:396-402 | the voice that was set is written once with its voice volumes, and then cleared |
| Audio.AudioPlay.PlayVoiceClip | software/OnSpeed-Gen3-ESP32/Audio.cpp:410-433 | voice v's clip is written at its voice volumes; no voice writes nothing |
| Audio.AudioPlay.PlayTone | software/OnSpeed-Gen3-ESP32/Audio.cpp:439-465 | no tone writes nothing; the low tone writes the 400 Hz table and the high tone the 1600 Hz table, at the volume times each gain, under the pulse envelope |
| Audio.AudioPlay.UpdateTones | software/OnSpeed-Gen3-ESP32/Audio.cpp:470-508 | during an audio test nothing changes; otherwise the tone and pulse half period become those of TonePlan, and nothing else changes |
| Audio.ToneSample | software/OnSpeed-Gen3-ESP32/Audio.cpp:364-376 | the frame is the one ToneFrames gives for that index, and the envelope moves on to the state after one more sample |
| Audio.PushFrame | software/OnSpeed-Gen3-ESP32/Audio.cpp:378-383 | the writes so far are always the whole batches of the frames produced so far, and the buffer holds the frames after them |
| Audio.ToneBatches | software/OnSpeed-Gen3-ESP32/Audio.cpp:361-389 | the writes are the tone frames batched 240 at a time, and the envelope ends where PulseRun says |
| Audio.FlushFrames | software/OnSpeed-Gen3-ESP32/Audio.cpp:386-389 | a partial last batch is written, so the writes cover every frame |
| Audio.Flush | software/OnSpeed-Gen3-ESP32/Audio.cpp:379-388 | writing a full or final batch extends the writes by exactly that batch |
| EfisCodec.Strtol | software/OnSpeed-Gen3-ESP32/EfisSerial.cpp:142-146 | strtol over a field, base 10 or 16: the value of its leading digits after optional spaces and sign, saturated to the 32-bit long range |
| EfisCodec.Saturate | software/OnSpeed-Gen3-ESP32/EfisSerial.cpp:145 | the result is in the 32-bit long range and equals the input when that is in range |
| EfisCodec.SignAndDigits | software/OnSpeed-Gen3-ESP32/EfisSerial.cpp:142-146 | the digits strtol reads are all digits of the base and no more than the field holds |
| EfisCodec.DigitsValueBound | software/OnSpeed-Gen3-ESP32/EfisSerial.cpp:142-146 | a run of n digits of a base is worth less than base^n |
| EfisCodec.StrtolBound | software/OnSpeed-Gen3-ESP32/EfisSerial.cpp:107-146 | the value of an n-character field lies strictly between -base^n and base^n |
| EfisCodec.HexChar | software/OnSpeed-Gen3-ESP32/EfisSerial.cpp:142-146 | every hex digit a sender writes, upper or lower case, reads back as its value |
| EfisCodec.HexByte | software/OnSpeed-Gen3-ESP32/EfisSerial.cpp:142-146 | a byte printed in hex is two characters |
| EfisCodec.ParseHexCRC | software/OnSpeed-Gen3-ESP32/EfisSerial.cpp:142-146 | the two-character hex field reads as a value in (-256, 256) |
| EfisCodec.ParseHexCrcRoundTrip | software/OnSpeed-Gen3-ESP32/EfisSerial.cpp:142-146 | every byte a sender writes as two hex digits is read back as itself |
| EfisCodec.Field | software/OnSpeed-Gen3-ESP32/EfisSerial.cpp:99-101 | the field is the len characters starting at pos |
| EfisCodec.ParseFieldFloat | software/OnSpeed-Gen3-ESP32/EfisSerial.cpp:96-105 | the fallback when the field matches the sentinel, otherwise strtof of the field divided by the scale |
| EfisCodec.ParseFieldInt | software/OnSpeed-Gen3-ESP32/EfisSerial.cpp:107-116 | the fallback when the field matches the sentinel, otherwise strtol of the field (base 10) times the scale |
| EfisCodec.ParseFieldIntInRange | software/OnSpeed-Gen3-ESP32/EfisSerial.cpp:107-116 | with at most 6 characters and a scale within ±10, the result fits in int32 (the (int) cast loses nothing) |
| EfisCodec.ParseFieldFloatKeep | software/OnSpeed-Gen3-ESP32/EfisSerial.cpp:119-128 | the destination keeps its value on the sentinel, otherwise takes strtof of the field divided by the scale |
| EfisCodec.ParseFieldIntKeep | software/OnSpeed-Gen3-ESP32/EfisSerial.cpp:130-139 | the destination keeps its value on the sentinel, otherwise takes strtol of the field times the scale |
| EfisCodec.KeepIsOldValueFallback | software/OnSpeed-Gen3-ESP32/EfisSerial.cpp:96-139 | a Keep parser is the plain parser with the destination's old value as the fallback |
| EfisCodec.Sum | software/OnSpeed-Gen3-ESP32/EfisSerial.cpp:596-597 | the sum of n bytes lies in [0, 255 n] |
| EfisCodec.ChecksumAcceptsSender | software/OnSpeed-Gen3-ESP32/EfisSerial.cpp:595-600 | a line whose sender appended the checksum of its characters in hex passes the check |
| EfisCodec.SingleByteErrorDetected | software/OnSpeed-Gen3-ESP32/EfisSerial.cpp:595-600 | changing any one checksummed character changes the checksum |
| EfisCodec.MglLengthOkIsComplement | software/OnSpeed-Gen3-ESP32/EfisSerial.cpp:457-459 | the length byte is accepted exactly when the check byte is its one's complement |
| EfisCodec.BitXorAllOnes | software/OnSpeed-Gen3-ESP32/EfisSerial.cpp:458 | two n-bit values xor to all ones exactly when they add up to all ones |
| EfisCodec.MglExpectedLength | software/OnSpeed-Gen3-ESP32/EfisSerial.cpp:462-466 | the expected message length is the length byte (0 meaning 256) plus 20, so between 21 and 276 |
| EfisCodec.MglDecodedLengths | software/OnSpeed-Gen3-ESP32/EfisSerial.cpp:491-523 | the length bytes of the primary and attitude messages give exactly the 44 and 40 bytes the decoder insists on |
| EfisCodec.I16Le | software/OnSpeed-Gen3-ESP32/EfisSerial.cpp:19-56 | a signed 16-bit little-endian field is the two's-complement reading of the unsigned one |
| EfisCodec.U16Bytes | software/OnSpeed-Gen3-ESP32/EfisSerial.cpp:17-56 | a 16-bit value is two bytes, low byte first |
| EfisCodec.U16LeRoundTrip | software/OnSpeed-Gen3-ESP32/EfisSerial.cpp:17-56 | reading back a little-endian 16-bit value gives the value, and its two's-complement reading for signed fields |
| VnCrc16.FrontHalf | software/OnSpeed-Gen3-ESP32/EfisSerial.cpp:316-319 | the byte swap, the xor of the input byte and the first fold give the register shifted left by 8 xor the mixed table index |
| VnCrc16.BackHalf | software/OnSpeed-Gen3-ESP32/EfisSerial.cpp:320-321 | the last two folds turn the mixed index into the table entry |
| VnCrc16.CrcByteTableForm | software/OnSpeed-Gen3-ESP32/EfisSerial.cpp:316-321 | the reader's shift-and-xor update is the table-driven CRC-16 update: crc' = (crc << 8) xor T[(crc >> 8) xor b] |
| VnCrc16.FeedbackIsPoly | software/OnSpeed-Gen3-ESP32/EfisSerial.cpp:316-321 | the branch-free feedback is 0x1021 exactly when the top bit is set |
| VnCrc16.FoldIsPolynomialTable | software/OnSpeed-Gen3-ESP32/EfisSerial.cpp:316-321 | every table entry is eight bit-serial steps of the polynomial 0x1021 on the index: the CRC is CRC-16/XMODEM |
| VnCrc16.CrcOwnValueClears | software/OnSpeed-Gen3-ESP32/EfisSerial.cpp:314-324 | feeding the register its own two bytes, high byte first, clears it |
| VnCrc16.CrcBytes | software/OnSpeed-Gen3-ESP32/EfisSerial.cpp:314-324 | the CRC field is two bytes, high byte first |
| VnCrc16.VnCrcSnoc | software/OnSpeed-Gen3-ESP32/EfisSerial.cpp:314-322 | one more byte is one more pass of the loop |
| VnCrc16.VnCrcTwoMore | software/OnSpeed-Gen3-ESP32/EfisSerial.cpp:314-322 | two more bytes are two more passes of the loop |
| VnCrc16.CrcAppendResidue | software/OnSpeed-Gen3-ESP32/EfisSerial.cpp:310-331 | a packet body followed by its own CRC leaves a zero register, which is what the reader accepts |
| EfisRecords.InitialEfisData | software/OnSpeed-Gen3-ESP32/EfisSerial.cpp:156-173 | every flight value starts at zero except the heading, which starts at -1 (unknown) |
| EfisRecords.Marks | software/OnSpeed-Gen3-ESP32/EfisSerial.cpp:602-612 | a sentinel is n copies of its marker character |
| EfisRecords.Recognise | software/OnSpeed-Gen3-ESP32/EfisSerial.cpp:583-788 | a line is recognised only for its configured type, with its exact length (74, 225, 53, 59 or 221) and leading characters |
| EfisRecords.ChecksumEnd | software/OnSpeed-Gen3-ESP32/EfisSerial.cpp:596-773 | the two checksum digits of every record lie inside the line |
| EfisRecords.DecodeSkyviewAdahrs | software/OnSpeed-Gen3-ESP32/EfisSerial.cpp:600-616 | the engine values stay; IAS, altitude and the other air-data fields are parsed with their X sentinels and fallbacks |
| EfisRecords.DecodeSkyviewEms | software/OnSpeed-Gen3-ESP32/EfisSerial.cpp:636-642 | the air-data values stay; fuel, flow, MAP, RPM and power are parsed with their X sentinels |
| EfisRecords.D10Status | software/OnSpeed-Gen3-ESP32/EfisSerial.cpp:671-673 | the status digit at column 46 reads as a value in (-16, 16) |
| EfisRecords.DecodeD10 | software/OnSpeed-Gen3-ESP32/EfisSerial.cpp:662-680 | the IAS is converted from m/s to knots; pressure altitude and VSI are taken, converted and truncated only when status bit 0 is set, otherwise they stay |
| EfisRecords.DecodeGarminAttitude | software/OnSpeed-Gen3-ESP32/EfisSerial.cpp:697-753 | blank fields keep their values; a G5 never touches percent lift or OAT; engine values stay |
| EfisRecords.DecodeG3xEngine | software/OnSpeed-Gen3-ESP32/EfisSerial.cpp:767-778 | blank fields keep their values, and the air-data values stay |
| EfisRecords.DispatchLine | software/OnSpeed-Gen3-ESP32/EfisSerial.cpp:583-789 | the flight data changes only for a recognised line whose checksum holds, and the timestamp is renewed only for records that renew it |
| EfisRecords.DispatchLineAccepted | software/OnSpeed-Gen3-ESP32/EfisSerial.cpp:583-789 | a recognised line whose checksum holds is decoded by its record's decoder |
| EfisRecords.DispatchLineRejected | software/OnSpeed-Gen3-ESP32/EfisSerial.cpp:583-789 | an unrecognised line, or one whose checksum fails, leaves the flight data as it was |
| EfisRecords.DispatchNeedsValidChecksum | software/OnSpeed-Gen3-ESP32/EfisSerial.cpp:583-789 | any change to the flight data implies the line was recognised and its checksum held |
| EfisRecords.CorruptedLineDropped | software/OnSpeed-Gen3-ESP32/EfisSerial.cpp:595-625 | a correctly sent line with any one checksummed character corrupted is dropped whole |
| EfisRecords.D10KeepsAltitudeWithoutStatus | software/OnSpeed-Gen3-ESP32/EfisSerial.cpp:674-679 | with status bit 0 clear, a D10 line leaves pressure altitude and VSI unchanged |
| EfisRecords.GarminBlankLineKeepsAll | software/OnSpeed-Gen3-ESP32/EfisSerial.cpp:707-752 | a Garmin attitude line whose fields are all blank changes nothing |
| EfisRecords.SkyviewBlankLineFallbacks | software/OnSpeed-Gen3-ESP32/EfisSerial.cpp:602-612 | a SkyView ADAHRS line whose fields are all X's gives every fallback value |
| EfisRecords.DecodeMgl | software/OnSpeed-Gen3-ESP32/EfisSerial.cpp:486-540 | only a primary message of exactly 44 bytes or an attitude message of exactly 40 bytes is decoded and renews the timestamp; anything else leaves the data as it was |
| EfisRecords.MglDecodeIgnoresChecksum | software/OnSpeed-Gen3-ESP32/EfisSerial.cpp:489-540 | the decoded values depend only on bytes 4..29; the CRC32 and the rest are never checked |
| EfisRecords.MglHeadingIsWholeDegrees | software/OnSpeed-Gen3-ESP32/EfisSerial.cpp:525 | the attitude heading is the tenths of a degree truncated to whole degrees |
| EfisRecords.VnPacket | software/OnSpeed-Gen3-ESP32/EfisSerial.cpp:292-331 | a sent packet is 127 bytes: the fixed header, the payload, and the CRC |
| EfisRecords.VnPacketAccepted | software/OnSpeed-Gen3-ESP32/EfisSerial.cpp:292-331 | every packet a VN-300 builds passes the reader's header and CRC checks |
| EfisRecords.DecodeVn | software/OnSpeed-Gen3-ESP32/EfisSerial.cpp:340-388 | an accepted packet keeps its bytes, and the GPS fix is byte 76 |
| EfisSerial.VnStep | software/OnSpeed-Gen3-ESP32/EfisSerial.cpp:276-405 | one VN-300 byte never touches the line buffer, the text framing or the flight data, and keeps the buffer large enough for the fixed indexing |
| EfisSerial.VnRestart | software/OnSpeed-Gen3-ESP32/EfisSerial.cpp:276-283 | the sync pair puts FA 19 at the start of the buffer and the next byte at index 2 |
| EfisSerial.VnAppend | software/OnSpeed-Gen3-ESP32/EfisSerial.cpp:285-290 | a byte is buffered only inside a packet that holds fewer than 127 bytes |
| EfisSerial.VnFinish | software/OnSpeed-Gen3-ESP32/EfisSerial.cpp:292-404 | a full packet always ends the packet in progress, whether it is decoded or dropped |
| EfisSerial.VnRun | software/OnSpeed-Gen3-ESP32/EfisSerial.cpp:269-406 | a run of VN-300 bytes leaves the text framing and the flight data alone |
| EfisSerial.VnSyncRestarts | software/OnSpeed-Gen3-ESP32/EfisSerial.cpp:276-283 | FA 19 restarts the packet from any state, keeping the decoded record and its timestamp |
| EfisSerial.VnIdleIgnoresBytes | software/OnSpeed-Gen3-ESP32/EfisSerial.cpp:285-292 | between packets a byte only becomes the previous byte |
| EfisSerial.VnGatherRest | software/OnSpeed-Gen3-ESP32/EfisSerial.cpp:285-404 | once k bytes of a valid packet are buffered, the rest of it completes and decodes exactly that packet |
| EfisSerial.VnPacketReceived | software/OnSpeed-Gen3-ESP32/EfisSerial.cpp:276-404 | a packet with a good header and CRC, and no FA 19 inside, fed to an idle reader is decoded and stamped |
| EfisSerial.VnSentPacketReceived | software/OnSpeed-Gen3-ESP32/EfisSerial.cpp:276-404 | every packet built by a VN-300 for a payload free of the sync pair is decoded by the reader |
| EfisSerial.VnDropMissesNextSync | software/OnSpeed-Gen3-ESP32/EfisSerial.cpp:302-331 | a dropped packet does not record its last byte, so an FA absorbed by it does not start the next packet |
| EfisSerial.MglStep | software/OnSpeed-Gen3-ESP32/EfisSerial.cpp:421-547 | a decoded message always leaves the index at 0; an MGL byte never touches the line buffer or the VN-300 record |
| EfisSerial.MglFrame | software/OnSpeed-Gen3-ESP32/EfisSerial.cpp:427-480 | the framing part never changes the flight data or the timestamp |
| EfisSerial.MglLengthByte | software/OnSpeed-Gen3-ESP32/EfisSerial.cpp:455-468 | the length check changes only the index and the expected length |
| EfisSerial.MglDecode | software/OnSpeed-Gen3-ESP32/EfisSerial.cpp:486-547 | a complete message returns the index to 0 and leaves the buffer as it was |
| EfisSerial.MglRead | software/OnSpeed-Gen3-ESP32/EfisSerial.cpp:412-548 | the MGL branch takes bytes until the input or the budget runs out, or until just after a decoded message |
| EfisSerial.MglReadAdvance | software/OnSpeed-Gen3-ESP32/EfisSerial.cpp:412-548 | the MGL branch stops after the byte that decodes a message and otherwise goes on from the next byte |
| EfisSerial.MglReadExhausted | software/OnSpeed-Gen3-ESP32/EfisSerial.cpp:412 | the MGL branch takes nothing once the input or the budget is used up |
| EfisSerial.MglWrongStxResyncs | software/OnSpeed-Gen3-ESP32/EfisSerial.cpp:437-447 | a second byte other than STX returns the index to 0 |
| EfisSerial.MglBadLengthResyncs | software/OnSpeed-Gen3-ESP32/EfisSerial.cpp:455-459 | a check byte that is not the complement of the length byte drops the message without decoding |
| EfisSerial.MglFrameGathers | software/OnSpeed-Gen3-ESP32/EfisSerial.cpp:427-480 | each byte of a well-formed message is stored at the next index, and the check byte sets the expected length |
| EfisSerial.MglGatherStep | software/OnSpeed-Gen3-ESP32/EfisSerial.cpp:427-547 | a well-formed message is decoded exactly when its last byte arrives, from the buffered message |
| EfisSerial.MglGatherRest | software/OnSpeed-Gen3-ESP32/EfisSerial.cpp:412-548 | the rest of a well-formed message is taken up to its last byte and decoded, whatever follows it |
| EfisSerial.MglMessageReceived | software/OnSpeed-Gen3-ESP32/EfisSerial.cpp:412-548 | a well-formed message arriving at a reader waiting for DLE is decoded, and the Read stops right after it |
| EfisSerial.TextStep | software/OnSpeed-Gen3-ESP32/EfisSerial.cpp:562-800 | one character never lets the line grow past 231 and always becomes the previous character |
| EfisSerial.TextStepStores | software/OnSpeed-Gen3-ESP32/EfisSerial.cpp:573-790 | a stored character extends the line, and an LF ends and dispatches it |
| EfisSerial.TextStepSkips | software/OnSpeed-Gen3-ESP32/EfisSerial.cpp:566-573 | a character that is not stored leaves the line, emptied if it had overflowed |
| EfisSerial.LineEnd | software/OnSpeed-Gen3-ESP32/EfisSerial.cpp:577-789 | the end of a line always empties the line buffer |
| EfisSerial.TextRun | software/OnSpeed-Gen3-ESP32/EfisSerial.cpp:556-801 | a run of characters ends with the last one as the previous character and the line within its limit |
| EfisSerial.TextDiscardsUntilLf | software/OnSpeed-Gen3-ESP32/EfisSerial.cpp:573 | before the first LF every character is thrown away |
| EfisSerial.TextOverflowRestarts | software/OnSpeed-Gen3-ESP32/EfisSerial.cpp:566-570 | a line past the limit is dropped |
| EfisSerial.TextGatherRest | software/OnSpeed-Gen3-ESP32/EfisSerial.cpp:573-789 | once k characters of a line are stored, the rest of it dispatches exactly that line |
| EfisSerial.TextLineCaptured | software/OnSpeed-Gen3-ESP32/EfisSerial.cpp:573-789 | a line that follows an LF is dispatched whole, and the reader is ready for the next one |
| EfisSerial.TextRunAppend | software/OnSpeed-Gen3-ESP32/EfisSerial.cpp:556-801 | reading characters in two batches is the same as reading them in one |
| EfisSerial.TextLinesCaptured | software/OnSpeed-Gen3-ESP32/EfisSerial.cpp:556-801 | after an LF, every line of the stream is dispatched, in order |
| EfisSerial.ReadSpec | software/OnSpeed-Gen3-ESP32/EfisSerial.cpp:257-805 | one Read takes min(waiting, 512) bytes in the VN-300 and text branches and at most 100 in the MGL branch |
| EfisSerial.EfisSerialIO.constructor | software/OnSpeed-Gen3-ESP32/EfisSerial.cpp:150-210 | a new reader has empty framing, zeroed records with an unknown heading, and the time of construction |
| EfisSerial.EfisSerialIO.Init | software/OnSpeed-Gen3-ESP32/EfisSerial.cpp:214-238 | Init records the EFIS type |
| EfisSerial.EfisSerialIO.PacketCrc | software/OnSpeed-Gen3-ESP32/EfisSerial.cpp:311-322 | the CRC loop computes the VN-300 CRC of bytes 1 to 126 |
| EfisSerial.EfisSerialIO.LineChecksumLoop | software/OnSpeed-Gen3-ESP32/EfisSerial.cpp:596-598 | the checksum loop computes the byte sum of the characters up to the checksum field |
| EfisSerial.EfisSerialIO.CheckPacket | software/OnSpeed-Gen3-ESP32/EfisSerial.cpp:292-331 | a packet is accepted exactly when its header and CRC hold |
| EfisSerial.EfisSerialIO.AppendByte | software/OnSpeed-Gen3-ESP32/EfisSerial.cpp:285-290 | the in-place append does what VnAppend says |
| EfisSerial.EfisSerialIO.VnByte | software/OnSpeed-Gen3-ESP32/EfisSerial.cpp:272-405 | one VN-300 byte in place does what VnStep says |
| EfisSerial.EfisSerialIO.FrameByte | software/OnSpeed-Gen3-ESP32/EfisSerial.cpp:427-480 | the in-place MGL framing does what MglFrame says |
| EfisSerial.EfisSerialIO.CheckLength | software/OnSpeed-Gen3-ESP32/EfisSerial.cpp:455-468 | the in-place length check does what MglLengthByte says |
| EfisSerial.EfisSerialIO.MglByte | software/OnSpeed-Gen3-ESP32/EfisSerial.cpp:421-547 | one MGL byte in place does what MglStep says, and reports a decoded message |
| EfisSerial.EfisSerialIO.DispatchBuffered | software/OnSpeed-Gen3-ESP32/EfisSerial.cpp:583-788 | the buffered line is recognised, checked and decoded as DispatchLine says, stamping the time when accepted |
| EfisSerial.EfisSerialIO.EndLine | software/OnSpeed-Gen3-ESP32/EfisSerial.cpp:577-789 | the end of a line in place does what LineEnd says |
| EfisSerial.EfisSerialIO.TextByte | software/OnSpeed-Gen3-ESP32/EfisSerial.cpp:562-800 | one character in place does what TextStep says |
| EfisSerial.EfisSerialIO.ReadVn | software/OnSpeed-Gen3-ESP32/EfisSerial.cpp:263-407 | the VN-300 branch consumes min(waiting, 512) bytes as VnRun says |
| EfisSerial.EfisSerialIO.MglReadByte | software/OnSpeed-Gen3-ESP32/EfisSerial.cpp:421-547 | one pass of the MGL loop moves the outcome of MglRead one byte further |
| EfisSerial.EfisSerialIO.ReadMgl | software/OnSpeed-Gen3-ESP32/EfisSerial.cpp:410-549 | the MGL branch consumes the bytes MglRead takes and ends in its state |
| EfisSerial.EfisSerialIO.ReadText | software/OnSpeed-Gen3-ESP32/EfisSerial.cpp:552-802 | the text branch consumes min(waiting, 512) characters as TextRun says |
| EfisSerial.EfisSerialIO.Read | software/OnSpeed-Gen3-ESP32/EfisSerial.cpp:257-805 | a Read does nothing while reading is disabled and otherwise does what ReadSpec says |
| Ekf6Model.ProcessNoise | software/Libraries/onspeed_core/EKF6.cpp:80-85 | Q has one entry per state: attitude twice, alpha, then the three gyro biases |
| Ekf6Model.MeasurementNoise | software/Libraries/onspeed_core/EKF6.cpp:89-92 | R has one entry per measurement: the three accelerometer axes, then alpha |
| Ekf6Model.InitialVariances | software/Libraries/onspeed_core/EKF6.cpp:113-118 | the initial covariance diagonal has one entry per state |
| Ekf6Model.ClampCos | software/Libraries/onspeed_core/EKF6.cpp:186-192 | the guarded cos theta is at least 0.001 in magnitude, keeps its sign, and is unchanged when already that large |
| Ekf6Model.PredictState | software/Libraries/onspeed_core/EKF6.cpp:198-205 | the prediction integrates only phi and theta; alpha and the biases are kept |
| Ekf6Model.Transition | software/Libraries/onspeed_core/EKF6.cpp:207-237 | F is the 6x6 identity except the computed entries of rows 0 and 1 |
| Ekf6Model.SparseFP | software/Libraries/onspeed_core/EKF6.cpp:246-261 | F P is formed with rows 0 and 1 computed and rows 2-5 copied |
| Ekf6Model.SparseCov | software/Libraries/onspeed_core/EKF6.cpp:277-297 | FP F' + Q is formed with columns 0 and 1 computed, columns 2-5 copied, and Q on the diagonal |
| Ekf6Model.PredictCov | software/Libraries/onspeed_core/EKF6.cpp:246-297 | the predicted covariance is a 6x6 matrix |
| Ekf6Model.FPIsProduct | software/Libraries/onspeed_core/EKF6.cpp:246-261 | the sparse F P equals the dense product of F and P |
| Ekf6Model.CovIsProduct | software/Libraries/onspeed_core/EKF6.cpp:277-297 | the sparse FP F' + Q equals the dense product FP F' plus diag(Q) |
| Ekf6Model.PredictCovIsDense | software/Libraries/onspeed_core/EKF6.cpp:246-297 | the sparse prediction is exactly F P F' + diag(Q) |
| Ekf6Model.ResetAlpha | software/Libraries/onspeed_core/EKF6.cpp:143-150 | the reset clears row and column 2 and sets P[2][2] to the initial alpha variance |
| Ekf6Model.ResetAlphaKeepsSymmetric | software/Libraries/onspeed_core/EKF6.cpp:143-150 | the reset keeps a symmetric covariance symmetric and decouples alpha from every other state |
| Ekf6Model.ResetAlphaIdempotent | software/Libraries/onspeed_core/EKF6.cpp:143-150 | resetting twice is the same as resetting once |
| Ekf6Correction.Linearise | software/Libraries/onspeed_core/EKF6.cpp:330-367 | the fourth predicted measurement is the estimated alpha |
| Ekf6Correction.Innovation | software/Libraries/onspeed_core/EKF6.cpp:369-377 | y is z - z_pred, with theta - gamma as the fourth measurement |
| Ekf6Correction.LevelFlightPrediction | software/Libraries/onspeed_core/EKF6.cpp:341-367 | wings level at zero pitch, the accelerometer is predicted to read (0, 0, -g) |
| Ekf6Correction.PredictedForceMagnitude | software/Libraries/onspeed_core/EKF6.cpp:341-346 | the predicted specific force always has magnitude g |
| Ekf6Correction.InnovationZeroIff | software/Libraries/onspeed_core/EKF6.cpp:369-377 | the innovation is zero exactly when every measurement matches its prediction |
| Ekf6Correction.MeasMatrix | software/Libraries/onspeed_core/EKF6.cpp:348-367 | H is the 4x6 matrix with the six computed entries and H[3][2] = 1 |
| Ekf6Correction.SparseHP | software/Libraries/onspeed_core/EKF6.cpp:389-395 | H P is formed from H's non-zero entries only |
| Ekf6Correction.SparseS | software/Libraries/onspeed_core/EKF6.cpp:408-419 | S is formed column by column from H P, with R on the diagonal |
| Ekf6Correction.SparsePHt | software/Libraries/onspeed_core/EKF6.cpp:443-449 | P H' is formed from H's non-zero entries only |
| Ekf6Correction.SparseIKH | software/Libraries/onspeed_core/EKF6.cpp:482-490 | I - K H is formed with columns 3-5 identity columns |
| Ekf6Correction.Joseph | software/Libraries/onspeed_core/EKF6.cpp:503-515 | each entry of the new covariance is (IKHP IKH')[i][j] plus (K R K')[i][j] |
| Ekf6Correction.InnovationCov | software/Libraries/onspeed_core/EKF6.cpp:389-419 | S is a 4x4 matrix |
| Ekf6Correction.Gain | software/Libraries/onspeed_core/EKF6.cpp:451-460 | K is a 6x4 matrix |
| Ekf6Correction.CorrectedState | software/Libraries/onspeed_core/EKF6.cpp:462-467 | each state entry moves by its row of K against y |
| Ekf6Correction.ZeroInnovationKeepsState | software/Libraries/onspeed_core/EKF6.cpp:462-467 | with no innovation the state is unchanged, whatever the gain |
| Ekf6Correction.CorrectedCov | software/Libraries/onspeed_core/EKF6.cpp:482-518 | the updated covariance is a 6x6 matrix |
| Ekf6Correction.HPIsDense | software/Libraries/onspeed_core/EKF6.cpp:389-395 | the sparse H P equals the dense product |
| Ekf6Correction.InnovationCovIsDense | software/Libraries/onspeed_core/EKF6.cpp:389-419 | the sparse S equals H P H' + diag(R) |
| Ekf6Correction.GainIsDense | software/Libraries/onspeed_core/EKF6.cpp:443-460 | the gain is P H' S^-1 |
| Ekf6Correction.IKHIsDense | software/Libraries/onspeed_core/EKF6.cpp:482-490 | the sparse I - K H equals the dense difference |
| Ekf6Correction.NoiseTermIsDense | software/Libraries/onspeed_core/EKF6.cpp:511-513 | the K R K' sum of one entry equals that entry of K diag(R) K' |
| Ekf6Correction.CorrectedCovIsDense | software/Libraries/onspeed_core/EKF6.cpp:482-518 | the covariance update is the Joseph form (I-KH) P (I-KH)' + K diag(R) K' |
| Ekf6Invert.Augment | software/Libraries/onspeed_core/EKF6.cpp:540-545 | the work matrix holds A on the left and the identity on the right |
| Ekf6Invert.SwapKeeps | software/Libraries/onspeed_core/EKF6.cpp:566-572 | a row swap, paired with a column swap of the accumulated transform, keeps the transform applied to [A, I] |
| Ekf6Invert.ScaleKeeps | software/Libraries/onspeed_core/EKF6.cpp:575-578 | dividing the pivot row keeps the transform applied to [A, I] |
| Ekf6Invert.SubtractKeeps | software/Libraries/onspeed_core/EKF6.cpp:581-588 | subtracting a multiple of the pivot row keeps the transform applied to [A, I] |
| Ekf6Invert.IdentityLeft | software/Libraries/onspeed_core/EKF6.cpp:540-545 | the elimination starts from the identity transform |
| Ekf6Invert.InverseFromReduced | software/Libraries/onspeed_core/EKF6.cpp:592-596 | once the left half is the identity, the right half is a right inverse of A |
| Ekf6Invert.PivotRowFrom | software/Libraries/onspeed_core/EKF6.cpp:550-558 | the pivot search returns a row in [col, 4) |
| Ekf6Invert.PivotRow | software/Libraries/onspeed_core/EKF6.cpp:550-558 | the pivot row lies in [col, 4) |
| Ekf6Invert.Normalize | software/Libraries/onspeed_core/EKF6.cpp:566-578 | bringing up and dividing the pivot row keeps a 4x8 matrix |
| Ekf6Invert.EliminateFrom | software/Libraries/onspeed_core/EKF6.cpp:581-588 | clearing the column in the other rows keeps a 4x8 matrix |
| Ekf6Invert.ReduceStep | software/Libraries/onspeed_core/EKF6.cpp:548-589 | a successful pass yields a 4x8 matrix |
| Ekf6Invert.ReduceUpTo | software/Libraries/onspeed_core/EKF6.cpp:548-589 | a successful run of passes yields a 4x8 matrix |
| Ekf6Invert.RightHalf | software/Libraries/onspeed_core/EKF6.cpp:592-596 | the extracted inverse is columns 4-7 of the work matrix |
| Ekf6Invert.PivotRowFromIsMax | software/Libraries/onspeed_core/EKF6.cpp:550-558 | the chosen pivot has the largest magnitude in its column from row col down |
| Ekf6Invert.PivotRowFromUnique | software/Libraries/onspeed_core/EKF6.cpp:552-558 | ties go to the first row: a maximal row strictly above every earlier row is the one chosen |
| Ekf6Invert.ReduceStepFailsIff | software/Libraries/onspeed_core/EKF6.cpp:560-563 | a pass fails exactly when every candidate pivot is below 1e-10 |
| Ekf6Invert.FailureIsFinal | software/Libraries/onspeed_core/EKF6.cpp:561-562 | once a pass fails, no longer run succeeds |
| Ekf6Invert.GaussJordanFailsIff | software/Libraries/onspeed_core/EKF6.cpp:548-589 | the inversion fails exactly when some column stalls after the earlier passes succeeded |
| Ekf6Invert.ReduceUpToFailsIff | software/Libraries/onspeed_core/EKF6.cpp:548-589 | the first n passes fail exactly when one of those columns stalls |
| Ekf6Invert.LastPassFailsIff | software/Libraries/onspeed_core/EKF6.cpp:548-589 | when the earlier passes succeed, the run fails exactly when its last column stalls |
| Ekf6Invert.StepFailureIsFinal | software/Libraries/onspeed_core/EKF6.cpp:561-562 | a failed pass at any column makes the whole inversion fail |
| Ekf6Invert.SmallFirstColumnFails | software/Libraries/onspeed_core/EKF6.cpp:548-563 | a first column with no entry of magnitude 1e-10 makes the inversion fail |
| Ekf6Invert.FindPivot | software/Libraries/onspeed_core/EKF6.cpp:550-558 | the loop returns the first row of largest magnitude in the column, and that magnitude |
| Ekf6Invert.SwapRowsInPlace | software/Libraries/onspeed_core/EKF6.cpp:566-572 | the two rows are exchanged in place and nothing else changes |
| Ekf6Invert.ScaleRowInPlace | software/Libraries/onspeed_core/EKF6.cpp:575-578 | the pivot row is divided in place and nothing else changes |
| Ekf6Invert.EliminateRow | software/Libraries/onspeed_core/EKF6.cpp:583-586 | one row loses factor times the pivot row in place and nothing else changes |
| Ekf6Invert.BuildAugmented | software/Libraries/onspeed_core/EKF6.cpp:539-545 | the new work matrix is [A, I] |
| Ekf6Invert.PivotColumn | software/Libraries/onspeed_core/EKF6.cpp:549-578 | the pivot step succeeds exactly when the best pivot reaches 1e-10, leaves the work matrix untouched when it does not, and otherwise brings up and normalises the pivot row |
| Ekf6Invert.SwapToPivot | software/Libraries/onspeed_core/EKF6.cpp:566-572 | the pivot row is exchanged with row col, keeping the finished unit columns |
| Ekf6Invert.NormalizePivot | software/Libraries/onspeed_core/EKF6.cpp:575-578 | the pivot becomes 1, keeping the finished unit columns |
| Ekf6Invert.EliminateColumn | software/Libraries/onspeed_core/EKF6.cpp:581-588 | column col becomes a unit column in every row |
| Ekf6Invert.CopyRightHalf | software/Libraries/onspeed_core/EKF6.cpp:592-596 | the output holds columns 4-7 of the work matrix |
| Ekf6Invert.ReduceColumn | software/Libraries/onspeed_core/EKF6.cpp:548-589 | one pass in place succeeds exactly when the reference pass does, with the same result |
| Ekf6Invert.ExtractInverse | software/Libraries/onspeed_core/EKF6.cpp:592-596 | the extracted right half is a right inverse of A |
| Ekf6Invert.ReduceAll | software/Libraries/onspeed_core/EKF6.cpp:548-589 | the column loop succeeds exactly when the reference elimination does, ending in its matrix |
| Ekf6Invert.Invert4x4 | software/Libraries/onspeed_core/EKF6.cpp:525-599 | invert4x4 returns true exactly when no column stalls, and then A times the output is the identity; on false the output is untouched |
| Ekf6.CopyMatrix | software/Libraries/onspeed_core/EKF6.cpp:299-300 | the copy holds the source's entries |
| Ekf6.FillTopRows | software/Libraries/onspeed_core/EKF6.cpp:248-258 | rows 0 and 1 of FP are the sums the firmware writes out |
| Ekf6.CopyLowerRows | software/Libraries/onspeed_core/EKF6.cpp:260-261 | rows 2-5 of FP are P's rows; rows 0 and 1 are untouched |
| Ekf6.ComputeFP | software/Libraries/onspeed_core/EKF6.cpp:246-261 | the computed FP is the sparse F P |
| Ekf6.FillCov | software/Libraries/onspeed_core/EKF6.cpp:277-292 | each entry of P_new is the sparse FP F' entry |
| Ekf6.AddDiagonal | software/Libraries/onspeed_core/EKF6.cpp:294-297 | Q is added to the diagonal and nothing else |
| Ekf6.ComputePredictCov | software/Libraries/onspeed_core/EKF6.cpp:277-297 | the computed P_new is the sparse FP F' + Q |
| Ekf6.ZeroMatrix | software/Libraries/onspeed_core/EKF6.cpp:112 | every entry is zero |
| Ekf6.SetDiagonal | software/Libraries/onspeed_core/EKF6.cpp:111-118 | P becomes diag(p_att, p_att, p_alpha, p_bias, p_bias, p_bias) |
| Ekf6.ComputeHP | software/Libraries/onspeed_core/EKF6.cpp:389-395 | the computed H P is the sparse H P |
| Ekf6.FillS | software/Libraries/onspeed_core/EKF6.cpp:408-414 | each entry of S is the sparse (H P) H' entry |
| Ekf6.AddMeasurementNoise | software/Libraries/onspeed_core/EKF6.cpp:416-419 | R is added to the diagonal of S and nothing else |
| Ekf6.ComputeS | software/Libraries/onspeed_core/EKF6.cpp:408-419 | the computed S is the sparse H P H' + R |
| Ekf6.ComputePHt | software/Libraries/onspeed_core/EKF6.cpp:443-449 | the computed P H' is the sparse P H' |
| Ekf6.DotEntry | software/Libraries/onspeed_core/EKF6.cpp:455-458 | the inner loop sums a row against a column |
| Ekf6.FillProductRow | software/Libraries/onspeed_core/EKF6.cpp:494-501 | one row of the product is filled and the other rows are untouched |
| Ekf6.Multiply | software/Libraries/onspeed_core/EKF6.cpp:494-501 | the dense triple loop computes the matrix product |
| Ekf6.AddGainTimesInnovation | software/Libraries/onspeed_core/EKF6.cpp:462-467 | the state becomes x + K y |
| Ekf6.FillIKHRow | software/Libraries/onspeed_core/EKF6.cpp:484-489 | one row of I - K H is filled and the other rows are untouched |
| Ekf6.ComputeIKH | software/Libraries/onspeed_core/EKF6.cpp:482-490 | the computed I - K H is the sparse form |
| Ekf6.JosephEntry | software/Libraries/onspeed_core/EKF6.cpp:507-513 | one entry accumulates IKHP IKH' and then K R K' |
| Ekf6.FillJosephRow | software/Libraries/onspeed_core/EKF6.cpp:506-514 | one row of the new covariance is filled and the other rows are untouched |
| Ekf6.ComputeJoseph | software/Libraries/onspeed_core/EKF6.cpp:503-515 | the computed covariance is the Joseph form |
| Ekf6.ComputeInnovation | software/Libraries/onspeed_core/EKF6.cpp:369-377 | the loop computes the innovation y |
| Ekf6.InvertInnovationCov | software/Libraries/onspeed_core/EKF6.cpp:389-426 | S is inverted exactly when the elimination finds no stalled column, and then S times the result is the identity |
| Ekf6.ApplyGain | software/Libraries/onspeed_core/EKF6.cpp:428-518 | the state becomes x + K y and the covariance the Joseph form, with K = P H' S^-1 |
| Ekf6.Filter.constructor | software/Libraries/onspeed_core/EKF6.cpp:77-96 | Q and R come from the configuration, and the filter starts from a zero state and the initial covariance |
| Ekf6.Filter.Init | software/Libraries/onspeed_core/EKF6.cpp:102-121 | init sets the given attitude, zero alpha and biases, and the diagonal initial covariance |
| Ekf6.Filter.GetState | software/Libraries/onspeed_core/EKF6.cpp:139-141 | getState returns the six state entries in order |
| Ekf6.Filter.ResetAlphaCovariance | software/Libraries/onspeed_core/EKF6.cpp:143-150 | an uninitialised filter is untouched; otherwise alpha is decoupled and its variance reset |
| Ekf6.Filter.Predict | software/Libraries/onspeed_core/EKF6.cpp:156-301 | the state takes one Euler step and P becomes F P F' + Q |
| Ekf6.Filter.Correct | software/Libraries/onspeed_core/EKF6.cpp:307-519 | nothing changes when S cannot be inverted (exactly when some column stalls); otherwise x += K y and P becomes the Joseph form |
| Ekf6.Filter.Update | software/Libraries/onspeed_core/EKF6.cpp:127-137 | an update initialises on first use, predicts, then corrects at standard gravity, skipping the correction exactly when S is singular |

## Left out

- Floating point: every `float` and `double` is a real. Rounding, overflow to infinity, NaN and the float/double casts are not modelled. This includes the `static_cast<float>` of the Savitzky-Golay result in both copies (SavGolDerivative.h:77 and the M5 copy's line 74).
- Numeric.Trunc: C's float-to-int conversion is modelled as truncation toward zero for every real. C leaves the conversion undefined when the value does not fit the target type. The model picks the mathematical value instead.
- Audio.ScaleAndClampI16: for the `(int32_t)` cast at Audio.cpp:87, the clamp is proved for the truncated real value. A product beyond the int32 range, undefined in C, is not singled out.
- M5Serial.Slip: the `Slip` global is declared `int16_t` (SerialRead.h:19). The model truncates and clamps the int value and drops the narrowing to 16 bits that happens before the clamp at SerialRead.cpp:208-209. The two differ only when the smoothed lateral G exceeds about 38 G in magnitude.
- HkStep: the volume map at Housekeeping.cpp:133 calls mapfloat on the configured low and high knob readings. Nothing in the firmware keeps them apart. With equal ends the firmware divides by zero and converts the result to int, which C leaves undefined. The model requires `VolumeRangeOk` (different ends whenever volume control is on) for HkStep, PercentAfter, TickKeepsBounds, TickVolume and the HousekeepingTask methods. It therefore says nothing about a configuration with equal ends. TickWarnings and TickBlink are stated over the steps HkStep composes and hold for every configuration.
- The math library (sin, cos, pow, sqrt, strtof, strtol's locale handling, Arduino `String::toFloat` and `toInt`) is not modelled. sin, cos, pow, sqrt, strtof and toFloat/toInt are function parameters, so every property holds for any implementation of them. Only the digit loop of strtol is modelled (EfisCodec.Strtol).
- The VN-300 record: `array2float` and `array2double` reinterpret packet bytes as IEEE floats (EfisSerial.cpp:341-387). The model keeps the raw 127-byte packet and the GPS fix byte instead of the decoded floats. The UTC time text and its `millis()` fraction (EfisSerial.cpp:361-369) are not modelled.
- The time-of-day strings built with `snprintf` (EFIS `szTime`, MGL time) are not modelled. All `g_Log` logging is not modelled; the one log the model keeps is the IMU task's "late" report, as a flag.
- Clocks: `millis()` and `micros()` are parameters of the methods that read them. In the IMU task, `vTaskDelay` and the microsecond busy-wait become recorded sleep requests; the other tasks' delays are not modelled.
- Concurrency: the FreeRTOS tasks (`AudioPlayTask`, `AudioTestTask`, `SensorReadTask`, `HeartbeatLedTask`'s and `HousekeepingTask`'s endless loops) are modelled one pass at a time. Semaphores, task priorities and the atomics of `StartAudioTest`, `StopAudioTest`, `IsAudioTestRunning` and `AudioTest` (Audio.cpp:512-655) are not modelled.
- Audio initialisation: the I2S driver set-up and retry and the cosine tone table built in `AudioPlay::Init` (Audio.cpp:193-248) are not modelled. The tone table is a parameter, and `i2s.write` is a log of the frame batches written. `AudioPlay::SetToneFreq` (Audio.cpp:291-294) has an empty body and is not modelled.
- Buffer sizes from headers that are not part of this model are parameters: the EFIS binary buffer and line buffer sizes (EfisSerial.h), and SAMPLE_RATE (Audio.h). The constructors require only what the fixed indexing needs (127 bytes for VN-300 and 232 for lines). The IMU sample rate is a parameter of the scheduler.
- UART access: `Serial2.available()`/`read()` and the EFIS port's `available()`/`read()` are inputs: a sequence of waiting bytes, or one optional byte per call on the M5. The port set-up in `EfisSerialIO::Init` (`end`/`begin`) is not modelled; Init records only the EFIS type.
- MGL: the CRC32 at the end of an MGL message is never checked by the firmware, and the model does not check it either (EfisRecords.MglDecodeIgnoresChecksum).
- M5 display: the `DUMMY_SERIAL_DATA` build path, `checkSerial`, `readSerialbytes` and `serialSetup` (port auto-detection, SerialRead.cpp:225-342) are not modelled. The display globals are the fields of the `Display` class.
- SensorIO: `SensorReadTask` (SensorIO.cpp:45-86) is not modelled. Inside `SensorIO::Read`, the flaps and OAT reads (212-228), the running median and average filters, `AoaCalc` and `CurveCalc`, and the debug print (304-310) are not modelled either. The pressure-sensor drivers, `ReadPressureAltMbars` and `ReadOatC` (322-348) are foreign reads: their values enter as inputs.
- Volume reading and LED output: `ReadVolume` is an optional reading and `ledcWriteChannel` a log of duties written.
- EKF6: the degree accessors of `EKF6::State` (EKF6.cpp:64-69) are unit conversions and are not modelled. Convergence and numerical accuracy are not modelled. Ekf6Invert.Invert4x4: only the right-inverse identity A * A_inv = I is proved, not A_inv * A = I.
