/**
 * The panel LED heartbeat: a fast blink (a toggle every tick) while audio is
 * enabled, a slow blink (a toggle every third tick) while it is muted, so the
 * pilot can see that the stall warning is still armed. The PWM channel is a
 * sink: `duties` records every duty cycle written to it.
 */
module Heartbeat {
  import opened Wrappers

  /** PWM duty for a lit LED (8-bit timer). */
  const LED_ON_DUTY: int := 200
  const LED_OFF_DUTY: int := 0
  /** Muted ticks per toggle. */
  const SLOW_BLINK_TICKS: int := 3

  datatype BlinkState = BlinkState(ledOn: bool, slowBlinkCounter: int)

  /** The duty written when the LED goes to `on`. */
  function Duty(on: bool): int {
    if on then LED_ON_DUTY else LED_OFF_DUTY
  }

  /**
   * One tick of the blink machine: the new state and the duty written, if
   * the LED toggled. Audio enabled toggles and clears the slow counter;
   * muted counts, and toggles (clearing the counter) when it reaches 3.
   */
  function BlinkStep(s: BlinkState, audioEnable: bool): (r: (BlinkState, Option<int>))
    ensures r.1.Some? <==> r.0.ledOn != s.ledOn
    ensures r.1.Some? ==> r.1.value == Duty(r.0.ledOn)
    ensures r.1 == Some(LED_ON_DUTY) <==> !s.ledOn && r.0.ledOn
    ensures r.0.slowBlinkCounter <= SLOW_BLINK_TICKS - 1
    ensures s.slowBlinkCounter >= -1 ==> 0 <= r.0.slowBlinkCounter
  {
    if audioEnable then
      (BlinkState(!s.ledOn, 0), Some(Duty(!s.ledOn)))
    else if s.slowBlinkCounter + 1 >= SLOW_BLINK_TICKS then
      (BlinkState(!s.ledOn, 0), Some(Duty(!s.ledOn)))
    else
      (BlinkState(s.ledOn, s.slowBlinkCounter + 1), None)
  }

  /** The duties a tick writes: none, or the one it toggled to. */
  function Written(duty: Option<int>): (w: seq<int>)
    ensures |w| <= 1
  {
    if duty.Some? then [duty.value] else []
  }

  /** The state after a sequence of ticks, and the duties written on the way. */
  function Blinks(s: BlinkState, audioEnables: seq<bool>): (r: (BlinkState, seq<int>))
    decreases |audioEnables|
  {
    if audioEnables == [] then (s, [])
    else
      var first := BlinkStep(s, audioEnables[0]);
      var rest := Blinks(first.0, audioEnables[1..]);
      (rest.0, Written(first.1) + rest.1)
  }

  /** The counter stays in [0, 2] from any start in that range. */
  lemma {:induction false} CounterStaysInRange(s: BlinkState, audioEnables: seq<bool>)
    requires 0 <= s.slowBlinkCounter < SLOW_BLINK_TICKS
    ensures 0 <= Blinks(s, audioEnables).0.slowBlinkCounter < SLOW_BLINK_TICKS
    decreases |audioEnables|
  {
    if audioEnables != [] {
      CounterStaysInRange(BlinkStep(s, audioEnables[0]).0, audioEnables[1..]);
    }
  }

  function Repeat(b: bool, n: nat): (r: seq<bool>)
    ensures |r| == n && forall i :: 0 <= i < n ==> r[i] == b
  {
    if n == 0 then [] else [b] + Repeat(b, n - 1)
  }

  /**
   * With audio enabled the LED toggles on every tick: n ticks write n
   * duties, alternating, the first one turning the LED the other way.
   */
  lemma {:induction false} FastBlink(s: BlinkState, n: nat)
    ensures Blinks(s, Repeat(true, n)).0 == BlinkState(if n % 2 == 0 then s.ledOn else !s.ledOn, if n == 0 then s.slowBlinkCounter else 0)
    ensures |Blinks(s, Repeat(true, n)).1| == n
    ensures forall i :: 0 <= i < n ==> Blinks(s, Repeat(true, n)).1[i] == Duty(if i % 2 == 0 then !s.ledOn else s.ledOn)
    decreases n
  {
    if n > 0 {
      var next := BlinkState(!s.ledOn, 0);
      assert Repeat(true, n)[1..] == Repeat(true, n - 1);
      FastBlink(next, n - 1);
      var tail := Blinks(next, Repeat(true, n - 1)).1;
      assert Blinks(s, Repeat(true, n)).1 == [Duty(!s.ledOn)] + tail;
    }
  }

  /**
   * While muted the LED toggles once every three ticks: from counter c in
   * [0, 2], n muted ticks leave the counter at (c + n) % 3 and write
   * (c + n) / 3 duties.
   */
  lemma {:induction false} SlowBlink(s: BlinkState, n: nat)
    requires 0 <= s.slowBlinkCounter < SLOW_BLINK_TICKS
    ensures Blinks(s, Repeat(false, n)).0.slowBlinkCounter == (s.slowBlinkCounter + n) % SLOW_BLINK_TICKS
    ensures |Blinks(s, Repeat(false, n)).1| == (s.slowBlinkCounter + n) / SLOW_BLINK_TICKS
    ensures Blinks(s, Repeat(false, n)).0.ledOn == (if ((s.slowBlinkCounter + n) / SLOW_BLINK_TICKS) % 2 == 0 then s.ledOn else !s.ledOn)
    decreases n
  {
    if n > 0 {
      var first := BlinkStep(s, false);
      assert Repeat(false, n)[1..] == Repeat(false, n - 1);
      SlowBlink(first.0, n - 1);
      var c := s.slowBlinkCounter;
      if c + 1 >= SLOW_BLINK_TICKS {
        assert c == 2 && first.0.slowBlinkCounter == 0;
        assert (c + n) / SLOW_BLINK_TICKS == (n - 1) / SLOW_BLINK_TICKS + 1;
        assert (c + n) % SLOW_BLINK_TICKS == (n - 1) % SLOW_BLINK_TICKS;
      } else {
        assert first.0.slowBlinkCounter == c + 1;
      }
    }
  }

  /** The LED of the HeartbeatLedTask loop and its two function-static variables. */
  class HeartbeatLed {
    var ledOn: bool
    var slowBlinkCounter: int
    /** Every duty written to the LED channel so far. */
    var duties: seq<int>

    ghost function State(): BlinkState
      reads this
    {
      BlinkState(ledOn, slowBlinkCounter)
    }

    constructor ()
      ensures State() == BlinkState(false, 0) && duties == []
    {
      ledOn := false;
      slowBlinkCounter := 0;
      duties := [];
    }

    /** One 300 ms pass of the task loop (the delay itself is not modelled). */
    method Tick(audioEnable: bool)
      modifies this
      ensures State() == BlinkStep(old(State()), audioEnable).0
      ensures duties == old(duties) + Written(BlinkStep(old(State()), audioEnable).1)
    {
      if audioEnable {
        slowBlinkCounter := 0;
        if ledOn {
          duties := duties + [0];
          ledOn := false;
        } else {
          duties := duties + [200];
          ledOn := true;
        }
      } else {
        slowBlinkCounter := slowBlinkCounter + 1;
        if slowBlinkCounter >= 3 {
          slowBlinkCounter := 0;
          if ledOn {
            duties := duties + [0];
            ledOn := false;
          } else {
            duties := duties + [200];
            ledOn := true;
          }
        }
      }
    }

    /** The task loop over a finite run of ticks, one audio-enable reading per tick. */
    method Run(audioEnables: seq<bool>)
      modifies this
      ensures State() == Blinks(old(State()), audioEnables).0
      ensures duties == old(duties) + Blinks(old(State()), audioEnables).1
    {
      ghost var s0 := State();
      ghost var d0 := duties;
      for i := 0 to |audioEnables|
        invariant Blinks(s0, audioEnables).0 == Blinks(State(), audioEnables[i..]).0
        invariant d0 + Blinks(s0, audioEnables).1 == duties + Blinks(State(), audioEnables[i..]).1
      {
        ghost var rest := audioEnables[i..];
        ghost var step := BlinkStep(State(), audioEnables[i]);
        ghost var later := Blinks(step.0, audioEnables[i + 1..]);
        assert rest[0] == audioEnables[i] && rest[1..] == audioEnables[i + 1..];
        assert Blinks(State(), rest) == (later.0, Written(step.1) + later.1);
        ghost var dBefore := duties;
        Tick(audioEnables[i]);
        assert dBefore + (Written(step.1) + later.1) == duties + later.1;
      }
      assert audioEnables[|audioEnables|..] == [];
    }
  }
}
