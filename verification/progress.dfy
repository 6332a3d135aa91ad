/** The loading bar's animation: once per frame the elapsed time since the
    previous frame is read from a 32-bit millisecond tick counter, the
    progress fraction advances by a fixed rate per second until it reaches
    one, and the bar's fill is the background width times the fraction,
    truncated to whole pixels. */
module Progress {
  import opened Geometry

  /** Progress gained per second (`0.2f`): the bar fills in five seconds. */
  const Rate: real := 0.2
  /** The tick counter is an unsigned 32-bit count of milliseconds. */
  const TicksModulus: int := 0x1_0000_0000

  type Ticks = t: int | 0 <= t < TicksModulus

  /** Seconds between two tick readings: the unsigned 32-bit difference
      `now - last` (which wraps when the counter has rolled over) divided by
      1000. */
  function ElapsedSeconds(last: Ticks, now: Ticks): (dt: real)
    ensures 0.0 <= dt < TicksModulus as real / 1000.0
    ensures var ms := (dt * 1000.0).Floor;
            ms as real == dt * 1000.0 && (last + ms) % TicksModulus == now
  {
    var ms := if last <= now then now - last else now - last + TicksModulus;
    MillisecondsExact(ms);
    WrappedDifference(last, now, ms);
    ms as real / 1000.0
  }

  /** Dividing a whole number of milliseconds by 1000 loses nothing in exact arithmetic. */
  lemma MillisecondsExact(ms: int)
    ensures (ms as real / 1000.0) * 1000.0 == ms as real
    ensures ((ms as real / 1000.0) * 1000.0).Floor == ms
  {
  }

  /** The unsigned 32-bit difference of two readings: in range, and adding it
      to the earlier reading modulo 2^32 gives the later one. */
  lemma WrappedDifference(last: Ticks, now: Ticks, ms: int)
    requires ms == if last <= now then now - last else now - last + TicksModulus
    ensures 0 <= ms < TicksModulus
    ensures (last + ms) % TicksModulus == now
  {
    if last <= now {
      assert last + ms == now;
    } else {
      assert last + ms == now + TicksModulus;
    }
  }

  /** One frame's update of the progress fraction by `dt` seconds: while the
      fraction is below one it grows by `Rate * dt`, clamped at one; once it
      is one (or more) it is left alone. */
  function Step(p: real, dt: real): (p': real)
    ensures p >= 1.0 ==> p' == p
    ensures p < 1.0 ==> p' <= 1.0
    ensures 0.0 <= dt && p <= 1.0 ==> p <= p' <= 1.0
    ensures p < 1.0 && p + Rate * dt <= 1.0 ==> p' == p + Rate * dt
    ensures p < 1.0 && p + Rate * dt >= 1.0 ==> p' == 1.0
  {
    if p < 1.0 then
      var q := p + Rate * dt;
      if q > 1.0 then 1.0 else q
    else p
  }

  /** The state the frame loop carries from one frame to the next. */
  datatype Loop = Loop(lastTime: Ticks, progress: real)

  /** Before the first frame: the ticks read at start-up, no progress. */
  function Start(t0: Ticks): Loop
  {
    Loop(t0, 0.0)
  }

  /** One frame whose tick reading is `now`. */
  function Frame(s: Loop, now: Ticks): (s': Loop)
    ensures s'.lastTime == now
    ensures 0.0 <= s.progress <= 1.0 ==> s.progress <= s'.progress <= 1.0
    ensures s.progress == 1.0 ==> s'.progress == 1.0
  {
    Loop(now, Step(s.progress, ElapsedSeconds(s.lastTime, now)))
  }

  /** The frames whose tick readings are `nows`, in order. */
  function Run(s: Loop, nows: seq<Ticks>): Loop
    decreases |nows|
  {
    if |nows| == 0 then s else Run(Frame(s, nows[0]), nows[1..])
  }

  /** However the ticks advance (including a wrap of the counter), the
      fraction never decreases over a run and never exceeds one. */
  lemma {:induction false} RunMonotoneBounded(s: Loop, nows: seq<Ticks>)
    requires 0.0 <= s.progress <= 1.0
    ensures s.progress <= Run(s, nows).progress <= 1.0
    decreases |nows|
  {
    if |nows| > 0 {
      RunMonotoneBounded(Frame(s, nows[0]), nows[1..]);
    }
  }

  /** From start-up (no progress) the fraction stays in [0, 1] for every
      run of frames. */
  lemma StartRunBounded(t0: Ticks, nows: seq<Ticks>)
    ensures 0.0 <= Run(Start(t0), nows).progress <= 1.0
  {
    RunMonotoneBounded(Start(t0), nows);
  }

  /** Splitting a stretch of time into two frames changes nothing: the
      update is independent of the frame rate. */
  lemma StepAdditive(p: real, a: real, b: real)
    requires 0.0 <= p <= 1.0 && 0.0 <= a && 0.0 <= b
    ensures Step(Step(p, a), b) == Step(p, a + b)
  {
    assert Rate * (a + b) == Rate * a + Rate * b;
  }

  /** Total seconds elapsed over the frames whose tick readings are `nows`,
      starting from the reading `last`. */
  function TotalElapsed(last: Ticks, nows: seq<Ticks>): (t: real)
    ensures 0.0 <= t
    decreases |nows|
  {
    if |nows| == 0 then 0.0
    else ElapsedSeconds(last, nows[0]) + TotalElapsed(nows[0], nows[1..])
  }

  /** However the time is split into frames, a run ends at the fraction a
      single step over the total elapsed time gives. */
  lemma {:induction false} RunIsOneStep(s: Loop, nows: seq<Ticks>)
    requires 0.0 <= s.progress <= 1.0
    ensures Run(s, nows).progress == Step(s.progress, TotalElapsed(s.lastTime, nows))
    decreases |nows|
  {
    if |nows| > 0 {
      var e := ElapsedSeconds(s.lastTime, nows[0]);
      var s' := Frame(s, nows[0]);
      RunIsOneStep(s', nows[1..]);
      StepAdditive(s.progress, e, TotalElapsed(nows[0], nows[1..]));
    }
  }

  /** Once the bar is full it stays full, whatever frames follow. */
  lemma {:induction false} RunStaysComplete(s: Loop, nows: seq<Ticks>)
    requires s.progress == 1.0
    ensures Run(s, nows).progress == 1.0
    decreases |nows|
  {
    if |nows| > 0 {
      RunStaysComplete(Frame(s, nows[0]), nows[1..]);
    }
  }

  /** The loop remembers the last tick reading it saw. */
  lemma {:induction false} RunLastTime(s: Loop, nows: seq<Ticks>)
    requires |nows| > 0
    ensures Run(s, nows).lastTime == nows[|nows| - 1]
    decreases |nows|
  {
    if |nows| > 1 {
      RunLastTime(Frame(s, nows[0]), nows[1..]);
    }
  }

  /** `k` frames of `dt` seconds each, applied to the fraction `p`. */
  function Repeat(p: real, dt: real, k: nat): real
    decreases k
  {
    if k == 0 then p else Repeat(Step(p, dt), dt, k - 1)
  }

  /** The bar fills: `k` frames of `dt` seconds reach one once
      `k * Rate * dt` covers the remaining distance. */
  lemma {:induction false} RepeatCompletes(p: real, dt: real, k: nat)
    requires 0.0 <= p <= 1.0 && 0.0 <= dt
    requires p + k as real * Rate * dt >= 1.0
    ensures Repeat(p, dt, k) == 1.0
    decreases k
  {
    if k == 0 {
    } else if p == 1.0 {
      RepeatStaysComplete(dt, k - 1);
    } else {
      var q := Step(p, dt);
      if q == 1.0 {
        RepeatStaysComplete(dt, k - 1);
      } else {
        assert q == p + Rate * dt;
        assert q + (k - 1) as real * Rate * dt == p + k as real * Rate * dt;
        RepeatCompletes(q, dt, k - 1);
      }
    }
  }

  /** ... and not before: while `k * Rate * dt` falls short of the distance
      left, `k` frames advance the fraction by exactly that much. */
  lemma {:induction false} RepeatBelow(p: real, dt: real, k: nat)
    requires 0.0 <= p && 0.0 <= dt
    requires p + k as real * Rate * dt < 1.0
    ensures Repeat(p, dt, k) == p + k as real * Rate * dt
    decreases k
  {
    if k > 0 {
      var q := Step(p, dt);
      assert q == p + Rate * dt;
      assert q + (k - 1) as real * Rate * dt == p + k as real * Rate * dt;
      RepeatBelow(q, dt, k - 1);
    }
  }

  /** A full bar stays full over any number of equal frames. */
  lemma {:induction false} RepeatStaysComplete(dt: real, k: nat)
    ensures Repeat(1.0, dt, k) == 1.0
  {
    if k > 0 {
      RepeatStaysComplete(dt, k - 1);
    }
  }

  /** Five one-second frames take the bar from empty to exactly full, and a
      sixth leaves it full. */
  lemma FiveSecondsToFull()
    ensures Repeat(0.0, 1.0, 5) == 1.0
    ensures Step(Repeat(0.0, 1.0, 5), 1.0) == 1.0
  {
    RepeatCompletes(0.0, 1.0, 5);
  }

  /** The fill width for a bar `barWidth` wide at progress `p`:
      `(int)(barWidth * p)`. For a fraction in [0, 1] it lies between empty
      and full, is the largest whole width not beyond `barWidth * p`, and is
      exactly the full width at completion. */
  function FillWidth(barWidth: int, p: real): (w: int)
    ensures 0 <= barWidth && 0.0 <= p ==> 0 <= w && w as real <= barWidth as real * p < w as real + 1.0
    ensures 0 <= barWidth && p <= 1.0 ==> w <= barWidth
    ensures p == 1.0 ==> w == barWidth
  {
    var v := barWidth as real * p;
    ScaledFraction(barWidth, p);
    TruncBounds(v, barWidth);
    FillAtMost(barWidth, p);
    TruncReal(v)
  }

  /** A fraction at most one never fills past the bar. */
  lemma FillAtMost(barWidth: int, p: real)
    ensures 0 <= barWidth && p <= 1.0 ==> TruncReal(barWidth as real * p) <= barWidth
  {
    if 0 <= barWidth && p <= 1.0 {
      ScaledFraction(barWidth, p);
      TruncBounds(barWidth as real * p, barWidth);
    }
  }

  /** Truncation of a real toward zero, as the `(int)` cast of a float. */
  function TruncReal(v: real): (n: int)
    ensures 0.0 <= v ==> 0 <= n && n as real <= v < n as real + 1.0
    ensures v < 0.0 ==> n <= 0
    ensures v < 0.0 ==> v <= n as real < v + 1.0
  {
    if v >= 0.0 then v.Floor else -((-v).Floor)
  }

  // The lemmas from here to the end of the fill-width helpers keep real
  // multiplication and `Floor` in separate proof obligations: the solver is
  // unstable when it meets both in one.

  /** Truncation of a non-negative value is bounded by any whole number at or
      above it, and leaves a whole number unchanged. */
  lemma TruncBounds(v: real, n: int)
    ensures 0 <= n && v <= n as real ==> TruncReal(v) <= n
    ensures v == n as real ==> TruncReal(v) == n
  {
    if 0.0 <= v {
      FloorWithin(v, n);
    }
  }

  /** Where `barWidth * p` lies for a fraction `p`. */
  lemma ScaledFraction(barWidth: int, p: real)
    ensures 0 <= barWidth && 0.0 <= p ==> 0.0 <= barWidth as real * p
    ensures 0 <= barWidth && p <= 1.0 ==> barWidth as real * p <= barWidth as real
    ensures p == 1.0 ==> barWidth as real * p == barWidth as real
  {
    var a := barWidth as real;
    if 0 <= barWidth && 0.0 <= p {
      ProductNonNegative(a, p);
    }
    if 0 <= barWidth && p <= 1.0 {
      ProductAtMost(a, p);
    }
  }

  /** The fill never shrinks while the fraction grows. */
  lemma FillWidthMonotone(barWidth: nat, p: real, q: real)
    requires 0.0 <= p <= q
    ensures FillWidth(barWidth, p) <= FillWidth(barWidth, q)
  {
    var a := barWidth as real;
    ScaleMonotone(a, p, q);
    ProductNonNegative(a, p);
    FloorMonotone(a * p, a * q);
    assert TruncReal(a * p) == (a * p).Floor;
    assert TruncReal(a * q) == (a * q).Floor;
  }

  /** A product of non-negative reals is non-negative. */
  lemma ProductNonNegative(a: real, p: real)
    requires 0.0 <= a && 0.0 <= p
    ensures 0.0 <= a * p
  {
  }

  /** Scaling a non-negative real by at most one does not enlarge it. */
  lemma ProductAtMost(a: real, p: real)
    requires 0.0 <= a && p <= 1.0
    ensures a * p <= a
  {
    ScaleMonotone(a, p, 1.0);
  }

  /** Scaling by a non-negative real preserves order. */
  lemma ScaleMonotone(a: real, p: real, q: real)
    requires 0.0 <= a
    ensures p <= q ==> a * p <= a * q
  {
    if p <= q {
      assert a * q - a * p == a * (q - p);
      assert a * (q - p) >= 0.0;
    }
  }

  /** The floor of a non-negative real is non-negative and below any whole bound above it. */
  lemma FloorWithin(v: real, n: int)
    requires 0.0 <= v
    ensures 0 <= v.Floor
    ensures v <= n as real ==> v.Floor <= n
  {
  }

  /** `Floor` preserves order. */
  lemma FloorMonotone(u: real, v: real)
    requires u <= v
    ensures u.Floor <= v.Floor
  {
  }

  /** The foreground drawn over the bar's background `bg` at progress `p`:
      same position and height, width `FillWidth`. */
  function Foreground(bg: Rect, p: real): (fg: Rect)
    ensures fg.x == bg.x && fg.y == bg.y && fg.h == bg.h
    ensures 0 <= bg.w && 0.0 <= p <= 1.0 ==> 0 <= fg.w <= bg.w
    ensures p == 1.0 ==> fg == bg
  {
    bg.(w := FillWidth(bg.w, p))
  }

  /** Over any run of frames the yellow fill only grows and never leaves
      the background. */
  lemma RunFillGrows(bg: Rect, s: Loop, nows: seq<Ticks>)
    requires 0 <= bg.w
    requires 0.0 <= s.progress <= 1.0
    ensures var before := Foreground(bg, s.progress);
            var after := Foreground(bg, Run(s, nows).progress);
            before.w <= after.w <= bg.w
  {
    RunMonotoneBounded(s, nows);
    FillWidthMonotone(bg.w, s.progress, Run(s, nows).progress);
  }
}
