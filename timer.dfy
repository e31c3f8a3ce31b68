/** Bevy's `Timer`, reduced to what the simulation relies on: an elapsed time
    measured against a duration, in one-shot or repeating mode. Times are seconds. */
module Timers {

  datatype TimerMode = Once | Repeating

  /** `finished` is Bevy's `finished()`, `justFinished` is `just_finished()`
      (the timer reached its duration during the last tick). */
  datatype Timer = Timer(duration: real, elapsed: real, mode: TimerMode, finished: bool, justFinished: bool)
  {
    predicate Valid() {
      && duration > 0.0
      && elapsed >= 0.0
      && (justFinished ==> finished)
      && (mode == Once ==> elapsed <= duration && (finished <==> elapsed == duration))
    }
  }

  function Min(a: real, b: real): real { if a <= b then a else b }

  /** `Timer::from_seconds` */
  function FromSeconds(duration: real, mode: TimerMode): (t: Timer)
    requires duration > 0.0
    ensures t.Valid() && t.duration == duration && t.mode == mode
    ensures t.elapsed == 0.0 && !t.finished && !t.justFinished
  {
    Timer(duration, 0.0, mode, false, false)
  }

  /** What is left of `e` after removing whole laps of length `d`. */
  function Wrap(e: real, d: real): (r: real)
    requires e >= 0.0 && d > 0.0
    ensures 0.0 <= r < d
    ensures exists laps: nat :: r + Laps(laps, d) == e
  {
    var q := (e / d).Floor;
    assert 0 <= q by { assert e / d >= 0.0; }
    LapsBound(e, d, q);
    e - Laps(q, d)
  }

  function Laps(n: nat, d: real): real { (n as real) * d }

  lemma LapsBound(e: real, d: real, q: nat)
    requires e >= 0.0 && d > 0.0
    requires q as real <= e / d < q as real + 1.0
    ensures Laps(q, d) <= e < Laps(q, d) + d
  {
    var x := e / d;
    assert e == x * d;
    ScaleBelow(e, x, d, q as real);
    ScaleAbove(e, x, d, q as real);
  }

  /** The lower bound of `LapsBound`, for a quotient `x` of `e` by `d`. */
  lemma ScaleBelow(e: real, x: real, d: real, a: real)
    requires d > 0.0 && e == x * d && a <= x
    ensures a * d <= e
  {
    var g := x - a;
    assert g * d >= 0.0;
    assert g * d == x * d - a * d;
  }

  /** The upper bound of `LapsBound`, for a quotient `x` of `e` by `d`. */
  lemma ScaleAbove(e: real, x: real, d: real, a: real)
    requires d > 0.0 && e == x * d && x < a + 1.0
    ensures e < a * d + d
  {
    var g := a + 1.0 - x;
    assert g * d > 0.0;
    assert g * d == a * d + d - x * d;
  }

  /** `Timer::tick`: a finished one-shot timer stays as it is and does not fire
      again; otherwise the elapsed time grows by `delta`, and when it reaches the
      duration the timer fires (a repeating timer keeps the remainder, a one-shot
      timer saturates). */
  function Tick(t: Timer, delta: real): (r: Timer)
    requires t.Valid() && delta >= 0.0
    ensures r.Valid() && r.duration == t.duration && r.mode == t.mode
    ensures r.justFinished <==> (t.mode == Repeating || !t.finished) && t.elapsed + delta >= t.duration
    ensures t.mode == Once ==> r.elapsed == Min(t.elapsed + delta, t.duration)
    ensures t.mode == Once ==> (r.finished <==> t.elapsed + delta >= t.duration)
    ensures t.mode == Repeating ==> r.finished == r.justFinished && 0.0 <= r.elapsed < r.duration
    ensures t.mode == Repeating ==> exists laps: nat :: r.elapsed + Laps(laps, t.duration) == t.elapsed + delta
  {
    if t.mode == Once && t.finished then
      t.(justFinished := false)
    else
      var e := t.elapsed + delta;
      if e >= t.duration then
        if t.mode == Repeating then
          t.(elapsed := Wrap(e, t.duration), finished := true, justFinished := true)
        else
          t.(elapsed := t.duration, finished := true, justFinished := true)
      else
        assert e + Laps(0, t.duration) == e;
        t.(elapsed := e, finished := false, justFinished := false)
  }

  /** `Timer::reset` */
  function Reset(t: Timer): (r: Timer)
    requires t.Valid()
    ensures r.Valid() && r.duration == t.duration && r.mode == t.mode
    ensures r.elapsed == 0.0 && !r.finished && !r.justFinished
  {
    t.(elapsed := 0.0, finished := false, justFinished := false)
  }

  /** `Timer::set_duration` on a repeating timer: only the duration changes. */
  function SetDuration(t: Timer, d: real): (r: Timer)
    requires t.Valid() && t.mode == Repeating && d > 0.0
    ensures r.Valid() && r.duration == d
    ensures r.elapsed == t.elapsed && r.mode == t.mode && r.finished == t.finished && r.justFinished == t.justFinished
  {
    t.(duration := d)
  }

  predicate NonNegative(ds: seq<real>) { forall i :: 0 <= i < |ds| ==> ds[i] >= 0.0 }

  /** The timer after ticking by each delta of `ds` in turn. */
  function Run(t: Timer, ds: seq<real>): (r: Timer)
    requires t.Valid() && NonNegative(ds)
    ensures r.Valid() && r.mode == t.mode && r.duration == t.duration
    decreases |ds|
  {
    if ds == [] then t else Run(Tick(t, ds[0]), ds[1..])
  }

  /** How many of those ticks fired. */
  function Firings(t: Timer, ds: seq<real>): nat
    requires t.Valid() && NonNegative(ds)
    decreases |ds|
  {
    if ds == [] then 0
    else (if Tick(t, ds[0]).justFinished then 1 else 0) + Firings(Tick(t, ds[0]), ds[1..])
  }

  /** A one-shot timer fires at most once over any run of ticks, and not at all
      once it has finished (it is not reset in between). */
  lemma {:induction false} OnceFiresAtMostOnce(t: Timer, ds: seq<real>)
    requires t.Valid() && t.mode == Once && NonNegative(ds)
    ensures Firings(t, ds) <= (if t.finished then 0 else 1)
    ensures t.finished ==> Run(t, ds) == t.(justFinished := Run(t, ds).justFinished)
    decreases |ds|
  {
    if ds != [] {
      var t' := Tick(t, ds[0]);
      OnceFiresAtMostOnce(t', ds[1..]);
      if t'.justFinished {
        assert t'.finished;
      }
    }
  }
}
