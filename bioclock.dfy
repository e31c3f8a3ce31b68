/** `BioClock` (src/sectarii.rs): two oscillator channels, each a tri-state
    counter -1 -> 0 -> 1 -> -1 advanced whenever its own repeating timer fires. */
module BioClocks {
  import opened Timers

  /** The three values a channel can hold. */
  predicate Tri(s: int) { s == -1 || s == 0 || s == 1 }

  /** The `match` in `BioClock::tick`; any other value would panic, and the
      clock's invariant rules that out. The result is the next value in cyclic
      order: it is one more than `s`, modulo 3. */
  function Advance(s: int): (r: int)
    requires Tri(s)
    ensures Tri(r) && r != s
    ensures (r - s) % 3 == 1
  {
    match s
    case -1 => 0
    case 0 => 1
    case 1 => -1
  }

  /** The channel value after `n` firings from `s`. */
  function AdvanceN(s: int, n: nat): (r: int)
    requires Tri(s)
    ensures Tri(r)
    ensures (r - s) % 3 == n % 3
    decreases n
  {
    if n == 0 then s else Advance(AdvanceN(s, n - 1))
  }

  /** Two tri-state values that agree modulo 3 are equal. */
  lemma TriModular(a: int, b: int)
    requires Tri(a) && Tri(b)
    ensures a == b <==> (a - b) % 3 == 0
  {
  }

  /** A channel is back where it was exactly when the number of firings is a
      multiple of 3; more generally, two firing counts give the same value
      exactly when they agree modulo 3. */
  lemma SameState(s: int, n: nat, m: nat)
    requires Tri(s)
    ensures AdvanceN(s, n) == AdvanceN(s, m) <==> n % 3 == m % 3
    ensures AdvanceN(s, n) == s <==> n % 3 == 0
  {
    var a, b := AdvanceN(s, n), AdvanceN(s, m);
    TriModular(a, b);
    TriModular(a, s);
    assert (a - b) % 3 == ((a - s) - (b - s)) % 3;
  }

  class BioClock {
    var timerShort: Timer
    var timerLong: Timer
    var stateShort: int
    var stateLong: int
    /** How often each channel has fired since the clock was created. */
    ghost var firedShort: nat
    ghost var firedLong: nat

    /** Both timers repeat, and each channel holds its start value advanced once
        per firing of its own timer, so it never leaves {-1, 0, 1}. */
    ghost predicate Valid()
      reads this
    {
      && timerShort.Valid() && timerShort.mode == Repeating
      && timerLong.Valid() && timerLong.mode == Repeating
      && stateShort == AdvanceN(0, firedShort)
      && stateLong == AdvanceN(1, firedLong)
    }

    /** `BioClock::new`; the simulation builds it with periods 0.5 s and 4 s. */
    constructor (short: real, long: real)
      requires short > 0.0 && long > 0.0
      ensures Valid()
      ensures timerShort == FromSeconds(short, Repeating) && timerLong == FromSeconds(long, Repeating)
      ensures stateShort == 0 && stateLong == 1 && firedShort == 0 && firedLong == 0
    {
      timerShort := FromSeconds(short, Repeating);
      timerLong := FromSeconds(long, Repeating);
      stateShort, stateLong := 0, 1;
      firedShort, firedLong := 0, 0;
    }

    /** `BioClock::tick`: each timer is ticked by `delta`, and each channel
        advances by one step exactly when its own timer fired. */
    method Tick(delta: real)
      requires Valid() && delta >= 0.0
      modifies this
      ensures Valid()
      ensures timerShort == Timers.Tick(old(timerShort), delta)
      ensures timerLong == Timers.Tick(old(timerLong), delta)
      ensures stateShort == if timerShort.justFinished then Advance(old(stateShort)) else old(stateShort)
      ensures stateLong == if timerLong.justFinished then Advance(old(stateLong)) else old(stateLong)
      ensures firedShort == old(firedShort) + (if timerShort.justFinished then 1 else 0)
      ensures firedLong == old(firedLong) + (if timerLong.justFinished then 1 else 0)
    {
      timerShort := Timers.Tick(timerShort, delta);
      if timerShort.justFinished {
        stateShort := Advance(stateShort);
        firedShort := firedShort + 1;
      }
      timerLong := Timers.Tick(timerLong, delta);
      if timerLong.justFinished {
        stateLong := Advance(stateLong);
        firedLong := firedLong + 1;
      }
    }
  }
}
