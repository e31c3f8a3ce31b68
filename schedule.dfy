/** `update_system` and `StartupProcedure` (src/sectarii.rs): a repeating review
    timer that sweeps the render handles of extinct species and alternates the
    controllers' pruning mode, and three one-shot timers that grow the
    controllers' input arity twice and hold back pruning for a grace period
    after each growth. */
module Schedule {
  import opened Timers
  import opened Ecs
  import opened Controllers

  /** The review period the simulation starts with. */
  const FirstReview: real := 60.0
  /** Review period before the grace timer has run out. */
  const GraceReview: real := 90.0
  /** Review period after pruning is switched off. */
  const GrowReview: real := 180.0
  /** Review period after pruning is switched on. */
  const PruneReview: real := 20.0
  /** The pruning rate every review sets. */
  const PruneRate: real := 0.2
  /** Durations of the one-shot timers `p0`, `p1` and `p2`. */
  const FirstGrowth: real := 600.0
  const SecondGrowth: real := 2400.0
  const Grace: real := 720.0
  /** Inputs added by the first and the second growth. */
  const FirstInputs: nat := 2
  const SecondInputs: nat := 4

  /** The pruning flag and review period a review chooses: before the grace
      timer has finished pruning is switched off for 90 s; afterwards the flag
      is flipped, with 180 s of growth after pruning and 20 s of pruning after
      growth. */
  function Review(graceOver: bool, pruning: bool): (r: (bool, real))
    ensures r.0 ==> graceOver && !pruning && r.1 == PruneReview
    ensures !r.0 ==> r.1 == (if graceOver then GrowReview else GraceReview)
    ensures graceOver ==> r.0 == !pruning
    ensures !graceOver ==> !r.0
  {
    if graceOver then
      if pruning then (false, GrowReview) else (true, PruneReview)
    else (false, GraceReview)
  }

  /** The pruning flag after `n` reviews once the grace period is over. */
  function Reviews(pruning: bool, n: nat): bool
    decreases n
  {
    if n == 0 then pruning else Review(true, Reviews(pruning, n - 1)).0
  }

  /** Once the grace period is over, the reviews alternate pruning and growth:
      after `n` of them the flag is flipped exactly when `n` is odd, and a run
      of two reviews takes 200 s. */
  lemma {:induction false} ReviewsAlternate(pruning: bool, n: nat)
    ensures Reviews(pruning, n) == (if n % 2 == 0 then pruning else !pruning)
    ensures Review(true, pruning).1 + Review(true, Review(true, pruning).0).1 == GrowReview + PruneReview
    decreases n
  {
    if n > 0 {
      ReviewsAlternate(pruning, n - 1);
    }
  }

  /** The species whose handles a sweep removes: those with a material handle
      that the live species table no longer lists. */
  function Stale(material: map<nat, int>, live: set<nat>): (r: set<nat>)
    ensures r <= material.Keys && r !! live
  {
    set k | k in material && k !in live
  }

  /** After a sweep, every species left with a material handle is live; the
      swept species have lost both handles, and every other entry of either map
      is kept as it was. */
  lemma SweepSound(material: map<nat, int>, mesh: map<nat, int>, live: set<nat>)
    ensures var tbd := Stale(material, live);
            && (forall k :: k in material - tbd ==> k in live)
            && (forall k :: k in tbd ==> k !in material - tbd && k !in mesh - tbd)
            && (forall k :: k in material && k in live ==> k in material - tbd && (material - tbd)[k] == material[k])
            && (forall k :: k in mesh && k !in tbd ==> k in mesh - tbd && (mesh - tbd)[k] == mesh[k])
            && (forall k :: k in material ==> (k in material - tbd <==> k in live))
  {
  }

  /** The sweep: the handles of every stale species are removed from both maps.
      The mesh handle is unwrapped, so every stale species must have one. */
  method Sweep(h: Handlers, live: set<nat>)
    requires forall k :: k in h.materialSectarii && k !in live ==> k in h.meshSectarii
    modifies h
    ensures h.materialSectarii == old(h.materialSectarii) - Stale(old(h.materialSectarii), live)
    ensures h.meshSectarii == old(h.meshSectarii) - Stale(old(h.materialSectarii), live)
    ensures h.meshFood == old(h.meshFood) && h.materialFood == old(h.materialFood)
  {
    var tbd := set k | k in h.materialSectarii && k !in live;
    var material, mesh := h.materialSectarii, h.meshSectarii;
    var todo := tbd;
    while todo != {}
      invariant todo <= tbd
      invariant material == h.materialSectarii - (tbd - todo)
      invariant mesh == h.meshSectarii - (tbd - todo)
      invariant forall k :: k in todo ==> k in material && k in mesh
      decreases todo
    {
      var k :| k in todo;
      material := material - {k};
      mesh := mesh - {k};
      todo := todo - {k};
    }
    h.materialSectarii, h.meshSectarii := material, mesh;
  }

  /** Input arity as a function of which growth timers have finished. */
  function Arity(first: bool, second: bool): nat
  {
    BaseInputs + (if first then FirstInputs else 0) + (if second then SecondInputs else 0)
  }

  /** The startup procedure's timers at simulated time `now`: each growth
      timer has run for the time since startup and the grace timer for the
      time since `graceStart`, each saturating at its duration. */
  ghost predicate Startup(p0: Timer, p1: Timer, p2: Timer, now: real, graceStart: real)
  {
    && p0.Valid() && p0.mode == Once && p0.duration == FirstGrowth && p0.elapsed == Min(now, FirstGrowth)
    && p1.Valid() && p1.mode == Once && p1.duration == SecondGrowth && p1.elapsed == Min(now, SecondGrowth)
    && p2.Valid() && p2.mode == Once && p2.duration == Grace
    && 0.0 <= graceStart <= now && p2.elapsed == Min(now - graceStart, Grace)
  }

  /** The update timers: `timer` (the review) and the startup procedure
      `p0`, `p1`, `p2`. `now` is the simulated time since startup and
      `graceStart` the time the grace timer `p2` last started counting. */
  class Scheduler {
    var review: Timer
    var p0: Timer
    var p1: Timer
    var p2: Timer
    ghost var now: real
    ghost var graceStart: real

    /** The review timer repeats with one of the four periods; each one-shot
        timer has the duration it was created with and has run for the time
        elapsed since it last started, up to that duration. */
    ghost predicate Valid()
      reads this
    {
      && review.Valid() && review.mode == Repeating
      && (review.duration == FirstReview || review.duration == GraceReview
          || review.duration == GrowReview || review.duration == PruneReview)
      && Startup(p0, p1, p2, now, graceStart)
    }

    /** `UpdateTimer(Timer::from_seconds(60, Repeating))` and
        `StartupProcedure::default`. */
    constructor ()
      ensures Valid() && now == 0.0 && graceStart == 0.0
      ensures review == FromSeconds(FirstReview, Repeating)
      ensures p0 == FromSeconds(FirstGrowth, Once) && p1 == FromSeconds(SecondGrowth, Once)
      ensures p2 == FromSeconds(Grace, Once)
    {
      review := FromSeconds(FirstReview, Repeating);
      p0 := FromSeconds(FirstGrowth, Once);
      p1 := FromSeconds(SecondGrowth, Once);
      p2 := FromSeconds(Grace, Once);
      now, graceStart := 0.0, 0.0;
    }
  }

  /** The controllers' arity matches the growth timers that have finished, and
      once the first review has happened the pruning flag, rate and review
      period agree with each other. */
  ghost predicate Staged(s: Scheduler, pop: Population)
    reads s, pop
  {
    && pop.inputs == Arity(s.p0.finished, s.p1.finished)
    && (s.review.duration != FirstReview ==>
          pop.pruningRate == PruneRate && (pop.pruning <==> s.review.duration == PruneReview))
  }

  /** The arity runs 5, 7, 11: 5 before 600 s, 7 until 2400 s, 11 from then on. */
  lemma ArityStages(s: Scheduler, pop: Population)
    requires s.Valid() && Staged(s, pop)
    ensures pop.inputs == 5 <==> s.now < FirstGrowth
    ensures pop.inputs == 7 <==> FirstGrowth <= s.now < SecondGrowth
    ensures pop.inputs == 11 <==> SecondGrowth <= s.now
  {
  }

  /** Whether a one-shot timer that has run for `Min(elapsed, d)` has finished. */
  lemma OnceFinished(t: Timer, e: real)
    requires t.Valid() && t.mode == Once && e >= 0.0 && t.elapsed == Min(e, t.duration)
    ensures t.finished <==> e >= t.duration
  {
  }

  /** Saturating a clock that advances by `delta`. */
  lemma MinShift(x: real, d: real, delta: real)
    requires delta >= 0.0
    ensures Min(Min(x, d) + delta, d) == Min(x + delta, d)
  {
  }

  /** The review half of `update_system`: ticks the review timer and, when it
      fires, sweeps the handles of extinct species and sets pruning and the
      next period. The pruning flag is read from one controller of the
      population (`agents.iter().next().unwrap()`), so when the grace timer has
      finished the population must be non-empty. */
  method ReviewStep(s: Scheduler, pop: Population, h: Handlers, delta: real)
    requires s.Valid() && Staged(s, pop) && delta >= 0.0
    requires forall k :: k in h.materialSectarii && k !in pop.species ==> k in h.meshSectarii
    requires Tick(s.review, delta).justFinished && s.p2.finished ==> pop.fitness != map[]
    modifies s, pop, h
    ensures s.Valid() && Staged(s, pop)
    ensures var fired := Tick(old(s.review), delta).justFinished;
            var (on, period) := Review(old(s.p2.finished), old(pop.pruning));
            && (fired ==> && s.review == SetDuration(Tick(old(s.review), delta), period)
                          && pop.pruning == on && pop.pruningRate == PruneRate
                          && h.materialSectarii == old(h.materialSectarii) - Stale(old(h.materialSectarii), old(pop.species))
                          && h.meshSectarii == old(h.meshSectarii) - Stale(old(h.materialSectarii), old(pop.species)))
            && (!fired ==> && s.review == Tick(old(s.review), delta)
                           && pop.pruning == old(pop.pruning) && pop.pruningRate == old(pop.pruningRate)
                           && h.materialSectarii == old(h.materialSectarii) && h.meshSectarii == old(h.meshSectarii))
    ensures s.p0 == old(s.p0) && s.p1 == old(s.p1) && s.p2 == old(s.p2)
    ensures s.now == old(s.now) && s.graceStart == old(s.graceStart)
    ensures pop.inputs == old(pop.inputs) && pop.species == old(pop.species)
    ensures pop.fitness == old(pop.fitness) && pop.nextKey == old(pop.nextKey)
    ensures h.meshFood == old(h.meshFood) && h.materialFood == old(h.materialFood)
  {
    s.review := Tick(s.review, delta);
    if s.review.justFinished {
      Sweep(h, pop.species);
      var (on, period) := Review(s.p2.finished, pop.pruning);
      pop.SetPruning(on, PruneRate);
      s.review := SetDuration(s.review, period);
    }
  }

  /** One growth timer of the startup procedure (`p0` when `first`, else
      `p1`) is ticked; when it fires, the controllers gain its inputs and the
      grace timer is reset. */
  method Grow(s: Scheduler, pop: Population, first: bool, delta: real) returns (fired: bool)
    requires s.p0.Valid() && s.p1.Valid() && s.p2.Valid() && delta >= 0.0
    modifies s, pop
    ensures var t := if first then old(s.p0) else old(s.p1);
            fired == Tick(t, delta).justFinished
            && (if first then s.p0 == Tick(t, delta) && s.p1 == old(s.p1)
                else s.p1 == Tick(t, delta) && s.p0 == old(s.p0))
    ensures s.p2 == if fired then Reset(old(s.p2)) else old(s.p2)
    ensures pop.inputs == old(pop.inputs) + (if fired then (if first then FirstInputs else SecondInputs) else 0)
    ensures s.review == old(s.review) && s.now == old(s.now) && s.graceStart == old(s.graceStart)
    ensures pop.pruning == old(pop.pruning) && pop.pruningRate == old(pop.pruningRate)
    ensures pop.species == old(pop.species) && pop.fitness == old(pop.fitness) && pop.nextKey == old(pop.nextKey)
  {
    if first {
      s.p0 := Tick(s.p0, delta);
      fired := s.p0.justFinished;
      if fired {
        pop.AddInput();
        pop.AddInput();
        s.p2 := Reset(s.p2);
      }
    } else {
      s.p1 := Tick(s.p1, delta);
      fired := s.p1.justFinished;
      if fired {
        pop.AddInput();
        pop.AddInput();
        pop.AddInput();
        pop.AddInput();
        s.p2 := Reset(s.p2);
      }
    }
  }

  /** A growth timer's `finished` tracks the simulated time before and after a
      tick, so it fires exactly when the time crosses its duration. */
  lemma GrowthTick(t: Timer, now: real, delta: real)
    requires t.Valid() && t.mode == Once && now >= 0.0 && delta >= 0.0 && t.elapsed == Min(now, t.duration)
    ensures Tick(t, delta).elapsed == Min(now + delta, t.duration)
    ensures t.finished <==> now >= t.duration
    ensures Tick(t, delta).finished <==> now + delta >= t.duration
    ensures Tick(t, delta).justFinished <==> now < t.duration <= now + delta
  {
    OnceFinished(t, now);
    MinShift(now, t.duration, delta);
  }

  /** One step of the startup procedure keeps its timers in step with the
      simulated time, with the grace timer restarted when a growth timer
      fires, and the arity grows by the inputs of the timers that fired. */
  lemma StartupStep(p0: Timer, p1: Timer, p2: Timer, now: real, graceStart: real, delta: real)
    requires Startup(p0, p1, p2, now, graceStart) && delta >= 0.0
    ensures var grown := Tick(p0, delta).justFinished || Tick(p1, delta).justFinished;
            Startup(Tick(p0, delta), Tick(p1, delta), Tick(if grown then Reset(p2) else p2, delta),
                    now + delta, if grown then now else graceStart)
    ensures Arity(Tick(p0, delta).finished, Tick(p1, delta).finished)
            == Arity(p0.finished, p1.finished) + (if Tick(p0, delta).justFinished then FirstInputs else 0)
                                               + (if Tick(p1, delta).justFinished then SecondInputs else 0)
  {
    GrowthTick(p0, now, delta);
    GrowthTick(p1, now, delta);
    var g := if Tick(p0, delta).justFinished || Tick(p1, delta).justFinished then now else graceStart;
    MinShift(now - g, Grace, delta);
  }

  /** The startup half of `update_system`: `p0` and `p1` are ticked, each
      adds its inputs and restarts the grace timer when it fires, and then the
      grace timer is ticked. */
  method GrowthStep(s: Scheduler, pop: Population, delta: real)
    requires s.Valid() && Staged(s, pop) && delta >= 0.0
    modifies s, pop
    ensures s.review == old(s.review)
    ensures pop.pruning == old(pop.pruning) && pop.pruningRate == old(pop.pruningRate)
    ensures pop.species == old(pop.species) && pop.fitness == old(pop.fitness) && pop.nextKey == old(pop.nextKey)
    ensures s.now == old(s.now) + delta
    ensures s.p0 == Tick(old(s.p0), delta) && s.p1 == Tick(old(s.p1), delta)
    ensures var grown := s.p0.justFinished || s.p1.justFinished;
            && s.p2 == Tick(if grown then Reset(old(s.p2)) else old(s.p2), delta)
            && s.graceStart == (if grown then old(s.now) else old(s.graceStart))
    ensures pop.inputs == old(pop.inputs) + (if s.p0.justFinished then FirstInputs else 0)
                                          + (if s.p1.justFinished then SecondInputs else 0)
    ensures s.Valid() && Staged(s, pop)
  {
    StartupStep(s.p0, s.p1, s.p2, s.now, s.graceStart, delta);
    ghost var t0, g0 := s.now, s.graceStart;
    var first := Grow(s, pop, true, delta);
    var second := Grow(s, pop, false, delta);
    ghost var g := if first || second then t0 else g0;
    s.p2 := Tick(s.p2, delta);
    s.now, s.graceStart := t0 + delta, g;
  }

  /** `update_system`: the review, then the startup procedure. */
  method UpdateSystem(s: Scheduler, pop: Population, h: Handlers, delta: real)
    requires s.Valid() && Staged(s, pop) && delta >= 0.0
    requires forall k :: k in h.materialSectarii && k !in pop.species ==> k in h.meshSectarii
    requires Tick(s.review, delta).justFinished && s.p2.finished ==> pop.fitness != map[]
    modifies s, pop, h
    ensures s.Valid() && Staged(s, pop) && s.now == old(s.now) + delta
    ensures var fired := Tick(old(s.review), delta).justFinished;
            var (on, period) := Review(old(s.p2.finished), old(pop.pruning));
            && (fired ==> && s.review == SetDuration(Tick(old(s.review), delta), period)
                          && pop.pruning == on && pop.pruningRate == PruneRate)
            && (!fired ==> && s.review == Tick(old(s.review), delta)
                           && pop.pruning == old(pop.pruning) && pop.pruningRate == old(pop.pruningRate))
            && h.materialSectarii == old(h.materialSectarii) - (if fired then Stale(old(h.materialSectarii), old(pop.species)) else {})
            && h.meshSectarii == old(h.meshSectarii) - (if fired then Stale(old(h.materialSectarii), old(pop.species)) else {})
    ensures s.p0 == Tick(old(s.p0), delta) && s.p1 == Tick(old(s.p1), delta)
    ensures var grown := s.p0.justFinished || s.p1.justFinished;
            && s.p2 == Tick(if grown then Reset(old(s.p2)) else old(s.p2), delta)
            && s.graceStart == (if grown then old(s.now) else old(s.graceStart))
    ensures pop.inputs == old(pop.inputs) + (if s.p0.justFinished then FirstInputs else 0)
                                          + (if s.p1.justFinished then SecondInputs else 0)
    ensures pop.species == old(pop.species) && pop.fitness == old(pop.fitness) && pop.nextKey == old(pop.nextKey)
    ensures h.meshFood == old(h.meshFood) && h.materialFood == old(h.materialFood)
  {
    ReviewStep(s, pop, h, delta);
    GrowthStep(s, pop, delta);
  }
}
