/** `evaluate_neat` (src/sectarii.rs): the bio clock is advanced, every agent's
    controller is fed an 11-channel input vector, and its two outputs become a
    forward force and a torque; the agent's speed and spin are cached for the
    next evaluation. The network itself (`check_integrity`, `forward`,
    `get_outputs`) is the function `net` from a controller key and its inputs
    to the two outputs; the physics engine supplies each agent's unit forward
    axis (or zero), speed and spin. */
module Evaluate {
  import opened Ecs
  import opened BioClocks
  import Schedule
  import Sight
  import Geometry

  /** Number of input channels every controller is fed. */
  const Channels: nat := 11
  /** Output 0 is scaled by this to a force, output 1 to a torque. */
  const ForceGain: real := 3.0
  const TorqueGain: real := 4.0

  /** The input vector of one agent: its food and rival readings, stamina, the
      two oscillators, Hp, satiety and the speed and spin cached by the previous
      evaluation. */
  function Inputs(a: Agent, hp: real, short: int, long: int): (r: seq<real>)
    ensures |r| == Channels
    ensures r[0] == a.sight.food.0 && r[1] == a.sight.food.1
    ensures r[2] == a.sight.rival.0 && r[3] == a.sight.rival.1
    ensures r[4] == a.stamina && r[5] == short as real && r[6] == long as real
    ensures r[7] == hp && r[8] == a.satiety
    ensures r[9] == a.brain.linvel && r[10] == a.brain.angvel
  {
    [a.sight.food.0, a.sight.food.1, a.sight.rival.0, a.sight.rival.1,
     a.stamina, short as real, long as real, hp, a.satiety,
     a.brain.linvel, a.brain.angvel]
  }

  /** The input vector has the arity the controllers reach after both growth
      steps of the startup procedure, and no earlier one. */
  lemma InputsMatchFinalArity(a: Agent, hp: real, short: int, long: int)
    ensures |Inputs(a, hp, short, long)| == Schedule.Arity(true, true)
    ensures |Inputs(a, hp, short, long)| != Schedule.Arity(false, false)
    ensures |Inputs(a, hp, short, long)| != Schedule.Arity(true, false)
  {
  }

  /** The channels the sensor and the clock feed are bounded: proximities are
      at most 1, bearings lie in [-PI, PI) and the oscillators read -1, 0 or 1,
      whatever the view was. */
  lemma SensedInputsBounded(parent: Entity, v: Sight.View, foods: set<Entity>, agents: set<Entity>,
                            a: Agent, hp: real, short: int, long: int)
    requires Sight.Measured(v) && a.sight == Sight.Sense(parent, v, foods, agents)
    requires Tri(short) && Tri(long)
    ensures var r := Inputs(a, hp, short, long);
            && r[0] <= 1.0 && r[2] <= 1.0
            && -Geometry.PI <= r[1] < Geometry.PI && -Geometry.PI <= r[3] < Geometry.PI
            && (r[5] == -1.0 || r[5] == 0.0 || r[5] == 1.0)
            && (r[6] == -1.0 || r[6] == 0.0 || r[6] == 1.0)
  {
  }

  function Norm2(v: (real, real)): real { v.0 * v.0 + v.1 * v.1 }

  /** The force and torque for outputs `o` along the forward axis `fwd`: the
      force lies along the axis with 3 times the magnitude of output 0 when the
      axis is a unit vector, and is zero when it is zero; it points forward when
      output 0 is positive and backward when it is negative; the torque is 4
      times output 1. */
  function Actuate(fwd: (real, real), o: (real, real)): (r: ((real, real), real))
    ensures Norm2(r.0) == ForceGain * ForceGain * o.0 * o.0 * Norm2(fwd)
    ensures r.0.0 * fwd.1 == r.0.1 * fwd.0
    ensures r.0.0 * fwd.0 + r.0.1 * fwd.1 == ForceGain * o.0 * Norm2(fwd)
    ensures r.1 == TorqueGain * o.1
  {
    var s := o.0 * ForceGain;
    assert (fwd.0 * s) * (fwd.0 * s) + (fwd.1 * s) * (fwd.1 * s) == s * s * Norm2(fwd);
    assert (fwd.0 * s) * fwd.0 + (fwd.1 * s) * fwd.1 == s * Norm2(fwd);
    ((fwd.0 * s, fwd.1 * s), o.1 * TorqueGain)
  }

  /** Feeds `inputs` with `agents[e]`'s input vector under its controller key. */
  ghost predicate Fed(inputs: map<nat, seq<real>>, agents: map<Entity, Agent>, hp: map<Entity, real>,
                      done: set<Entity>, short: int, long: int)
    requires done <= agents.Keys <= hp.Keys
  {
    && (forall e :: e in done ==>
          agents[e].brain.key in inputs && inputs[agents[e].brain.key] == Inputs(agents[e], hp[e], short, long))
    && (forall k :: k in inputs ==> exists e :: e in done && agents[e].brain.key == k)
  }

  /** The input vector of every agent, collected under its controller key;
      keys are unique, so every agent has its own entry and there is no other. */
  method CollectInputs(agents: map<Entity, Agent>, hp: map<Entity, real>, short: int, long: int)
    returns (inputs: map<nat, seq<real>>)
    requires KeysUnique(agents) && agents.Keys <= hp.Keys
    ensures Fed(inputs, agents, hp, agents.Keys, short, long)
  {
    inputs := map[];
    var todo := agents.Keys;
    while todo != {}
      invariant todo <= agents.Keys
      invariant Fed(inputs, agents, hp, agents.Keys - todo, short, long)
      decreases todo
    {
      var e :| e in todo;
      ghost var done := agents.Keys - todo;
      assert forall d :: d in done ==> agents[d].brain.key != agents[e].brain.key;
      inputs := inputs[agents[e].brain.key := Inputs(agents[e], hp[e], short, long)];
      todo := todo - {e};
      assert agents.Keys - todo == done + {e};
    }
  }

  /** Applies the force and torque `acts[e]` to every agent `e` of `ag0` and
      caches its speed and spin into its Brain, one agent at a time. */
  method Apply(ag0: map<Entity, Agent>, acts: map<Entity, ((real, real), real)>,
               speed: map<Entity, real>, spin: map<Entity, real>)
    returns (agents: map<Entity, Agent>, force: map<Entity, (real, real)>, torque: map<Entity, real>)
    requires forall e :: e in ag0 ==> e in acts && e in speed && e in spin
    ensures force.Keys == torque.Keys == agents.Keys == ag0.Keys
    ensures forall e :: e in ag0 ==> (force[e], torque[e]) == acts[e]
    ensures forall e :: e in ag0 ==> agents[e] == ag0[e].(brain := ag0[e].brain.(linvel := speed[e], angvel := spin[e]))
  {
    agents := ag0;
    force, torque := map[], map[];
    var todo := ag0.Keys;
    while todo != {}
      invariant todo <= ag0.Keys && agents.Keys == ag0.Keys
      invariant force.Keys == torque.Keys == ag0.Keys - todo
      invariant forall e :: e in agents ==>
                  agents[e] == if e in todo then ag0[e]
                               else ag0[e].(brain := ag0[e].brain.(linvel := speed[e], angvel := spin[e]))
      invariant forall e :: e in force ==> (force[e], torque[e]) == acts[e]
      decreases todo
    {
      var e :| e in todo;
      var a := agents[e];
      force, torque := force[e := acts[e].0], torque[e := acts[e].1];
      agents := agents[e := a.(brain := a.brain.(linvel := speed[e], angvel := spin[e]))];
      todo := todo - {e};
    }
  }

  /** The output half of `evaluate_neat` for every agent of `ag0`: the force
      and torque from its controller's outputs, and the speed and spin cached
      into its Brain. */
  method Drive(ag0: map<Entity, Agent>, inputs: map<nat, seq<real>>, net: (nat, seq<real>) -> (real, real),
               fwd: map<Entity, (real, real)>, speed: map<Entity, real>, spin: map<Entity, real>)
    returns (agents: map<Entity, Agent>, force: map<Entity, (real, real)>, torque: map<Entity, real>)
    requires forall e :: e in ag0 ==> e in fwd && e in speed && e in spin && ag0[e].brain.key in inputs
    ensures force.Keys == torque.Keys == agents.Keys == ag0.Keys
    ensures forall e :: e in ag0 ==>
              (force[e], torque[e]) == Actuate(fwd[e], net(ag0[e].brain.key, inputs[ag0[e].brain.key]))
    ensures forall e :: e in ag0 ==> agents[e] == ag0[e].(brain := ag0[e].brain.(linvel := speed[e], angvel := spin[e]))
    ensures forall e :: e in ag0 ==> agents[e].brain.key == ag0[e].brain.key && agents[e].brain.linvel == speed[e]
  {
    var acts := map e | e in ag0 :: Actuate(fwd[e], net(ag0[e].brain.key, inputs[ag0[e].brain.key]));
    agents, force, torque := Apply(ag0, acts, speed, spin);
  }

  /** `evaluate_neat` on the agents `ag0` with Hp `hp0` and oscillator values
      `short` and `long`: the input vectors keyed by controller, then the
      outputs applied. */
  method Evaluation(ag0: map<Entity, Agent>, hp0: map<Entity, real>, short: int, long: int,
                    net: (nat, seq<real>) -> (real, real),
                    fwd: map<Entity, (real, real)>, speed: map<Entity, real>, spin: map<Entity, real>)
    returns (inputs: map<nat, seq<real>>, agents: map<Entity, Agent>,
             force: map<Entity, (real, real)>, torque: map<Entity, real>)
    requires KeysUnique(ag0) && ag0.Keys <= hp0.Keys
    requires forall e :: e in ag0 ==> e in fwd && e in speed && e in spin
    ensures Fed(inputs, ag0, hp0, ag0.Keys, short, long)
    ensures force.Keys == torque.Keys == agents.Keys == ag0.Keys
    ensures forall e :: e in ag0 ==>
              && ag0[e].brain.key in inputs
              && (force[e], torque[e]) == Actuate(fwd[e], net(ag0[e].brain.key, inputs[ag0[e].brain.key]))
    ensures forall e :: e in ag0 ==> agents[e] == ag0[e].(brain := ag0[e].brain.(linvel := speed[e], angvel := spin[e]))
    ensures forall e :: e in ag0 ==> agents[e].brain.key == ag0[e].brain.key && agents[e].brain.linvel == speed[e]
  {
    inputs := CollectInputs(ag0, hp0, short, long);
    agents, force, torque := Drive(ag0, inputs, net, fwd, speed, spin);
  }

  /** `evaluate_neat`. The clock ticks first, so the inputs carry the
      oscillator values after this tick; they also carry the speed and spin
      cached by the previous evaluation, which are then overwritten with the
      current ones, so every cached speed is a length. */
  method EvaluateSystem(w: World, clock: BioClock, delta: real, net: (nat, seq<real>) -> (real, real),
                        fwd: map<Entity, (real, real)>, speed: map<Entity, real>, spin: map<Entity, real>)
    returns (inputs: map<nat, seq<real>>, force: map<Entity, (real, real)>, torque: map<Entity, real>)
    requires w.Valid() && clock.Valid() && delta >= 0.0
    requires forall e :: e in w.agents ==> e in fwd && e in speed && e in spin && speed[e] >= 0.0
    modifies w, clock
    ensures w.hp == old(w.hp) && w.foods == old(w.foods)
    ensures w.translation == old(w.translation) && w.nextEntity == old(w.nextEntity)
    ensures clock.timerShort == Timers.Tick(old(clock.timerShort), delta)
    ensures clock.timerLong == Timers.Tick(old(clock.timerLong), delta)
    ensures clock.stateShort == if clock.timerShort.justFinished then Advance(old(clock.stateShort)) else old(clock.stateShort)
    ensures clock.stateLong == if clock.timerLong.justFinished then Advance(old(clock.stateLong)) else old(clock.stateLong)
    ensures clock.firedShort == old(clock.firedShort) + (if clock.timerShort.justFinished then 1 else 0)
    ensures clock.firedLong == old(clock.firedLong) + (if clock.timerLong.justFinished then 1 else 0)
    ensures Fed(inputs, old(w.agents), old(w.hp), old(w.agents).Keys, clock.stateShort, clock.stateLong)
    ensures force.Keys == torque.Keys == old(w.agents).Keys
    ensures forall e :: e in old(w.agents) ==>
              var o := net(old(w.agents)[e].brain.key, inputs[old(w.agents)[e].brain.key]);
              (force[e], torque[e]) == Actuate(fwd[e], o)
    ensures w.agents.Keys == old(w.agents).Keys
    ensures forall e :: e in old(w.agents) ==>
              w.agents[e] == old(w.agents)[e].(brain := old(w.agents)[e].brain.(linvel := speed[e], angvel := spin[e]))
    ensures forall e :: e in w.agents ==> w.agents[e].brain.linvel >= 0.0
    ensures clock.Valid()
    ensures w.Valid()
  {
    var ag0, hp0 := w.agents, w.hp;
    clock.Tick(delta);
    var agents;
    inputs, agents, force, torque := Evaluation(ag0, hp0, clock.stateShort, clock.stateLong, net, fwd, speed, spin);
    SameBrains(w.hp, ag0, agents, w.foods, w.translation, w.nextEntity);
    w.agents := agents;
  }
}
