/** The three metabolism systems of src/main.rs. Each system's per-entity rule is
    a function on values; the system itself walks its query and writes the
    results back into the component storages. */
module Metabolism {
  import opened Ecs

  /** Upper bound of every clamped metabolic level. */
  const MaxLevel: real := 2.0
  /** Satiety falls by dt / 45 per tick. */
  const SatietyDecay: real := 45.0
  /** While starving, Hp falls by dt / 15 per tick. */
  const StarvationDrain: real := 15.0
  /** At or above this cached linear speed the agent spends stamina. */
  const SprintSpeed: real := 10.0
  const SprintOffset: real := 9.0
  const SprintRate: real := 0.00075

  /** `f32::clamp(0., 2.)` */
  function Clamp(x: real): (r: real)
    ensures 0.0 <= r <= MaxLevel
    ensures 0.0 <= x <= MaxLevel ==> r == x
    ensures x < 0.0 ==> r == 0.0
    ensures x > MaxLevel ==> r == MaxLevel
  {
    if x < 0.0 then 0.0 else if x > MaxLevel then MaxLevel else x
  }

  /** `hp_system` on one entity: the clamped Hp, and whether the entity is
      despawned (the clamped value is 0). */
  function HpRule(hp: real): (r: (real, bool))
    ensures 0.0 <= r.0 <= MaxLevel
    ensures r.1 <==> hp <= 0.0
    ensures r.1 <==> r.0 == 0.0
    ensures 0.0 <= hp <= MaxLevel ==> r.0 == hp
    ensures hp > MaxLevel ==> r.0 == MaxLevel
  {
    var c := Clamp(hp);
    (c, c <= 0.0)
  }

  /** `satiety_system` on one agent. The starvation test reads the decremented,
      not yet clamped, satiety. */
  function SatietyRule(v: Vitals, dt: real): (r: Vitals)
    requires dt >= 0.0
    ensures r.stamina == v.stamina
    ensures 0.0 <= r.satiety <= MaxLevel
    ensures r.hp <= v.hp
    ensures v.satiety - dt / SatietyDecay <= 0.0 ==> r.satiety == 0.0 && r.hp == v.hp - dt / StarvationDrain
    ensures v.satiety - dt / SatietyDecay > 0.0 ==> r.hp == v.hp
    ensures 0.0 <= v.satiety - dt / SatietyDecay <= MaxLevel ==> r.satiety == v.satiety - dt / SatietyDecay
    ensures v.satiety - dt / SatietyDecay > MaxLevel ==> r.satiety == MaxLevel
  {
    var s := v.satiety - dt / SatietyDecay;
    var hp := if s <= 0.0 then v.hp - dt / StarvationDrain else v.hp;
    Vitals(hp, Clamp(s), v.stamina)
  }

  /** Stamina spent in one tick at cached speed `linvel`: (linvel - 9)^2 * dt * 0.00075. */
  function SprintCost(linvel: real, dt: real): (c: real)
    requires dt >= 0.0
    ensures c >= 0.0
  {
    var d := linvel - SprintOffset;
    assert d * d >= 0.0;
    assert d * d * dt >= 0.0;
    d * d * dt * SprintRate
  }

  /** `stamina_system` on one agent. Below sprint speed stamina recovers by dt
      and nothing else changes. At sprint speed the cost is taken from stamina;
      a shortfall is charged to satiety if satiety is positive, otherwise to Hp,
      and stamina is clamped; satiety and Hp are not clamped here. */
  function StaminaRule(v: Vitals, linvel: real, dt: real): (r: Vitals)
    requires dt >= 0.0
    ensures 0.0 <= r.stamina <= MaxLevel
    ensures r.satiety == v.satiety || r.hp == v.hp
    ensures linvel < SprintSpeed ==> r.hp == v.hp && r.satiety == v.satiety && r.stamina == Clamp(v.stamina + dt)
    ensures linvel >= SprintSpeed && v.stamina - SprintCost(linvel, dt) >= 0.0 ==>
              r.hp == v.hp && r.satiety == v.satiety
    ensures linvel >= SprintSpeed && v.stamina - SprintCost(linvel, dt) < 0.0 ==>
              r.stamina == 0.0 &&
              (v.satiety > 0.0 ==> r.satiety == v.satiety + (v.stamina - SprintCost(linvel, dt)) && r.hp == v.hp) &&
              (v.satiety <= 0.0 ==> r.hp == v.hp + (v.stamina - SprintCost(linvel, dt)) && r.satiety == v.satiety)
    ensures linvel >= SprintSpeed && 0.0 <= v.stamina ==> r.stamina <= v.stamina
    ensures linvel >= SprintSpeed && v.stamina <= MaxLevel ==>
              r.hp + r.satiety + r.stamina == v.hp + v.satiety + v.stamina - SprintCost(linvel, dt)
  {
    if linvel < SprintSpeed then
      v.(stamina := Clamp(v.stamina + dt))
    else
      var s := v.stamina - SprintCost(linvel, dt);
      var v' := if s < 0.0 then (if v.satiety > 0.0 then v.(satiety := v.satiety + s) else v.(hp := v.hp + s)) else v;
      v'.(stamina := Clamp(s))
  }

  /** Sprinting from a full but not overfull reserve never costs satiety or Hp
      while the cost stays within the stamina left. */
  lemma SprintWithinReserve(v: Vitals, linvel: real, dt: real)
    requires dt >= 0.0 && linvel >= SprintSpeed
    requires SprintCost(linvel, dt) <= v.stamina <= MaxLevel
    ensures StaminaRule(v, linvel, dt) == v.(stamina := v.stamina - SprintCost(linvel, dt))
  {
  }

  /** `hp_system`: every entity with Hp (agents and food) is clamped to [0, 2];
      those whose Hp was at most 0 are despawned once the system has run. */
  method HpSystem(w: World) returns (dead: set<Entity>)
    requires w.Valid()
    modifies w
    ensures w.Valid()
    ensures dead == set e | e in old(w.hp) && old(w.hp)[e] <= 0.0
    ensures w.agents == old(w.agents) - dead && w.foods == old(w.foods) - dead
    ensures w.translation == old(w.translation) - dead && w.nextEntity == old(w.nextEntity)
    ensures w.hp.Keys == old(w.hp).Keys - dead
    ensures forall e :: e in w.hp ==> w.hp[e] == HpRule(old(w.hp)[e]).0
  {
    var hp0 := w.hp;
    var hp := hp0;
    var todo := hp.Keys;
    dead := {};
    while todo != {}
      invariant todo <= hp.Keys && hp.Keys == hp0.Keys
      invariant forall e :: e in hp ==> hp[e] == if e in todo then hp0[e] else HpRule(hp0[e]).0
      invariant dead == set e | e in hp0 && e !in todo && hp0[e] <= 0.0
      decreases todo
    {
      var e :| e in todo;
      var r := HpRule(hp[e]);
      hp := hp[e := r.0];
      if r.1 {
        dead := dead + {e};
      }
      todo := todo - {e};
    }
    w.hp := hp;
    w.Despawn(dead);
  }

  /** Writes the new vitals `vs[e]` of every agent `e` of `ag0` back into
      the Hp storage and the agent's Satiety and Stamina, one agent at a time;
      an entity that is not an agent keeps its Hp. */
  method Store(hp0: map<Entity, real>, ag0: map<Entity, Agent>, vs: map<Entity, Vitals>)
    returns (hp: map<Entity, real>, agents: map<Entity, Agent>)
    requires ag0.Keys <= hp0.Keys && ag0.Keys <= vs.Keys
    ensures hp.Keys == hp0.Keys && agents.Keys == ag0.Keys
    ensures forall e :: e in ag0 ==> hp[e] == vs[e].hp
    ensures forall e :: e in ag0 ==> agents[e] == ag0[e].(satiety := vs[e].satiety, stamina := vs[e].stamina)
    ensures forall e :: e in hp0 && e !in ag0 ==> hp[e] == hp0[e]
  {
    hp, agents := hp0, ag0;
    var todo := agents.Keys;
    while todo != {}
      invariant todo <= agents.Keys && agents.Keys == ag0.Keys && hp.Keys == hp0.Keys
      invariant forall e :: e in agents ==>
                  if e in todo then agents[e] == ag0[e] && hp[e] == hp0[e]
                  else agents[e] == ag0[e].(satiety := vs[e].satiety, stamina := vs[e].stamina) && hp[e] == vs[e].hp
      invariant forall e :: e in hp && e !in agents ==> hp[e] == hp0[e]
      decreases todo
    {
      var e :| e in todo;
      hp := hp[e := vs[e].hp];
      agents := agents[e := agents[e].(satiety := vs[e].satiety, stamina := vs[e].stamina)];
      todo := todo - {e};
    }
  }

  /** `satiety_system`: every agent (food is excluded) takes one `SatietyRule` step. */
  method SatietySystem(w: World, dt: real)
    requires w.Valid() && dt >= 0.0
    modifies w
    ensures w.foods == old(w.foods) && w.translation == old(w.translation) && w.nextEntity == old(w.nextEntity)
    ensures w.hp.Keys == old(w.hp).Keys && w.agents.Keys == old(w.agents).Keys
    ensures forall e :: e in old(w.hp) && e !in old(w.agents) ==> w.hp[e] == old(w.hp)[e]
    ensures forall e :: e in old(w.agents) ==> w.hp[e] == SatietyRule(old(w.VitalsOf(e)), dt).hp
    ensures forall e :: e in old(w.agents) ==>
              w.agents[e] == old(w.agents)[e].(satiety := SatietyRule(old(w.VitalsOf(e)), dt).satiety)
    ensures w.Valid()
  {
    var vs := map e | e in w.agents :: SatietyRule(VitalsAt(w.hp, w.agents, e), dt);
    var hp, agents := Store(w.hp, w.agents, vs);
    SameBrains(w.hp, w.agents, agents, w.foods, w.translation, w.nextEntity);
    w.hp, w.agents := hp, agents;
  }

  /** `stamina_system`: every agent takes one `StaminaRule` step at the linear
      speed its brain cached during the previous evaluation. */
  method StaminaSystem(w: World, dt: real)
    requires w.Valid() && dt >= 0.0
    modifies w
    ensures w.foods == old(w.foods) && w.translation == old(w.translation) && w.nextEntity == old(w.nextEntity)
    ensures w.hp.Keys == old(w.hp).Keys && w.agents.Keys == old(w.agents).Keys
    ensures forall e :: e in old(w.hp) && e !in old(w.agents) ==> w.hp[e] == old(w.hp)[e]
    ensures forall e :: e in old(w.agents) ==>
              w.hp[e] == StaminaRule(old(w.VitalsOf(e)), old(w.agents)[e].brain.linvel, dt).hp
    ensures forall e :: e in old(w.agents) ==>
              var r := StaminaRule(old(w.VitalsOf(e)), old(w.agents)[e].brain.linvel, dt);
              w.agents[e] == old(w.agents)[e].(satiety := r.satiety, stamina := r.stamina)
    ensures w.Valid()
  {
    var vs := map e | e in w.agents :: StaminaRule(VitalsAt(w.hp, w.agents, e), w.agents[e].brain.linvel, dt);
    var hp, agents := Store(w.hp, w.agents, vs);
    SameBrains(w.hp, w.agents, agents, w.foods, w.translation, w.nextEntity);
    w.hp, w.agents := hp, agents;
  }
}
