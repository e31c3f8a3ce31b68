/** `sensor_steal` (src/sectarii.rs). Every collision of an agent's steal
    sensor is a `Contact` of the sensor's parent with another entity: touching
    food moves energy from the food to the parent, touching another agent moves
    it from the victim to the parent. The collision lists of all sensors are
    given flattened, in iteration order. */
module Steal {
  import opened Ecs
  import opened Controllers

  datatype Contact = Contact(parent: Entity, other: Entity)

  /** The quantities a contact changes: Hp, Satiety, the two halves of the
      Brain's fitness pair, and the population's fitness ledger. */
  datatype Quantity = HpOf | SatietyOf | FeedingOf | CombatOf | LedgerOf

  /** The contact is with food (`foods.get_mut` succeeds). */
  predicate Eats(c: Contact, foods: set<Entity>) { c.other in foods }

  /** The contact is with another agent (`get_many_mut([other, parent])`
      succeeds only for two distinct agents). */
  predicate Hunts(c: Contact, agents: set<Entity>) { c.other in agents && c.other != c.parent }

  /** What contact `c` adds to quantity `q` of entity `x` in a tick of `dt`
      seconds (for `LedgerOf`, to the ledger entry of `x`'s controller). Only
      the two parties are affected, only the parent earns satiety, fitness and
      ledger credit, and a contact with neither food nor a rival does nothing. */
  function Delta(c: Contact, x: Entity, q: Quantity, foods: set<Entity>, agents: set<Entity>, dt: real): (r: real)
    ensures x != c.parent && x != c.other ==> r == 0.0
    ensures q != HpOf && x != c.parent ==> r == 0.0
    ensures !Eats(c, foods) && !Hunts(c, agents) ==> r == 0.0
    ensures dt >= 0.0 && q != HpOf ==> r >= 0.0
    ensures dt >= 0.0 && q == HpOf && x == c.other && x != c.parent ==> r <= 0.0
  {
    var eats, hunts := Eats(c, foods), Hunts(c, agents);
    var mine := c.parent == x;
    match q
    case HpOf =>
      (if (eats || hunts) && c.other == x then -dt else 0.0) + (if hunts && mine then 0.7 * dt else 0.0)
    case SatietyOf => if mine && eats then dt else if mine && hunts then 0.3 * dt else 0.0
    case FeedingOf => if mine && eats then dt / 2.0 else 0.0
    case CombatOf => if mine && hunts then dt / 2.0 else 0.0
    case LedgerOf => if mine && eats then dt else if mine && hunts then dt / 2.0 else 0.0
  }

  /** The total a run of contacts adds to quantity `q` of `x`. */
  function Sum(cs: seq<Contact>, x: Entity, q: Quantity, foods: set<Entity>, agents: set<Entity>, dt: real): real
    decreases |cs|
  {
    if cs == [] then 0.0
    else Sum(cs[..|cs| - 1], x, q, foods, agents, dt) + Delta(cs[|cs| - 1], x, q, foods, agents, dt)
  }

  /** Effects add up: the contacts of one run can be split anywhere. */
  lemma {:induction false} SumAppend(a: seq<Contact>, b: seq<Contact>, x: Entity, q: Quantity,
                                     foods: set<Entity>, agents: set<Entity>, dt: real)
    ensures Sum(a + b, x, q, foods, agents, dt) == Sum(a, x, q, foods, agents, dt) + Sum(b, x, q, foods, agents, dt)
    decreases |b|
  {
    if b == [] {
      assert a + b == a;
    } else {
      var b' := b[..|b| - 1];
      assert (a + b)[..|a + b| - 1] == a + b';
      SumAppend(a, b', x, q, foods, agents, dt);
    }
  }

  /** A contact of an agent with itself does nothing, to anyone. */
  lemma SelfContactInert(p: Entity, x: Entity, q: Quantity, foods: set<Entity>, agents: set<Entity>, dt: real)
    requires p !in foods
    ensures Delta(Contact(p, p), x, q, foods, agents, dt) == 0.0
  {
  }

  /** A hunt moves energy without creating any: the parent gains in Hp and
      Satiety together exactly what the victim loses in Hp, 0.7 dt of it as Hp
      and 0.3 dt as Satiety; its combat fitness and its ledger entry gain dt / 2
      and its feeding fitness nothing. */
  lemma HuntConserves(c: Contact, foods: set<Entity>, agents: set<Entity>, dt: real)
    requires Hunts(c, agents) && c.other !in foods
    ensures Delta(c, c.other, HpOf, foods, agents, dt) == -dt
    ensures Delta(c, c.parent, HpOf, foods, agents, dt) + Delta(c, c.parent, SatietyOf, foods, agents, dt) == dt
    ensures Delta(c, c.parent, HpOf, foods, agents, dt) == 0.7 * dt
    ensures Delta(c, c.parent, SatietyOf, foods, agents, dt) == 0.3 * dt
    ensures Delta(c, c.parent, FeedingOf, foods, agents, dt) == 0.0
    ensures Delta(c, c.parent, CombatOf, foods, agents, dt) == dt / 2.0
    ensures Delta(c, c.parent, LedgerOf, foods, agents, dt) == dt / 2.0
  {
  }

  /** Touching food moves `dt` of Hp from the food to the parent's satiety,
      and credits half of it to the feeding fitness and all of it to the
      ledger; nothing else changes for the parent. */
  lemma FeedTransfers(c: Contact, foods: set<Entity>, agents: set<Entity>, dt: real)
    requires Eats(c, foods) && c.parent !in foods && foods !! agents
    ensures Delta(c, c.other, HpOf, foods, agents, dt) == -dt
    ensures Delta(c, c.parent, HpOf, foods, agents, dt) == 0.0
    ensures Delta(c, c.parent, SatietyOf, foods, agents, dt) == dt
    ensures Delta(c, c.parent, FeedingOf, foods, agents, dt) == dt / 2.0
    ensures Delta(c, c.parent, CombatOf, foods, agents, dt) == 0.0
    ensures Delta(c, c.parent, LedgerOf, foods, agents, dt) == dt
  {
  }

  /** The ledger is credited twice the feeding fitness plus the combat fitness,
      over any run of contacts. */
  lemma {:induction false} LedgerSplit(cs: seq<Contact>, x: Entity, foods: set<Entity>, agents: set<Entity>, dt: real)
    requires foods !! agents
    ensures Sum(cs, x, LedgerOf, foods, agents, dt)
            == 2.0 * Sum(cs, x, FeedingOf, foods, agents, dt) + Sum(cs, x, CombatOf, foods, agents, dt)
    decreases |cs|
  {
    if cs != [] {
      LedgerSplit(cs[..|cs| - 1], x, foods, agents, dt);
    }
  }

  /** What contact `c` credits to ledger entry `k`: the entry of the
      controller that the contact's parent runs. */
  function KeyDelta(c: Contact, k: nat, ag: map<Entity, Agent>, foods: set<Entity>, dt: real): real
  {
    if c.parent in ag && ag[c.parent].brain.key == k then Delta(c, c.parent, LedgerOf, foods, ag.Keys, dt) else 0.0
  }

  /** The total a run of contacts credits to ledger entry `k`. */
  function KeySum(cs: seq<Contact>, k: nat, ag: map<Entity, Agent>, foods: set<Entity>, dt: real): real
    decreases |cs|
  {
    if cs == [] then 0.0
    else KeySum(cs[..|cs| - 1], k, ag, foods, dt) + KeyDelta(cs[|cs| - 1], k, ag, foods, dt)
  }

  /** With controller keys unique, an agent's ledger entry receives exactly
      what that agent earned. */
  lemma {:induction false} KeySumOfAgent(cs: seq<Contact>, x: Entity, ag: map<Entity, Agent>, foods: set<Entity>, dt: real)
    requires x in ag && KeysUnique(ag)
    ensures KeySum(cs, ag[x].brain.key, ag, foods, dt) == Sum(cs, x, LedgerOf, foods, ag.Keys, dt)
    decreases |cs|
  {
    if cs != [] {
      KeySumOfAgent(cs[..|cs| - 1], x, ag, foods, dt);
    }
  }

  /** A ledger entry that no agent's controller uses receives nothing. */
  lemma {:induction false} KeySumUnowned(cs: seq<Contact>, k: nat, ag: map<Entity, Agent>, foods: set<Entity>, dt: real)
    requires forall x :: x in ag ==> ag[x].brain.key != k
    ensures KeySum(cs, k, ag, foods, dt) == 0.0
    decreases |cs|
  {
    if cs != [] {
      KeySumUnowned(cs[..|cs| - 1], k, ag, foods, dt);
    }
  }

  /** The agent-only components after contacts `cs` have been applied. */
  function Credited(a: Agent, cs: seq<Contact>, x: Entity, foods: set<Entity>, agents: set<Entity>, dt: real): (r: Agent)
    ensures r.stamina == a.stamina && r.species == a.species && r.sight == a.sight
    ensures r.brain.key == a.brain.key && r.brain.linvel == a.brain.linvel && r.brain.angvel == a.brain.angvel
  {
    a.(satiety := a.satiety + Sum(cs, x, SatietyOf, foods, agents, dt),
       brain := a.brain.(fitness := (a.brain.fitness.0 + Sum(cs, x, FeedingOf, foods, agents, dt),
                                     a.brain.fitness.1 + Sum(cs, x, CombatOf, foods, agents, dt))))
  }

  /** One contact applied to the Hp storage: the food or the victim loses
      `dt`, a hunting parent gains `0.7 dt`. */
  function HpAfter(hp: map<Entity, real>, c: Contact, foods: set<Entity>, agents: set<Entity>, dt: real)
    : (r: map<Entity, real>)
    requires c.parent in hp && (c.other in foods || c.other in agents ==> c.other in hp)
    requires foods !! agents
    ensures r.Keys == hp.Keys
    ensures forall x :: x in hp ==> r[x] == hp[x] + Delta(c, x, HpOf, foods, agents, dt)
  {
    if Eats(c, foods) then hp[c.other := hp[c.other] - dt]
    else if Hunts(c, agents) then
      var h := hp[c.other := hp[c.other] - dt];
      h[c.parent := h[c.parent] + dt * 0.7]
    else hp
  }

  /** The agent-only components of agent `x` after one more contact: only the
      parent's satiety and fitness change. */
  function Credit(a: Agent, c: Contact, x: Entity, foods: set<Entity>, agents: set<Entity>, dt: real): (r: Agent)
    ensures r.stamina == a.stamina && r.species == a.species && r.sight == a.sight
    ensures r.brain.key == a.brain.key && r.brain.linvel == a.brain.linvel && r.brain.angvel == a.brain.angvel
    ensures x != c.parent ==> r == a
  {
    a.(satiety := a.satiety + Delta(c, x, SatietyOf, foods, agents, dt),
       brain := a.brain.(fitness := (a.brain.fitness.0 + Delta(c, x, FeedingOf, foods, agents, dt),
                                     a.brain.fitness.1 + Delta(c, x, CombatOf, foods, agents, dt))))
  }

  /** One contact applied to the agents: only the parent changes. */
  function AgentsAfter(ags: map<Entity, Agent>, c: Contact, foods: set<Entity>, agents: set<Entity>, dt: real)
    : (r: map<Entity, Agent>)
    requires c.parent in ags && foods !! agents
    ensures r.Keys == ags.Keys
    ensures forall x :: x in ags ==> r[x] == Credit(ags[x], c, x, foods, agents, dt)
  {
    var a := ags[c.parent];
    if Eats(c, foods) then
      ags[c.parent := a.(satiety := a.satiety + dt,
                         brain := a.brain.(fitness := (a.brain.fitness.0 + dt / 2.0, a.brain.fitness.1)))]
    else if Hunts(c, agents) then
      ags[c.parent := a.(satiety := a.satiety + dt * 0.3,
                         brain := a.brain.(fitness := (a.brain.fitness.0, a.brain.fitness.1 + dt / 2.0)))]
    else ags
  }

  /** One contact applied to the ledger: the parent's controller `key` is
      credited `dt` for food and `dt / 2` for a hunt. */
  function LedgerAfter(ledger: map<nat, real>, key: nat, c: Contact, foods: set<Entity>, agents: set<Entity>, dt: real)
    : (r: map<nat, real>)
    requires key in ledger
    ensures r.Keys == ledger.Keys
    ensures r[key] == ledger[key] + Delta(c, c.parent, LedgerOf, foods, agents, dt)
    ensures forall k :: k in ledger && k != key ==> r[k] == ledger[k]
  {
    if Eats(c, foods) then ledger[key := ledger[key] + dt]
    else if Hunts(c, agents) then ledger[key := ledger[key] + dt / 2.0]
    else ledger
  }

  /** `hp` holds the Hp of `hp0` plus what the contacts `cs` added. */
  ghost predicate HpCredited(hp: map<Entity, real>, hp0: map<Entity, real>, cs: seq<Contact>,
                             foods: set<Entity>, agents: set<Entity>, dt: real)
  {
    && hp.Keys == hp0.Keys
    && forall x :: x in hp0 ==> hp[x] == hp0[x] + Sum(cs, x, HpOf, foods, agents, dt)
  }

  /** `ags` holds the agents of `ag0` credited with the contacts `cs`. */
  ghost predicate AgentsCredited(ags: map<Entity, Agent>, ag0: map<Entity, Agent>, cs: seq<Contact>,
                                 foods: set<Entity>, agents: set<Entity>, dt: real)
  {
    && ags.Keys == ag0.Keys
    && forall x :: x in ag0 ==> ags[x] == Credited(ag0[x], cs, x, foods, agents, dt)
  }

  /** `ledger` holds `l0` with every entry credited what the contacts `cs`
      earned for it. */
  ghost predicate LedgerCredited(ledger: map<nat, real>, l0: map<nat, real>, ag0: map<Entity, Agent>, cs: seq<Contact>,
                                 foods: set<Entity>, dt: real)
  {
    && ledger.Keys == l0.Keys
    && forall k :: k in l0 ==> ledger[k] == l0[k] + KeySum(cs, k, ag0, foods, dt)
  }

  /** The storages `hp`, `agents` and `ledger` are `hp0`, `ag0` and `l0`
      with the contacts `cs` credited. */
  ghost predicate Stolen(hp: map<Entity, real>, agents: map<Entity, Agent>, ledger: map<nat, real>,
                         hp0: map<Entity, real>, ag0: map<Entity, Agent>, l0: map<nat, real>,
                         cs: seq<Contact>, foods: set<Entity>, dt: real)
  {
    && HpCredited(hp, hp0, cs, foods, ag0.Keys, dt)
    && AgentsCredited(agents, ag0, cs, foods, ag0.Keys, dt)
    && LedgerCredited(ledger, l0, ag0, cs, foods, dt)
  }

  lemma HpStep(hp: map<Entity, real>, hp0: map<Entity, real>, cs: seq<Contact>, i: nat,
               foods: set<Entity>, agents: set<Entity>, dt: real)
    requires i < |cs| && HpCredited(hp, hp0, cs[..i], foods, agents, dt)
    requires foods !! agents && cs[i].parent in hp && (cs[i].other in foods || cs[i].other in agents ==> cs[i].other in hp)
    ensures HpCredited(HpAfter(hp, cs[i], foods, agents, dt), hp0, cs[..i + 1], foods, agents, dt)
  {
    assert cs[..i + 1][..i] == cs[..i];
  }

  lemma CreditedStep(a: Agent, cs: seq<Contact>, i: nat, x: Entity, foods: set<Entity>, agents: set<Entity>, dt: real)
    requires i < |cs|
    ensures Credited(a, cs[..i + 1], x, foods, agents, dt) == Credit(Credited(a, cs[..i], x, foods, agents, dt), cs[i], x, foods, agents, dt)
  {
    assert cs[..i + 1][..i] == cs[..i];
  }

  lemma AgentsStep(ags: map<Entity, Agent>, ag0: map<Entity, Agent>, cs: seq<Contact>, i: nat,
                   foods: set<Entity>, agents: set<Entity>, dt: real)
    requires i < |cs| && AgentsCredited(ags, ag0, cs[..i], foods, agents, dt)
    requires foods !! agents && cs[i].parent in ags
    ensures AgentsCredited(AgentsAfter(ags, cs[i], foods, agents, dt), ag0, cs[..i + 1], foods, agents, dt)
  {
    var r := AgentsAfter(ags, cs[i], foods, agents, dt);
    forall x | x in ag0
      ensures r[x] == Credited(ag0[x], cs[..i + 1], x, foods, agents, dt)
    {
      CreditedStep(ag0[x], cs, i, x, foods, agents, dt);
    }
  }

  lemma LedgerStep(ledger: map<nat, real>, l0: map<nat, real>, ag0: map<Entity, Agent>, cs: seq<Contact>, i: nat,
                   foods: set<Entity>, agents: set<Entity>, dt: real)
    requires i < |cs| && LedgerCredited(ledger, l0, ag0, cs[..i], foods, dt)
    requires cs[i].parent in ag0 && ag0[cs[i].parent].brain.key in ledger
    ensures LedgerCredited(LedgerAfter(ledger, ag0[cs[i].parent].brain.key, cs[i], foods, ag0.Keys, dt),
                           l0, ag0, cs[..i + 1], foods, dt)
  {
    assert cs[..i + 1][..i] == cs[..i];
  }

  lemma WholePrefix(cs: seq<Contact>)
    ensures cs[..|cs|] == cs
  {
  }

  /** Crediting never changes which agents exist or which controller each runs. */
  lemma CreditedKeysUnique(ags: map<Entity, Agent>, ag0: map<Entity, Agent>, cs: seq<Contact>,
                           foods: set<Entity>, agents: set<Entity>, dt: real)
    requires AgentsCredited(ags, ag0, cs, foods, agents, dt) && KeysUnique(ag0)
    ensures ags.Keys == ag0.Keys && KeysUnique(ags)
    ensures forall x :: x in ags ==> ags[x].brain.key == ag0[x].brain.key
  {
  }

  /** In a credited ledger, each agent's controller entry gains what that
      agent earned, and an entry no agent runs is unchanged. */
  lemma LedgerEntries(ledger: map<nat, real>, l0: map<nat, real>, ag0: map<Entity, Agent>, cs: seq<Contact>,
                      foods: set<Entity>, dt: real)
    requires LedgerCredited(ledger, l0, ag0, cs, foods, dt) && KeysUnique(ag0)
    requires forall x :: x in ag0 ==> ag0[x].brain.key in l0
    ensures forall x {:trigger Sum(cs, x, LedgerOf, foods, ag0.Keys, dt)} :: x in ag0 ==>
              var k := ag0[x].brain.key;
              ledger[k] == l0[k] + Sum(cs, x, LedgerOf, foods, ag0.Keys, dt)
    ensures forall k :: k in l0 && (forall x :: x in ag0 ==> ag0[x].brain.key != k) ==> ledger[k] == l0[k]
  {
    forall x | x in ag0
      ensures KeySum(cs, ag0[x].brain.key, ag0, foods, dt) == Sum(cs, x, LedgerOf, foods, ag0.Keys, dt)
    {
      KeySumOfAgent(cs, x, ag0, foods, dt);
    }
    forall k | k in l0 && (forall x :: x in ag0 ==> ag0[x].brain.key != k)
      ensures KeySum(cs, k, ag0, foods, dt) == 0.0
    {
      KeySumUnowned(cs, k, ag0, foods, dt);
    }
  }

  /** The loop of `sensor_steal` over the component storages: every contact
      is applied in turn. */
  method ApplyContacts(hp0: map<Entity, real>, ag0: map<Entity, Agent>, l0: map<nat, real>, cs: seq<Contact>,
                       foods: set<Entity>, dt: real)
    returns (hp: map<Entity, real>, agents: map<Entity, Agent>, ledger: map<nat, real>)
    requires foods !! ag0.Keys && hp0.Keys == ag0.Keys + foods && KeysUnique(ag0)
    requires forall x :: x in ag0 ==> ag0[x].brain.key in l0
    requires forall i :: 0 <= i < |cs| ==> cs[i].parent in ag0
    ensures Stolen(hp, agents, ledger, hp0, ag0, l0, cs, foods, dt)
    ensures hp.Keys == hp0.Keys && agents.Keys == ag0.Keys && ledger.Keys == l0.Keys && KeysUnique(agents)
    ensures forall x :: x in agents ==> agents[x].brain.key == ag0[x].brain.key
  {
    var keys := ag0.Keys;
    hp, agents, ledger := hp0, ag0, l0;
    assert cs[..0] == [];
    for i := 0 to |cs|
      invariant HpCredited(hp, hp0, cs[..i], foods, keys, dt)
      invariant AgentsCredited(agents, ag0, cs[..i], foods, keys, dt)
      invariant LedgerCredited(ledger, l0, ag0, cs[..i], foods, dt)
    {
      HpStep(hp, hp0, cs, i, foods, keys, dt);
      AgentsStep(agents, ag0, cs, i, foods, keys, dt);
      LedgerStep(ledger, l0, ag0, cs, i, foods, keys, dt);
      var c := cs[i];
      hp := HpAfter(hp, c, foods, keys, dt);
      agents := AgentsAfter(agents, c, foods, keys, dt);
      ledger := LedgerAfter(ledger, ag0[c.parent].brain.key, c, foods, keys, dt);
    }
    WholePrefix(cs);
    CreditedKeysUnique(agents, ag0, cs, foods, keys, dt);
  }

  /** Storages that keep every key and every agent's controller keep the
      world consistent and every agent's controller in the ledger. */
  lemma StillConsistent(hp: map<Entity, real>, agents: map<Entity, Agent>, ledger: map<nat, real>,
                        hp0: map<Entity, real>, ag0: map<Entity, Agent>, l0: map<nat, real>,
                        foods: set<Entity>, translation: map<Entity, (real, real)>, next: nat)
    requires Consistent(hp0, ag0, foods, translation, next) && forall x :: x in ag0 ==> ag0[x].brain.key in l0
    requires hp.Keys == hp0.Keys && agents.Keys == ag0.Keys && ledger.Keys == l0.Keys && KeysUnique(agents)
    requires forall x :: x in agents ==> agents[x].brain.key == ag0[x].brain.key
    ensures Consistent(hp, agents, foods, translation, next)
    ensures forall x :: x in agents ==> agents[x].brain.key in ledger
  {
  }

  /** Writes the credited storages back into the world and the ledger. */
  method Commit(w: World, pop: Population, hp: map<Entity, real>, agents: map<Entity, Agent>, ledger: map<nat, real>)
    requires Consistent(hp, agents, w.foods, w.translation, w.nextEntity)
    requires forall x :: x in agents ==> agents[x].brain.key in ledger
    modifies w, pop
    ensures w.hp == hp && w.agents == agents && pop.fitness == ledger
    ensures w.foods == old(w.foods) && w.translation == old(w.translation) && w.nextEntity == old(w.nextEntity)
    ensures pop.inputs == old(pop.inputs) && pop.pruning == old(pop.pruning) && pop.pruningRate == old(pop.pruningRate)
    ensures pop.species == old(pop.species) && pop.nextKey == old(pop.nextKey)
    ensures w.Valid() && Bound(w, pop)
  {
    w.hp, w.agents := hp, agents;
    pop.fitness := ledger;
  }

  /** `sensor_steal`. Each sensor is the child of an agent, and every agent's
      controller is in the ledger (both are unwrapped by the source). */
  method StealSystem(w: World, pop: Population, cs: seq<Contact>, dt: real)
    requires w.Valid() && Bound(w, pop)
    requires forall i :: 0 <= i < |cs| ==> cs[i].parent in w.agents
    modifies w, pop
    ensures w.foods == old(w.foods) && w.translation == old(w.translation) && w.nextEntity == old(w.nextEntity)
    ensures pop.inputs == old(pop.inputs) && pop.pruning == old(pop.pruning) && pop.pruningRate == old(pop.pruningRate)
    ensures pop.species == old(pop.species) && pop.nextKey == old(pop.nextKey)
    ensures w.Valid() && Bound(w, pop)
    ensures Stolen(w.hp, w.agents, pop.fitness, old(w.hp), old(w.agents), old(pop.fitness), cs, old(w.foods), dt)
  {
    var hp, agents, ledger := ApplyContacts(w.hp, w.agents, pop.fitness, cs, w.foods, dt);
    StillConsistent(hp, agents, ledger, w.hp, w.agents, pop.fitness, w.foods, w.translation, w.nextEntity);
    Commit(w, pop, hp, agents, ledger);
  }
}
