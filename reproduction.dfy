/** `reproduction_system` and `spawn_sectarian` (src/sectarii.rs). An agent
    whose satiety is above 1.75 pays 1.0 of it for one offspring, which gets a
    new controller, a species, render handles for that species if it had none,
    and fixed initial stats. The random spawn offset and hue, and the handles
    the asset stores return, are parameters. */
module Reproduction {
  import opened Ecs
  import opened Controllers
  import Steal
  import Metabolism

  /** Satiety an agent must exceed to reproduce. */
  const Threshold: real := 1.75
  /** Satiety one offspring costs. */
  const Cost: real := 1.0

  /** The satiety test and debit of one agent: reproduces exactly when satiety
      is strictly above 1.75, and is then left with 1.0 less, which is still
      more than 0.75; from a level of at most 2 it leaves at most 1, too little
      to reproduce again. */
  function Debit(satiety: real): (r: (bool, real))
    ensures r.0 <==> satiety > Threshold
    ensures r.0 ==> r.1 == satiety - Cost && r.1 > Threshold - Cost
    ensures !r.0 ==> r.1 == satiety
    ensures r.0 && satiety <= 2.0 ==> r.1 <= 1.0
  {
    if satiety > Threshold then (true, satiety - Cost) else (false, satiety)
  }

  /** An agent after its turn in the pass: only its satiety can change, and
      only downwards; one that reproduced keeps more than 0.75, one that did
      not is unchanged. */
  function AfterTurn(a: Agent): (r: Agent)
    ensures r.(satiety := a.satiety) == a
    ensures r.satiety <= a.satiety
    ensures a.satiety > Threshold ==> r.satiety == a.satiety - Cost && r.satiety > Threshold - Cost
    ensures a.satiety <= Threshold ==> r == a
  {
    a.(satiety := Debit(a.satiety).1)
  }

  /** The stats `spawn_sectarian` gives every new agent. */
  function Newborn(key: nat, species: nat): (a: Agent)
    ensures a.satiety == 1.0 && a.stamina == 1.0 && a.brain.key == key && a.species == species
    ensures a.brain.fitness == (0.0, 0.0) && a.brain.linvel == 0.0 && a.brain.angvel == 0.0
    ensures a.sight == NothingSeen
  {
    Agent(1.0, 1.0, NewBrain(key), species, NothingSeen)
  }

  /** A newborn cannot reproduce as it is: before its first birth, stealing
      must have credited it more than 0.75 satiety, whether or not a satiety
      step runs in between; and exactly that much suffices right after the
      steal. */
  lemma NewbornWaits(key: nat, species: nat, cs: seq<Steal.Contact>, x: Entity, foods: set<Entity>,
                     agents: set<Entity>, hp: real, dt: real)
    requires dt >= 0.0
    ensures !Debit(Newborn(key, species).satiety).0
    ensures var a := Steal.Credited(Newborn(key, species), cs, x, foods, agents, dt);
            var gain := Steal.Sum(cs, x, Steal.SatietyOf, foods, agents, dt);
            && (Debit(a.satiety).0 <==> gain > Threshold - Newborn(key, species).satiety)
            && (Debit(Metabolism.SatietyRule(Vitals(hp, a.satiety, a.stamina), dt).satiety).0 ==>
                  gain > Threshold - Newborn(key, species).satiety)
  {
  }

  /** `entry(s).or_insert(h)`: an existing handle is kept, a missing one is
      added. */
  function InsertIfAbsent(m: map<nat, int>, s: nat, h: int): (r: map<nat, int>)
    ensures s in r && r.Keys == m.Keys + {s}
    ensures s in m ==> r == m
    ensures s !in m ==> r[s] == h
    ensures forall t :: t in m ==> r[t] == m[t]
  {
    if s in m then m else m[s := h]
  }

  /** `spawn_sectarian`: a new agent with controller `key` and `species`, Hp,
      Stamina and Satiety 1, at `pos`. The species' handles must exist (they are
      unwrapped), and no living agent may already run `key`. */
  method SpawnSectarian(w: World, h: Handlers, key: nat, species: nat, pos: (real, real)) returns (e: Entity)
    requires w.Valid() && species in h.meshSectarii && species in h.materialSectarii
    requires forall x :: x in w.agents ==> w.agents[x].brain.key != key
    modifies w
    ensures w.Valid()
    ensures e == old(w.nextEntity) && e !in old(w.hp) && w.nextEntity == e + 1
    ensures w.agents == old(w.agents)[e := Newborn(key, species)]
    ensures w.hp == old(w.hp)[e := 1.0] && w.translation == old(w.translation)[e := pos]
    ensures w.foods == old(w.foods)
  {
    e := w.nextEntity;
    w.agents := w.agents[e := Newborn(key, species)];
    w.hp := w.hp[e := 1.0];
    w.translation := w.translation[e := pos];
    w.nextEntity := e + 1;
  }

  /** The birth half of a turn: a new controller from the parent's, its
      species, the species' handles if missing, and the spawned agent. */
  method Birth(w: World, pop: Population, h: Handlers, parentKey: nat, assign: nat -> nat,
               mesh: int, material: int, pos: (real, real)) returns (c: Entity, k: nat)
    requires w.Valid() && pop.Valid() && Bound(w, pop) && parentKey in pop.fitness
    modifies w, pop, h
    ensures w.Valid() && pop.Valid() && Bound(w, pop)
    ensures c == old(w.nextEntity) && c !in old(w.hp) && w.nextEntity == c + 1
    ensures k == old(pop.nextKey) && k !in old(pop.fitness) && pop.fitness == old(pop.fitness)[k := 0.0] && pop.nextKey == old(pop.nextKey) + 1
    ensures pop.species == old(pop.species) + {assign(k)}
    ensures w.agents == old(w.agents)[c := Newborn(k, assign(k))]
    ensures w.hp == old(w.hp)[c := 1.0] && w.translation == old(w.translation)[c := pos]
    ensures h.meshSectarii == InsertIfAbsent(old(h.meshSectarii), assign(k), mesh)
    ensures h.materialSectarii == InsertIfAbsent(old(h.materialSectarii), assign(k), material)
    ensures w.foods == old(w.foods) && h.meshFood == old(h.meshFood) && h.materialFood == old(h.materialFood)
    ensures pop.inputs == old(pop.inputs) && pop.pruning == old(pop.pruning) && pop.pruningRate == old(pop.pruningRate)
  {
    k := pop.Offspring(parentKey);
    var s := pop.SpeciesAssign(k, assign);
    h.meshSectarii := InsertIfAbsent(h.meshSectarii, s, mesh);
    h.materialSectarii := InsertIfAbsent(h.materialSectarii, s, material);
    c := SpawnSectarian(w, h, k, s, pos);
  }

  /** One agent's turn in `reproduction_system`. */
  method Reproduce(w: World, pop: Population, h: Handlers, p: Entity, assign: nat -> nat,
                   mesh: int, material: int, pos: (real, real)) returns (child: Option<Entity>)
    requires w.Valid() && pop.Valid() && Bound(w, pop) && p in w.agents
    modifies w, pop, h
    ensures w.Valid() && pop.Valid() && Bound(w, pop)
    ensures child.Some? <==> old(w.agents)[p].satiety > Threshold
    ensures child.None? ==> w.agents == old(w.agents) && w.hp == old(w.hp) && w.nextEntity == old(w.nextEntity)
    ensures child.None? ==> w.translation == old(w.translation)
    ensures child.None? ==> pop.fitness == old(pop.fitness) && pop.species == old(pop.species) && pop.nextKey == old(pop.nextKey)
    ensures child.None? ==> h.meshSectarii == old(h.meshSectarii) && h.materialSectarii == old(h.materialSectarii)
    ensures child.Some? ==>
              var c := child.value;
              c in w.agents &&
              var k := w.agents[c].brain.key;
              && c == old(w.nextEntity) && c !in old(w.hp) && w.nextEntity == c + 1
              && k == old(pop.nextKey) && k !in old(pop.fitness) && pop.fitness == old(pop.fitness)[k := 0.0] && pop.nextKey == old(pop.nextKey) + 1
              && pop.species == old(pop.species) + {assign(k)}
              && w.agents == old(w.agents)[p := AfterTurn(old(w.agents)[p])][c := Newborn(k, assign(k))]
              && w.hp == old(w.hp)[c := 1.0] && w.translation == old(w.translation)[c := pos]
              && h.meshSectarii == InsertIfAbsent(old(h.meshSectarii), assign(k), mesh)
              && h.materialSectarii == InsertIfAbsent(old(h.materialSectarii), assign(k), material)
    ensures w.foods == old(w.foods) && h.meshFood == old(h.meshFood) && h.materialFood == old(h.materialFood)
    ensures pop.inputs == old(pop.inputs) && pop.pruning == old(pop.pruning) && pop.pruningRate == old(pop.pruningRate)
  {
    var a := w.agents[p];
    var (fired, left) := Debit(a.satiety);
    if !fired {
      return None;
    }
    SameBrains(w.hp, w.agents, w.agents[p := a.(satiety := left)], w.foods, w.translation, w.nextEntity);
    w.agents := w.agents[p := a.(satiety := left)];
    var c, k := Birth(w, pop, h, a.brain.key, assign, mesh, material, pos);
    assert w.agents[c].brain.key == k;
    child := Some(c);
  }

  /** How many of the agents `order` names are above the threshold in `ag`. */
  function Births(order: seq<Entity>, ag: map<Entity, Agent>): (n: nat)
    requires forall j :: 0 <= j < |order| ==> order[j] in ag
    ensures n <= |order|
    decreases |order|
  {
    if order == [] then 0
    else
      var last := order[|order| - 1];
      Births(order[..|order| - 1], ag) + (if ag[last].satiety > Threshold then 1 else 0)
  }

  /** The positions in `order` of the agents above the threshold in `ag`, in
      order: the turns of a pass that spawn a child. */
  function BirthTurns(order: seq<Entity>, ag: map<Entity, Agent>): (r: seq<nat>)
    requires forall j :: 0 <= j < |order| ==> order[j] in ag
    ensures |r| == Births(order, ag)
    decreases |order|
  {
    if order == [] then []
    else
      BirthTurns(order[..|order| - 1], ag) + Tail(order, ag)
  }

  /** The last turn of `order`, if it is a birth turn. */
  function Tail(order: seq<Entity>, ag: map<Entity, Agent>): seq<nat>
    requires order != [] && order[|order| - 1] in ag
  {
    if ag[order[|order| - 1]].satiety > Threshold then [|order| - 1] else []
  }

  /** Every birth turn is a turn of the pass whose agent is above the threshold. */
  lemma {:induction false} BirthTurnsSound(order: seq<Entity>, ag: map<Entity, Agent>)
    requires forall j :: 0 <= j < |order| ==> order[j] in ag
    ensures forall m :: 0 <= m < |BirthTurns(order, ag)| ==>
              BirthTurns(order, ag)[m] < |order| && ag[order[BirthTurns(order, ag)[m]]].satiety > Threshold
    decreases |order|
  {
    if order != [] {
      var front := order[..|order| - 1];
      BirthTurnsSound(front, ag);
      var p := BirthTurns(front, ag);
      assert BirthTurns(order, ag) == p + Tail(order, ag);
      forall m | 0 <= m < |p|
        ensures p[m] < |front| && order[p[m]] == front[p[m]]
      {
      }
    }
  }

  /** The birth turns are listed in increasing order, so none is listed twice. */
  lemma {:induction false} BirthTurnsIncreasing(order: seq<Entity>, ag: map<Entity, Agent>)
    requires forall j :: 0 <= j < |order| ==> order[j] in ag
    ensures forall m, n :: 0 <= m < n < |BirthTurns(order, ag)| ==> BirthTurns(order, ag)[m] < BirthTurns(order, ag)[n]
    decreases |order|
  {
    if order != [] {
      var front := order[..|order| - 1];
      BirthTurnsIncreasing(front, ag);
      BirthTurnsSound(front, ag);
      var p := BirthTurns(front, ag);
      assert BirthTurns(order, ag) == p + Tail(order, ag);
    }
  }

  /** Every turn of an agent above the threshold is a birth turn. */
  lemma {:induction false} BirthTurnsComplete(order: seq<Entity>, ag: map<Entity, Agent>)
    requires forall j :: 0 <= j < |order| ==> order[j] in ag
    ensures forall j :: 0 <= j < |order| && ag[order[j]].satiety > Threshold ==> j in BirthTurns(order, ag)
    decreases |order|
  {
    if order != [] {
      var front := order[..|order| - 1];
      BirthTurnsComplete(front, ag);
      var p := BirthTurns(front, ag);
      assert BirthTurns(order, ag) == p + Tail(order, ag);
      forall j | 0 <= j < |front|
        ensures order[j] == front[j]
      {
      }
    }
  }

  /** The agents of `order` that are above the threshold in `ag`. */
  ghost function Fed(order: seq<Entity>, ag: map<Entity, Agent>): set<Entity> {
    set x | x in order && x in ag && ag[x].satiety > Threshold
  }

  /** In a pass that gives each agent one turn, the births are as many as the
      agents above the threshold. */
  lemma {:induction false} BirthsCount(order: seq<Entity>, ag: map<Entity, Agent>)
    requires forall j :: 0 <= j < |order| ==> order[j] in ag
    requires forall j, l :: 0 <= j < l < |order| ==> order[j] != order[l]
    ensures Births(order, ag) == |Fed(order, ag)|
    decreases |order|
  {
    if order != [] {
      var front, last := order[..|order| - 1], order[|order| - 1];
      forall j | 0 <= j < |front|
        ensures front[j] == order[j]
      {
      }
      BirthsCount(front, ag);
      assert order == front + [last];
      assert last !in front;
      if ag[last].satiety > Threshold {
        assert Fed(order, ag) == Fed(front, ag) + {last};
      } else {
        assert Fed(order, ag) == Fed(front, ag);
      }
    }
  }

  /** One more turn of the pass adds its index exactly when it spawns. */
  lemma BirthTurnsStep(order: seq<Entity>, ag: map<Entity, Agent>, i: nat)
    requires i < |order| && forall j :: 0 <= j < |order| ==> order[j] in ag
    ensures BirthTurns(order[..i + 1], ag)
            == BirthTurns(order[..i], ag) + (if ag[order[i]].satiety > Threshold then [i] else [])
  {
    assert order[..i + 1][..i] == order[..i];
  }

  /** The agents of `order` before position `i` have had their turn, the rest
      not yet. */
  ghost predicate Turned(ag: map<Entity, Agent>, ag0: map<Entity, Agent>, order: seq<Entity>, i: nat)
  {
    forall j :: 0 <= j < |order| && order[j] in ag0 ==>
      order[j] in ag && ag[order[j]] == (if j < i then AfterTurn(ag0[order[j]]) else ag0[order[j]])
  }

  /** The ids, or keys, from `lo` up to but not including `hi`. */
  function Span(lo: nat, hi: nat): (r: set<nat>)
    ensures forall x :: x in r <==> lo <= x < hi
    decreases hi
  {
    if hi <= lo then {} else Span(lo, hi - 1) + {hi - 1}
  }

  /** The species that `assign` gives the controller keys from `lo` up to but
      not including `hi`. */
  function Assigned(assign: nat -> nat, lo: nat, hi: nat): set<nat>
  {
    set k: nat | lo <= k < hi :: assign(k)
  }

  lemma AssignedStep(assign: nat -> nat, lo: nat, hi: nat)
    requires lo <= hi
    ensures Assigned(assign, lo, hi + 1) == Assigned(assign, lo, hi) + {assign(hi)}
  {
    forall sp | sp in Assigned(assign, lo, hi + 1)
      ensures sp in Assigned(assign, lo, hi) + {assign(hi)}
    {
      var k: nat :| lo <= k < hi + 1 && sp == assign(k);
      if k < hi {
        assert sp in Assigned(assign, lo, hi);
      }
    }
    assert assign(hi) in Assigned(assign, lo, hi + 1);
  }

  /** `m` keeps every entry of `m0` and has the keys `extra` besides, and no
      others. */
  ghost predicate Extends<K(!new), V>(m: map<K, V>, m0: map<K, V>, extra: set<K>)
  {
    && (forall x :: x in m <==> x in m0 || x in extra)
    && forall x :: x in m0 ==> m[x] == m0[x]
  }

  lemma ExtendsPut<K(!new), V>(m: map<K, V>, m0: map<K, V>, extra: set<K>, x: K, v: V)
    requires Extends(m, m0, extra) && x !in m0
    ensures Extends(m[x := v], m0, extra + {x})
  {
  }

  lemma ExtendsInsert(m: map<nat, int>, m0: map<nat, int>, extra: set<nat>, sp: nat, h: int)
    requires Extends(m, m0, extra)
    ensures Extends(InsertIfAbsent(m, sp, h), m0, extra + {sp})
  {
  }

  /** The children of a pass so far, in birth order: the m-th is entity
      `n0 + m`, a newborn with Hp 1 running the fresh controller `key0 + m` of
      fitness 0 and species `assign(key0 + m)`, whose species has both
      handles, standing at the spawn position of its birth turn `turns[m]`. */
  ghost predicate Brood(ag: map<Entity, Agent>, hp: map<Entity, real>, tr: map<Entity, (real, real)>,
                        fit: map<nat, real>, ms: map<nat, int>, mt: map<nat, int>, children: seq<Entity>,
                        turns: seq<nat>, positions: seq<(real, real)>, n0: nat, key0: nat, assign: nat -> nat)
  {
    && |turns| == |children|
    && forall m :: 0 <= m < |children| ==>
         && children[m] == n0 + m
         && children[m] in ag && ag[children[m]] == Newborn(key0 + m, assign(key0 + m))
         && children[m] in hp && hp[children[m]] == 1.0
         && turns[m] < |positions| && children[m] in tr && tr[children[m]] == positions[turns[m]]
         && key0 + m in fit && fit[key0 + m] == 0.0
         && assign(key0 + m) in ms && assign(key0 + m) in mt
  }

  /** Debiting an agent `p` that is not a child, and recording the birth of
      the next child `c` with the next key `k` at `positions[i]`, keeps the
      brood. */
  lemma BroodBirth(ag: map<Entity, Agent>, hp: map<Entity, real>, tr: map<Entity, (real, real)>,
                   fit: map<nat, real>, ms: map<nat, int>, mt: map<nat, int>, children: seq<Entity>,
                   turns: seq<nat>, positions: seq<(real, real)>, n0: nat, key0: nat, assign: nat -> nat,
                   p: Entity, a: Agent, c: Entity, k: nat, i: nat, m: int, t: int)
    requires Brood(ag, hp, tr, fit, ms, mt, children, turns, positions, n0, key0, assign)
    requires p < n0 && i < |positions| && c == n0 + |children| && k == key0 + |children|
    ensures Brood(ag[p := a][c := Newborn(k, assign(k))], hp[c := 1.0], tr[c := positions[i]],
                  fit[k := 0.0], InsertIfAbsent(ms, assign(k), m), InsertIfAbsent(mt, assign(k), t),
                  children + [c], turns + [i], positions, n0, key0, assign)
  {
    var ag' := ag[p := a][c := Newborn(k, assign(k))];
    var children' := children + [c];
    forall j | 0 <= j < |children'|
      ensures children'[j] == n0 + j && children'[j] in ag' && ag'[children'[j]] == Newborn(key0 + j, assign(key0 + j))
    {
      if j < |children| {
        assert children'[j] == children[j] && children[j] != p && children[j] != c;
      }
    }
  }

  /** Whoever has the next turn has not had one yet. */
  lemma Pending(ag: map<Entity, Agent>, ag0: map<Entity, Agent>, order: seq<Entity>, i: nat)
    requires Turned(ag, ag0, order, i) && i < |order| && order[i] in ag0
    ensures order[i] in ag && ag[order[i]] == ag0[order[i]]
  {
  }

  /** After the parent's turn and the birth of `c`, the turns taken are those
      of `order[..i + 1]`. */
  lemma TurnedBirth(ag: map<Entity, Agent>, ag0: map<Entity, Agent>, order: seq<Entity>, i: nat,
                    c: Entity, k: nat, s: nat)
    requires Turned(ag, ag0, order, i) && i < |order| && order[i] in ag && order[i] in ag0
    requires ag[order[i]] == ag0[order[i]]
    requires (forall j, l :: 0 <= j < l < |order| ==> order[j] != order[l]) && c !in ag0
    ensures Turned(ag[order[i] := AfterTurn(ag[order[i]])][c := Newborn(k, s)], ag0, order, i + 1)
  {
    var p := order[i];
    var ag' := ag[p := AfterTurn(ag[p])][c := Newborn(k, s)];
    forall j | 0 <= j < |order| && order[j] in ag0
      ensures order[j] in ag' && ag'[order[j]] == (if j < i + 1 then AfterTurn(ag0[order[j]]) else ag0[order[j]])
    {
      assert order[j] != c;
    }
  }

  /** What a pass starts from: the agents, Hp, species handles, allocation
      counter, positions, ledger, key counter and species table before the
      first turn. */
  datatype Start = Start(ag: map<Entity, Agent>, hp: map<Entity, real>, ms: map<nat, int>, mt: map<nat, int>,
                         n: nat, tr: map<Entity, (real, real)>, fit: map<nat, real>, key: nat, sp: set<nat>)

  /** A pass over `order` with a spawn position per turn, from a start `s`
      whose ids are all below its allocation counter and whose ledger keys are
      all below its key counter. */
  ghost predicate Origin(order: seq<Entity>, positions: seq<(real, real)>, s: Start)
  {
    && |order| == |positions|
    && (forall j :: 0 <= j < |order| ==> order[j] in s.ag)
    && (forall j, l :: 0 <= j < l < |order| ==> order[j] != order[l])
    && (forall x :: x in s.ag ==> x < s.n) && (forall x :: x in s.hp ==> x < s.n)
    && (forall x :: x in s.tr ==> x < s.n) && (forall k :: k in s.fit ==> k < s.key)
  }

  /** Since the start `s`, the agents, Hp and positions have gained exactly
      the ids drawn so far, those below `next`, and Hp and positions have kept
      every earlier entry. */
  ghost predicate Spawned(ag: map<Entity, Agent>, hp: map<Entity, real>, tr: map<Entity, (real, real)>,
                          next: nat, s: Start)
  {
    && (forall x :: x in ag <==> x in s.ag || x in Span(s.n, next))
    && Extends(hp, s.hp, Span(s.n, next)) && Extends(tr, s.tr, Span(s.n, next))
  }

  /** Since the start `s`, the ledger has gained exactly the keys drawn so
      far, those below `key`, and the species table and the handles exactly
      the species assigned to them; every earlier entry is kept. */
  ghost predicate Drawn(fit: map<nat, real>, ms: map<nat, int>, mt: map<nat, int>, sp: set<nat>,
                        key: nat, assign: nat -> nat, s: Start)
  {
    && Extends(fit, s.fit, Span(s.key, key))
    && Extends(ms, s.ms, Assigned(assign, s.key, key)) && Extends(mt, s.mt, Assigned(assign, s.key, key))
    && sp == s.sp + Assigned(assign, s.key, key)
  }

  /** Spawning the next id keeps the growth of the world exact. */
  lemma SpawnedBirth(ag: map<Entity, Agent>, hp: map<Entity, real>, tr: map<Entity, (real, real)>,
                     next: nat, s: Start, p: Entity, a: Agent, c: Agent, pos: (real, real))
    requires Spawned(ag, hp, tr, next, s)
    requires p in ag && s.n <= next && next !in s.hp && next !in s.tr
    ensures Spawned(ag[p := a][next := c], hp[next := 1.0], tr[next := pos], next + 1, s)
  {
    assert Span(s.n, next + 1) == Span(s.n, next) + {next};
    ExtendsPut(hp, s.hp, Span(s.n, next), next, 1.0);
    ExtendsPut(tr, s.tr, Span(s.n, next), next, pos);
  }

  /** Drawing the next key and assigning its species keeps the growth of the
      population and the handles exact. */
  lemma DrawnBirth(fit: map<nat, real>, ms: map<nat, int>, mt: map<nat, int>, sp: set<nat>,
                   key: nat, assign: nat -> nat, s: Start, m: int, t: int)
    requires Drawn(fit, ms, mt, sp, key, assign, s)
    requires s.key <= key && key !in s.fit
    ensures Drawn(fit[key := 0.0], InsertIfAbsent(ms, assign(key), m), InsertIfAbsent(mt, assign(key), t),
                  sp + {assign(key)}, key + 1, assign, s)
  {
    assert Span(s.key, key + 1) == Span(s.key, key) + {key};
    AssignedStep(assign, s.key, key);
    ExtendsPut(fit, s.fit, Span(s.key, key), key, 0.0);
    ExtendsInsert(ms, s.ms, Assigned(assign, s.key, key), assign(key), m);
    ExtendsInsert(mt, s.mt, Assigned(assign, s.key, key), assign(key), t);
  }

  /** The state of a pass over `order` from `s` after `i` turns, with
      `children` spawned so far: the turns taken are exactly those, the
      children are the brood of those turns, one new id and one new key were
      drawn per child, and nothing else has grown or changed. */
  ghost predicate PassAt(ag: map<Entity, Agent>, hp: map<Entity, real>, ms: map<nat, int>, mt: map<nat, int>,
                         next: nat, tr: map<Entity, (real, real)>, fit: map<nat, real>, key: nat, sp: set<nat>,
                         order: seq<Entity>, positions: seq<(real, real)>, assign: nat -> nat,
                         children: seq<Entity>, s: Start, i: nat)
  {
    && i <= |order| && Origin(order, positions, s)
    && next == s.n + |children| && key == s.key + |children|
    && Turned(ag, s.ag, order, i)
    && Brood(ag, hp, tr, fit, ms, mt, children, BirthTurns(order[..i], s.ag), positions, s.n, s.key, assign)
    && Spawned(ag, hp, tr, next, s) && Drawn(fit, ms, mt, sp, key, assign, s)
  }

  /** `PassAt` of the world, the population and the handles. */
  ghost predicate Pass(w: World, pop: Population, h: Handlers, order: seq<Entity>, positions: seq<(real, real)>,
                       assign: nat -> nat, children: seq<Entity>, s: Start, i: nat)
    reads w, pop, h
  {
    && w.Valid() && pop.Valid() && Bound(w, pop)
    && PassAt(w.agents, w.hp, h.meshSectarii, h.materialSectarii, w.nextEntity, w.translation,
              pop.fitness, pop.nextKey, pop.species, order, positions, assign, children, s, i)
  }

  /** A pass over every agent, with a position for every turn, starts with
      nothing done. */
  lemma PassBegins(order: seq<Entity>, positions: seq<(real, real)>, assign: nat -> nat, s: Start)
    requires forall x :: x in s.ag <==> x in order
    requires forall i, j :: 0 <= i < j < |order| ==> order[i] != order[j]
    requires |positions| == |order|
    requires s.ag.Keys <= s.hp.Keys && s.tr.Keys == s.hp.Keys && forall x :: x in s.hp ==> x < s.n
    requires forall k :: k in s.fit ==> k < s.key
    ensures PassAt(s.ag, s.hp, s.ms, s.mt, s.n, s.tr, s.fit, s.key, s.sp, order, positions, assign, [], s, 0)
  {
    assert order[..0] == [];
    assert Span(s.n, s.n) == {} && Span(s.key, s.key) == {} && Assigned(assign, s.key, s.key) == {};
    assert forall j :: 0 <= j < |order| ==> order[j] in s.ag;
  }

  /** A pass that has given every agent its turn, from the start `ag0`, ...,
      `sp0`: every agent has had its turn, the children are as many as the
      birth turns and are their brood, and the state has grown by exactly
      the children's ids, keys and species. */
  lemma PassEnds(ag: map<Entity, Agent>, hp: map<Entity, real>, ms: map<nat, int>, mt: map<nat, int>,
                 next: nat, tr: map<Entity, (real, real)>, fit: map<nat, real>, key: nat, sp: set<nat>,
                 order: seq<Entity>, positions: seq<(real, real)>, assign: nat -> nat,
                 children: seq<Entity>, s: Start,
                 ag0: map<Entity, Agent>, hp0: map<Entity, real>, ms0: map<nat, int>, mt0: map<nat, int>,
                 n0: nat, tr0: map<Entity, (real, real)>, fit0: map<nat, real>, key0: nat, sp0: set<nat>)
    requires PassAt(ag, hp, ms, mt, next, tr, fit, key, sp, order, positions, assign, children, s, |order|)
    requires s == Start(ag0, hp0, ms0, mt0, n0, tr0, fit0, key0, sp0)
    ensures |children| == Births(order, ag0)
    ensures next == n0 + |children| && key == key0 + |children|
    ensures forall c :: c in children ==> c !in hp0
    ensures Turned(ag, ag0, order, |order|)
    ensures Brood(ag, hp, tr, fit, ms, mt, children, BirthTurns(order, ag0), positions, n0, key0, assign)
    ensures forall x :: x in ag <==> x in ag0 || x in Span(n0, next)
    ensures Extends(hp, hp0, Span(n0, next))
    ensures Extends(tr, tr0, Span(n0, next))
    ensures Extends(fit, fit0, Span(key0, key))
    ensures Extends(ms, ms0, Assigned(assign, key0, key))
    ensures Extends(mt, mt0, Assigned(assign, key0, key))
    ensures sp == sp0 + Assigned(assign, key0, key)
  {
    assert order[..|order|] == order;
  }

  /** A turn whose agent is not above the threshold spawns nothing and keeps
      the pass's state. */
  lemma SkipStep(ag: map<Entity, Agent>, hp: map<Entity, real>, ms: map<nat, int>, mt: map<nat, int>,
                 next: nat, tr: map<Entity, (real, real)>, fit: map<nat, real>, key: nat, sp: set<nat>,
                 order: seq<Entity>, positions: seq<(real, real)>, assign: nat -> nat,
                 children: seq<Entity>, s: Start, i: nat)
    requires PassAt(ag, hp, ms, mt, next, tr, fit, key, sp, order, positions, assign, children, s, i)
    requires i < |order| && s.ag[order[i]].satiety <= Threshold
    ensures PassAt(ag, hp, ms, mt, next, tr, fit, key, sp, order, positions, assign, children, s, i + 1)
  {
    assert order[..i + 1][..i] == order[..i];
    BirthTurnsStep(order, s.ag, i);
    assert BirthTurns(order[..i + 1], s.ag) == BirthTurns(order[..i], s.ag);
    TurnedSkip(ag, s.ag, order, i);
  }

  /** A turn that leaves its agent as it was counts as taken. */
  lemma TurnedSkip(ag: map<Entity, Agent>, ag0: map<Entity, Agent>, order: seq<Entity>, i: nat)
    requires Turned(ag, ag0, order, i) && i < |order| && order[i] in ag0
    requires ag0[order[i]].satiety <= Threshold
    ensures Turned(ag, ag0, order, i + 1)
  {
    forall j | 0 <= j < |order| && order[j] in ag0
      ensures order[j] in ag && ag[order[j]] == (if j < i + 1 then AfterTurn(ag0[order[j]]) else ag0[order[j]])
    {
      if j == i {
        assert AfterTurn(ag0[order[i]]) == ag0[order[i]];
      }
    }
  }

  /** A turn whose agent is above the threshold debits it and spawns the
      newborn `c`, the next id, at `positions[i]`, with `k`, the next key, and
      species `assign(k)`: the state `ag'`, ..., `sp'` it leaves keeps the
      pass's state once the child is recorded. */
  lemma BirthStep(ag: map<Entity, Agent>, hp: map<Entity, real>, ms: map<nat, int>, mt: map<nat, int>,
                  next: nat, tr: map<Entity, (real, real)>, fit: map<nat, real>, key: nat, sp: set<nat>,
                  order: seq<Entity>, positions: seq<(real, real)>, assign: nat -> nat,
                  children: seq<Entity>, s: Start, i: nat, m: int, t: int, c: Entity, k: nat,
                  ag': map<Entity, Agent>, hp': map<Entity, real>, ms': map<nat, int>, mt': map<nat, int>,
                  tr': map<Entity, (real, real)>, fit': map<nat, real>, sp': set<nat>, next': nat, key': nat)
    requires PassAt(ag, hp, ms, mt, next, tr, fit, key, sp, order, positions, assign, children, s, i)
    requires i < |order| && s.ag[order[i]].satiety > Threshold && c == next && k == key
    requires next' == c + 1 && key' == k + 1
    requires order[i] in ag && ag' == ag[order[i] := AfterTurn(ag[order[i]])][c := Newborn(k, assign(k))]
    requires hp' == hp[c := 1.0] && tr' == tr[c := positions[i]] && fit' == fit[k := 0.0]
    requires ms' == InsertIfAbsent(ms, assign(k), m) && mt' == InsertIfAbsent(mt, assign(k), t)
    requires sp' == sp + {assign(k)}
    ensures PassAt(ag', hp', ms', mt', next', tr', fit', key', sp', order, positions, assign, children + [c], s, i + 1)
  {
    var p := order[i];
    Pending(ag, s.ag, order, i);
    assert order[..i + 1][..i] == order[..i];
    BirthTurnsStep(order, s.ag, i);
    assert BirthTurns(order[..i + 1], s.ag) == BirthTurns(order[..i], s.ag) + [i];
    TurnedBirth(ag, s.ag, order, i, c, k, assign(k));
    BroodBirth(ag, hp, tr, fit, ms, mt, children, BirthTurns(order[..i], s.ag), positions, s.n, s.key, assign,
               p, AfterTurn(ag[p]), c, k, i, m, t);
    SpawnedBirth(ag, hp, tr, c, s, p, AfterTurn(ag[p]), Newborn(k, assign(k)), positions[i]);
    DrawnBirth(fit, ms, mt, sp, k, assign, s, m, t);
  }

  /** Turn `i` of a pass, for an agent above the threshold: it reproduces,
      and its child is recorded. */
  method BirthTurn(w: World, pop: Population, h: Handlers, order: seq<Entity>, i: nat, assign: nat -> nat,
                   mesh: int, material: int, positions: seq<(real, real)>, children: seq<Entity>, ghost s: Start)
    returns (children': seq<Entity>)
    requires i < |order| && Pass(w, pop, h, order, positions, assign, children, s, i)
    requires s.ag[order[i]].satiety > Threshold
    modifies w, pop, h
    ensures Pass(w, pop, h, order, positions, assign, children', s, i + 1)
    ensures w.foods == old(w.foods) && h.meshFood == old(h.meshFood) && h.materialFood == old(h.materialFood)
    ensures pop.inputs == old(pop.inputs) && pop.pruning == old(pop.pruning) && pop.pruningRate == old(pop.pruningRate)
  {
    ghost var ag, hp, ms, mt, nx, tr := w.agents, w.hp, h.meshSectarii, h.materialSectarii, w.nextEntity, w.translation;
    ghost var fit, key, sp := pop.fitness, pop.nextKey, pop.species;
    Pending(ag, s.ag, order, i);
    var child := Reproduce(w, pop, h, order[i], assign, mesh, material, positions[i]);
    var c := child.value;
    var k := w.agents[c].brain.key;
    BirthStep(ag, hp, ms, mt, nx, tr, fit, key, sp, order, positions, assign, children, s, i, mesh, material, c, k,
              w.agents, w.hp, h.meshSectarii, h.materialSectarii, w.translation, pop.fitness, pop.species,
              w.nextEntity, pop.nextKey);
    children' := children + [c];
  }

  /** Turn `i` of a pass: agent `order[i]` reproduces or not, and a child is
      recorded. */
  method TakeTurn(w: World, pop: Population, h: Handlers, order: seq<Entity>, i: nat, assign: nat -> nat,
                  mesh: int, material: int, positions: seq<(real, real)>, children: seq<Entity>, ghost s: Start)
    returns (children': seq<Entity>)
    requires i < |order| && Pass(w, pop, h, order, positions, assign, children, s, i)
    modifies w, pop, h
    ensures Pass(w, pop, h, order, positions, assign, children', s, i + 1)
    ensures w.foods == old(w.foods) && h.meshFood == old(h.meshFood) && h.materialFood == old(h.materialFood)
    ensures pop.inputs == old(pop.inputs) && pop.pruning == old(pop.pruning) && pop.pruningRate == old(pop.pruningRate)
  {
    Pending(w.agents, s.ag, order, i);
    if w.agents[order[i]].satiety > Threshold {
      children' := BirthTurn(w, pop, h, order, i, assign, mesh, material, positions, children, s);
    } else {
      var child := Reproduce(w, pop, h, order[i], assign, mesh, material, positions[i]);
      SkipStep(w.agents, w.hp, h.meshSectarii, h.materialSectarii, w.nextEntity, w.translation,
               pop.fitness, pop.nextKey, pop.species, order, positions, assign, children, s, i);
      children' := children;
    }
  }

  /** `reproduction_system`: each agent takes one turn, in the query's
      iteration order `order` (every agent exactly once). Offspring are spawned
      through deferred commands, so they take no turn in the same pass. The
      i-th turn uses handles `meshes[i]` and `materials[i]` and spawn position
      `positions[i]`; the m-th child is born in turn `BirthTurns(order, ..)[m]`. */
  method ReproductionSystem(w: World, pop: Population, h: Handlers, order: seq<Entity>, assign: nat -> nat,
                            meshes: seq<int>, materials: seq<int>, positions: seq<(real, real)>)
    returns (children: seq<Entity>)
    requires w.Valid() && pop.Valid() && Bound(w, pop)
    requires forall x :: x in w.agents <==> x in order
    requires forall i, j :: 0 <= i < j < |order| ==> order[i] != order[j]
    requires |meshes| == |order| && |materials| == |order| && |positions| == |order|
    modifies w, pop, h
    ensures w.Valid() && pop.Valid() && Bound(w, pop)
    ensures |children| == Births(order, old(w.agents)) == |Fed(order, old(w.agents))|
    ensures w.nextEntity == old(w.nextEntity) + |children| && pop.nextKey == old(pop.nextKey) + |children|
    ensures forall c :: c in children ==> c !in old(w.hp)
    ensures Turned(w.agents, old(w.agents), order, |order|)
    ensures Brood(w.agents, w.hp, w.translation, pop.fitness, h.meshSectarii, h.materialSectarii, children,
                  BirthTurns(order, old(w.agents)), positions, old(w.nextEntity), old(pop.nextKey), assign)
    ensures forall x :: x in w.agents <==> x in old(w.agents) || x in Span(old(w.nextEntity), w.nextEntity)
    ensures Extends(w.hp, old(w.hp), Span(old(w.nextEntity), w.nextEntity))
    ensures Extends(w.translation, old(w.translation), Span(old(w.nextEntity), w.nextEntity))
    ensures Extends(pop.fitness, old(pop.fitness), Span(old(pop.nextKey), pop.nextKey))
    ensures Extends(h.meshSectarii, old(h.meshSectarii), Assigned(assign, old(pop.nextKey), pop.nextKey))
    ensures Extends(h.materialSectarii, old(h.materialSectarii), Assigned(assign, old(pop.nextKey), pop.nextKey))
    ensures pop.species == old(pop.species) + Assigned(assign, old(pop.nextKey), pop.nextKey)
    ensures w.foods == old(w.foods) && h.meshFood == old(h.meshFood) && h.materialFood == old(h.materialFood)
    ensures pop.inputs == old(pop.inputs) && pop.pruning == old(pop.pruning) && pop.pruningRate == old(pop.pruningRate)
  {
    BirthsCount(order, w.agents);
    children := [];
    ghost var s := Start(w.agents, w.hp, h.meshSectarii, h.materialSectarii, w.nextEntity, w.translation,
                         pop.fitness, pop.nextKey, pop.species);
    PassBegins(order, positions, assign, s);
    for i := 0 to |order|
      invariant Pass(w, pop, h, order, positions, assign, children, s, i)
      invariant w.foods == old(w.foods) && h.meshFood == old(h.meshFood) && h.materialFood == old(h.materialFood)
      invariant pop.inputs == old(pop.inputs) && pop.pruning == old(pop.pruning) && pop.pruningRate == old(pop.pruningRate)
    {
      children := TakeTurn(w, pop, h, order, i, assign, meshes[i], materials[i], positions, children, s);
    }
    PassEnds(w.agents, w.hp, h.meshSectarii, h.materialSectarii, w.nextEntity, w.translation,
             pop.fitness, pop.nextKey, pop.species, order, positions, assign, children, s,
             old(w.agents), old(w.hp), old(h.meshSectarii), old(h.materialSectarii), old(w.nextEntity),
             old(w.translation), old(pop.fitness), old(pop.nextKey), old(pop.species));
  }
}
