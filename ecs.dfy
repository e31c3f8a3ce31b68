/** The entity-component state the systems share. Each component storage of the
    Bevy world is a map from entity to component value; the `Food` marker is a
    set. The sight/steal sensor children of an agent are not separate entities
    here: the agent's `SensorSight` reading is stored under the agent itself. */
module Ecs {

  type Entity = nat

  datatype Option<T> = None | Some(value: T)

  /** `Brain`: the controller key, the (feeding, combat) fitness pair and the
      linear/angular speed cached by the last evaluation. */
  datatype Brain = Brain(key: nat, fitness: (real, real), linvel: real, angvel: real)

  /** `Brain::new`: a brain running controller `key`, with no fitness earned
      and no motion cached. */
  function NewBrain(key: nat): (b: Brain)
    ensures b.key == key && b.fitness == (0.0, 0.0)
    ensures b.linvel == 0.0 && b.angvel == 0.0
  {
    Brain(key, (0.0, 0.0), 0.0, 0.0)
  }

  /** One encoded sighting: (proximity, bearing). */
  type Reading = (real, real)

  /** `SensorSight`: nearest food and nearest rival readings. */
  datatype SensorSight = SensorSight(food: Reading, rival: Reading)

  /** `SensorSight::default` */
  const NothingSeen: SensorSight := SensorSight((0.0, 0.0), (0.0, 0.0))

  /** The metabolic triple of one agent. */
  datatype Vitals = Vitals(hp: real, satiety: real, stamina: real)

  /** The components only an agent (`Sectarian`) carries: Satiety, Stamina,
      Brain, Species and the reading of its sight sensor child. */
  datatype Agent = Agent(satiety: real, stamina: real, brain: Brain, species: nat, sight: SensorSight)

  /** The world's invariant, stated on values: agents and food are disjoint,
      both carry Hp and a position, food carries nothing else, every entity id
      is below the allocation counter, and no two agents share a controller key. */
  ghost predicate Consistent(hp: map<Entity, real>, agents: map<Entity, Agent>, foods: set<Entity>,
                             translation: map<Entity, (real, real)>, next: nat)
  {
    && foods !! agents.Keys
    && hp.Keys == agents.Keys + foods
    && translation.Keys == hp.Keys
    && (forall e :: e in hp ==> e < next)
    && KeysUnique(agents)
  }

  function VitalsAt(hp: map<Entity, real>, agents: map<Entity, Agent>, e: Entity): Vitals
    requires e in hp && e in agents
  {
    Vitals(hp[e], agents[e].satiety, agents[e].stamina)
  }

  ghost predicate KeysUnique(agents: map<Entity, Agent>)
  {
    forall a, b :: a in agents && b in agents && a != b ==> agents[a].brain.key != agents[b].brain.key
  }

  /** Changing agent components other than the Brain keeps the world consistent. */
  lemma SameBrains(hp: map<Entity, real>, agents: map<Entity, Agent>, agents': map<Entity, Agent>, foods: set<Entity>,
                   translation: map<Entity, (real, real)>, next: nat)
    requires Consistent(hp, agents, foods, translation, next)
    requires agents'.Keys == agents.Keys
    requires forall x :: x in agents ==> agents'[x].brain.key == agents[x].brain.key
    ensures Consistent(hp, agents', foods, translation, next)
  {
  }

  class World {
    var hp: map<Entity, real>
    var agents: map<Entity, Agent>
    var foods: set<Entity>
    var translation: map<Entity, (real, real)>
    var nextEntity: nat

    ghost predicate Valid()
      reads this
    {
      Consistent(hp, agents, foods, translation, nextEntity)
    }

    function VitalsOf(e: Entity): Vitals
      reads this
      requires e in hp && e in agents
    {
      VitalsAt(hp, agents, e)
    }

    constructor ()
      ensures Valid()
      ensures hp == map[] && agents == map[] && foods == {} && translation == map[] && nextEntity == 0
    {
      hp, agents, foods, translation := map[], map[], {}, map[];
      nextEntity := 0;
    }

    /** `despawn_recursive` of each entity in `dead`: the entity, its components
        and its sensor children disappear. */
    method Despawn(dead: set<Entity>)
      requires Valid()
      modifies this
      ensures Valid()
      ensures hp == old(hp) - dead && agents == old(agents) - dead
      ensures foods == old(foods) - dead && translation == old(translation) - dead
      ensures nextEntity == old(nextEntity)
    {
      hp := hp - dead;
      agents := agents - dead;
      foods := foods - dead;
      translation := translation - dead;
    }
  }

  /** `Handlers`: render handles (opaque ints) of each species' mesh and material,
      and of the food mesh and material. */
  class Handlers {
    var meshSectarii: map<nat, int>
    var materialSectarii: map<nat, int>
    var meshFood: Option<int>
    var materialFood: Option<int>

    /** `Handlers::default` */
    constructor ()
      ensures meshSectarii == map[] && materialSectarii == map[]
      ensures meshFood == None && materialFood == None
    {
      meshSectarii, materialSectarii := map[], map[];
      meshFood, materialFood := None, None;
    }
  }
}
