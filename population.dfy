/** The controller population (`NeatContinous` of rusty_neat), reduced to the
    state the simulation reads and writes: the input arity of every network, the
    pruning flag and rate, the live species table and each controller's fitness.
    Genome internals, speciation and network evaluation are not modelled. */
module Controllers {
  import opened Ecs

  /** The arity `NN::new(5, 2, ...)` starts with. */
  const BaseInputs: nat := 5

  class Population {
    var inputs: nat
    var pruning: bool
    var pruningRate: real
    var species: set<nat>
    var fitness: map<nat, real>
    var nextKey: nat

    ghost predicate Valid()
      reads this
    {
      forall k :: k in fitness ==> k < nextKey
    }

    /** A population whose controllers have the keys `keys`, all below `next`,
        with arity 5 and no fitness yet. */
    constructor (keys: set<nat>, next: nat, table: set<nat>, pruning: bool)
      requires forall k :: k in keys ==> k < next
      ensures Valid()
      ensures inputs == BaseInputs && this.pruning == pruning && species == table
      ensures fitness.Keys == keys && nextKey == next
      ensures forall k :: k in fitness ==> fitness[k] == 0.0
    {
      inputs := BaseInputs;
      this.pruning := pruning;
      pruningRate := 0.0;
      species := table;
      fitness := map k | k in keys :: 0.0;
      nextKey := next;
    }

    /** `add_input` */
    method AddInput()
      modifies this
      ensures inputs == old(inputs) + 1
      ensures pruning == old(pruning) && pruningRate == old(pruningRate)
      ensures species == old(species) && fitness == old(fitness) && nextKey == old(nextKey)
    {
      inputs := inputs + 1;
    }

    /** `set_pruning` */
    method SetPruning(on: bool, rate: real)
      modifies this
      ensures pruning == on && pruningRate == rate
      ensures inputs == old(inputs) && species == old(species)
      ensures fitness == old(fitness) && nextKey == old(nextKey)
    {
      pruning, pruningRate := on, rate;
    }

    /** `offspring(&parent)`: a new controller under a key never used before. */
    method Offspring(parent: nat) returns (key: nat)
      requires Valid() && parent in fitness
      modifies this
      ensures Valid()
      ensures key == old(nextKey) && key !in old(fitness) && fitness == old(fitness)[key := 0.0] && nextKey == old(nextKey) + 1
      ensures inputs == old(inputs) && pruning == old(pruning) && pruningRate == old(pruningRate)
      ensures species == old(species)
    {
      key := nextKey;
      fitness := fitness[key := 0.0];
      nextKey := nextKey + 1;
    }

    /** `species_assign(&key)`; which species is chosen is the engine's
        decision, given here by `assign`. */
    method SpeciesAssign(key: nat, assign: nat -> nat) returns (s: nat)
      requires key in fitness
      modifies this
      ensures s == assign(key) && species == old(species) + {s}
      ensures inputs == old(inputs) && pruning == old(pruning) && pruningRate == old(pruningRate)
      ensures fitness == old(fitness) && nextKey == old(nextKey)
    {
      s := assign(key);
      species := species + {s};
    }
  }

  /** Every live agent's controller key names a controller of the population. */
  ghost predicate Bound(w: World, pop: Population)
    reads w, pop
  {
    forall e :: e in w.agents ==> w.agents[e].brain.key in pop.fitness
  }
}
