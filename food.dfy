/** Food bootstrapping and regrowth (src/food.rs). Positions and Hp values that
    the source draws at random are parameters, constrained to the ranges the
    source draws them from. */
module Food {
  import opened Ecs

  /** Regrowth stops once this many food items exist. */
  const FoodCap: nat := 6000
  /** Food items spawned at startup. */
  const InitialFood: nat := 1000

  /** Food count after one `regrow_system` run that started with `n` items. */
  function Regrown(n: nat): (r: nat)
    ensures r == n || r == n + 1
    ensures r == n + 1 <==> n < FoodCap
    ensures n <= FoodCap ==> r <= FoodCap
  {
    if n < FoodCap then n + 1 else n
  }

  /** Food count after a run of ticks; on each tick `eaten[i]` items are
      despawned (at most all of them) and then `regrow_system` runs. */
  function AfterTicks(n: nat, eaten: seq<nat>): nat
    decreases |eaten|
  {
    if eaten == [] then n
    else AfterTicks(Regrown(if eaten[0] <= n then n - eaten[0] else 0), eaten[1..])
  }

  /** The soft cap holds for good: starting at or below 6000, no run of ticks
      ever takes the food count above it. */
  lemma {:induction false} CapHolds(n: nat, eaten: seq<nat>)
    requires n <= FoodCap
    ensures AfterTicks(n, eaten) <= FoodCap
    decreases |eaten|
  {
    if eaten != [] {
      CapHolds(Regrown(if eaten[0] <= n then n - eaten[0] else 0), eaten[1..]);
    }
  }

  /** With nothing eaten the food count climbs by one per tick until it reaches
      the cap, and stays there. */
  lemma {:induction false} Refill(n: nat, k: nat)
    requires n <= FoodCap
    ensures AfterTicks(n, seq(k, _ => 0)) == if n + k <= FoodCap then n + k else FoodCap
    decreases k
  {
    if k > 0 {
      var rest := seq(k - 1, _ => 0);
      assert seq(k, _ => 0)[1..] == rest;
      Refill(Regrown(n), k - 1);
    }
  }

  /** `spawn_food`: a new food entity with Hp `hp` at `pos`; the food mesh and
      material handles must already exist. */
  method SpawnFood(w: World, h: Handlers, hp: real, pos: (real, real)) returns (e: Entity)
    requires w.Valid() && h.meshFood.Some? && h.materialFood.Some?
    modifies w
    ensures w.Valid()
    ensures e == old(w.nextEntity) && e !in old(w.hp) && w.nextEntity == e + 1
    ensures w.hp == old(w.hp)[e := hp] && w.translation == old(w.translation)[e := pos]
    ensures w.foods == old(w.foods) + {e} && w.agents == old(w.agents)
  {
    e := w.nextEntity;
    w.hp := w.hp[e := hp];
    w.translation := w.translation[e := pos];
    w.foods := w.foods + {e};
    w.nextEntity := e + 1;
  }

  /** `regrow_system`: one food item with Hp in [0.2, 0.5) somewhere in
      [-8000, 8000)^2 is added exactly when fewer than 6000 exist. */
  method RegrowSystem(w: World, h: Handlers, x: real, y: real, hp: real) returns (spawned: Option<Entity>)
    requires w.Valid() && h.meshFood.Some? && h.materialFood.Some?
    requires -8000.0 <= x < 8000.0 && -8000.0 <= y < 8000.0 && 0.2 <= hp < 0.5
    modifies w
    ensures w.Valid()
    ensures spawned.Some? <==> |old(w.foods)| < FoodCap
    ensures |w.foods| == Regrown(|old(w.foods)|)
    ensures spawned.None? ==> && w.hp == old(w.hp) && w.foods == old(w.foods) && w.translation == old(w.translation)
                              && w.nextEntity == old(w.nextEntity)
    ensures spawned.Some? ==> && spawned.value == old(w.nextEntity) && spawned.value !in old(w.hp)
                              && w.nextEntity == old(w.nextEntity) + 1
                              && w.foods == old(w.foods) + {spawned.value}
                              && w.hp == old(w.hp)[spawned.value := hp]
                              && w.translation == old(w.translation)[spawned.value := (x, y)]
    ensures w.agents == old(w.agents)
  {
    if |w.foods| < FoodCap {
      var e := SpawnFood(w, h, hp, (x, y));
      spawned := Some(e);
    } else {
      spawned := None;
    }
  }

  /** The first `k` items of a setup batch sit at ids `n0`, `n0 + 1`, ... with
      the Hp and position drawn for them. */
  ghost predicate Placed(hp: map<Entity, real>, translation: map<Entity, (real, real)>, n0: nat, k: nat,
                         xs: seq<real>, ys: seq<real>, hps: seq<real>)
  {
    && k <= |xs| && k <= |ys| && k <= |hps|
    && forall j :: 0 <= j < k ==>
         && n0 + j in hp && hp[n0 + j] == hps[j]
         && n0 + j in translation && translation[n0 + j] == (xs[j], ys[j])
  }

  lemma PlacedStep(hp: map<Entity, real>, translation: map<Entity, (real, real)>, n0: nat, k: nat,
                   xs: seq<real>, ys: seq<real>, hps: seq<real>)
    requires Placed(hp, translation, n0, k, xs, ys, hps)
    requires k < |xs| && k < |ys| && k < |hps|
    ensures Placed(hp[n0 + k := hps[k]], translation[n0 + k := (xs[k], ys[k])], n0, k + 1, xs, ys, hps)
  {
  }

  lemma AddFresh(f: set<Entity>, e: Entity)
    requires e !in f
    ensures |f + {e}| == |f| + 1
  {
  }

  /** Spawning item `i` of a setup batch at the next free id `e == n0 + i` turns
      `hp`, `foods` and `translation` into `hp'`, `foods'` and `translation'`:
      the food set gains exactly that id, and the batch is placed one item
      further. */
  lemma SeededStep(hp: map<Entity, real>, foods: set<Entity>, translation: map<Entity, (real, real)>,
                   hp': map<Entity, real>, foods': set<Entity>, translation': map<Entity, (real, real)>,
                   e: Entity, n0: nat, i: nat, xs: seq<real>, ys: seq<real>, hps: seq<real>, f0: set<Entity>,
                   hp0: map<Entity, real>, tr0: map<Entity, (real, real)>)
    requires i < |xs| && i < |ys| && i < |hps|
    requires forall e :: e in hp ==> e < n0 + i
    requires forall e :: e in hp0 ==> e in hp && hp[e] == hp0[e]
    requires forall e :: e in tr0 ==> e in translation && translation[e] == tr0[e]
    requires foods <= hp.Keys && translation.Keys == hp.Keys && |foods| == |f0| + i
    requires forall e :: e in foods <==> e in f0 || n0 <= e < n0 + i
    requires Placed(hp, translation, n0, i, xs, ys, hps)
    requires e == n0 + i && hp' == hp[e := hps[i]] && translation' == translation[e := (xs[i], ys[i])]
    requires foods' == foods + {e}
    ensures |foods'| == |f0| + i + 1
    ensures forall e :: e in foods' <==> e in f0 || n0 <= e < n0 + i + 1
    ensures Placed(hp', translation', n0, i + 1, xs, ys, hps)
    ensures forall e :: e in hp0 ==> e in hp' && hp'[e] == hp0[e]
    ensures forall e :: e in tr0 ==> e in translation' && translation'[e] == tr0[e]
  {
    PlacedStep(hp, translation, n0, i, xs, ys, hps);
    AddFresh(foods, e);
  }

  /** `setup_food`: creates the food mesh and material handles, then spawns 1000
      food items, the i-th with Hp `hps[i]` in [0.7, 0.9) at (`xs[i]`, `ys[i]`)
      in [-4000, 4000)^2. */
  method SetupFood(w: World, h: Handlers, mesh: int, material: int, xs: seq<real>, ys: seq<real>, hps: seq<real>)
    requires w.Valid() && |xs| == InitialFood && |ys| == InitialFood && |hps| == InitialFood
    requires forall i :: 0 <= i < InitialFood ==> -4000.0 <= xs[i] < 4000.0 && -4000.0 <= ys[i] < 4000.0
    requires forall i :: 0 <= i < InitialFood ==> 0.7 <= hps[i] < 0.9
    modifies w, h
    ensures w.Valid()
    ensures h.meshFood == Some(mesh) && h.materialFood == Some(material)
    ensures h.meshSectarii == old(h.meshSectarii) && h.materialSectarii == old(h.materialSectarii)
    ensures w.agents == old(w.agents) && w.nextEntity == old(w.nextEntity) + InitialFood
    ensures |w.foods| == |old(w.foods)| + InitialFood
    ensures forall e :: e in w.foods <==> e in old(w.foods) || old(w.nextEntity) <= e < w.nextEntity
    ensures Placed(w.hp, w.translation, old(w.nextEntity), InitialFood, xs, ys, hps)
    ensures forall e :: e in old(w.hp) ==> e in w.hp && w.hp[e] == old(w.hp)[e]
    ensures forall e :: e in old(w.translation) ==> e in w.translation && w.translation[e] == old(w.translation)[e]
  {
    h.meshFood := Some(mesh);
    h.materialFood := Some(material);
    var n0 := w.nextEntity;
    ghost var f0, hp0, tr0 := w.foods, w.hp, w.translation;
    for i := 0 to InitialFood
      invariant h.meshFood == Some(mesh) && h.materialFood == Some(material)
      invariant h.meshSectarii == old(h.meshSectarii) && h.materialSectarii == old(h.materialSectarii)
      invariant w.Valid() && w.nextEntity == n0 + i && w.agents == old(w.agents)
      invariant |w.foods| == |f0| + i
      invariant forall e :: e in w.foods <==> e in f0 || n0 <= e < n0 + i
      invariant Placed(w.hp, w.translation, n0, i, xs, ys, hps)
      invariant forall e :: e in hp0 ==> e in w.hp && w.hp[e] == hp0[e]
      invariant forall e :: e in tr0 ==> e in w.translation && w.translation[e] == tr0[e]
    {
      ghost var hp, foods, translation := w.hp, w.foods, w.translation;
      var e := SpawnFood(w, h, hps[i], (xs[i], ys[i]));
      SeededStep(hp, foods, translation, w.hp, w.foods, w.translation, e, n0, i, xs, ys, hps, f0, hp0, tr0);
    }
  }
}
