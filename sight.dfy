/** `sensor_sight` (src/sectarii.rs): each agent's sight sensor reports the
    nearest colliding food and the nearest colliding rival. Collision
    enumeration, vector lengths and `atan2` are physics: a sensor's `View` gives
    the colliding entities in iteration order, the distance to each and the
    heading of the direction towards each, and the heading of the sensor's own
    forward axis. */
module Sight {
  import opened Ecs
  import opened Geometry

  /** Distance at which the proximity channel reads 0. */
  const SightRange: real := 180.0

  datatype View = View(ce: seq<Entity>, dist: map<Entity, real>, direction: map<Entity, real>, forward: real)

  /** Every colliding entity has a distance, which is a length, and a heading. */
  predicate Measured(v: View)
  {
    forall x :: x in v.ce ==> x in v.dist && x in v.direction && v.dist[x] >= 0.0
  }

  /** `filter(allowed).map(distance).min_by(partial_cmp)`: the index in `ce` of
      the nearest entity in `allowed`, ties going to the earliest, as `min_by`
      keeps the current minimum unless a later one is strictly smaller. */
  function NearestIn(ce: seq<Entity>, allowed: set<Entity>, dist: map<Entity, real>): (r: Option<nat>)
    requires forall x :: x in ce ==> x in dist
    ensures r.None? <==> forall j :: 0 <= j < |ce| ==> ce[j] !in allowed
    ensures r.Some? ==> r.value < |ce| && ce[r.value] in allowed
    ensures r.Some? ==> forall j :: 0 <= j < |ce| && ce[j] in allowed ==> dist[ce[r.value]] <= dist[ce[j]]
    ensures r.Some? ==> forall j :: 0 <= j < r.value && ce[j] in allowed ==> dist[ce[r.value]] < dist[ce[j]]
    decreases |ce|
  {
    if ce == [] then None
    else
      var last := |ce| - 1;
      var p := NearestIn(ce[..last], allowed, dist);
      if ce[last] !in allowed then p
      else if p.None? then Some(last)
      else if dist[ce[last]] < dist[ce[p.value]] then Some(last)
      else p
  }

  /** One sighting encoded: proximity `1 - d/180` and the bearing. Proximity
      is 1 at distance 0, falls as the distance grows, reaches 0 at 180 units,
      and gives the distance back. */
  function Encode(d: real, bearing: real): (r: Reading)
    ensures r.1 == bearing
    ensures SightRange * (1.0 - r.0) == d
    ensures d >= 0.0 ==> r.0 <= 1.0
    ensures 0.0 <= d <= SightRange ==> 0.0 <= r.0 <= 1.0
    ensures r.0 == 0.0 <==> d == SightRange
  {
    (1.0 - d / SightRange, bearing)
  }

  /** One channel of the sensor: `(0, 0)` when nothing allowed collides, else
      the encoded nearest sighting, whose bearing is `angle_between_2d` from the
      sensor to it. */
  function Channel(v: View, allowed: set<Entity>): (r: Reading)
    requires Measured(v)
    ensures (forall j :: 0 <= j < |v.ce| ==> v.ce[j] !in allowed) ==> r == (0.0, 0.0)
    ensures (exists j :: 0 <= j < |v.ce| && v.ce[j] in allowed) ==>
              && r.0 <= 1.0 && -PI <= r.1 < PI
              && exists i :: 0 <= i < |v.ce| && v.ce[i] in allowed
                   && r == Encode(v.dist[v.ce[i]], AngleBetween(v.forward, v.direction[v.ce[i]]))
                   && forall j :: 0 <= j < |v.ce| && v.ce[j] in allowed ==> v.dist[v.ce[i]] <= v.dist[v.ce[j]]
  {
    match NearestIn(v.ce, allowed, v.dist)
    case None => (0.0, 0.0)
    case Some(i) =>
      var e := v.ce[i];
      assert v.dist[e] / SightRange >= 0.0;
      Encode(v.dist[e], AngleBetween(v.forward, v.direction[e]))
  }

  /** The rival channel's candidates: agents other than the sensor's parent. */
  function Rivals(parent: Entity, agents: set<Entity>): (r: set<Entity>)
    ensures parent !in r
    ensures forall x :: x in r <==> x in agents && x != parent
  {
    agents - {parent}
  }

  /** The reading of `parent`'s sensor; it is computed afresh from the view and
      does not depend on the previous reading. Both proximities are at most 1
      and both bearings lie in [-PI, PI). */
  function Sense(parent: Entity, v: View, foods: set<Entity>, agents: set<Entity>): (r: SensorSight)
    requires Measured(v)
    ensures r.food.0 <= 1.0 && r.rival.0 <= 1.0
    ensures -PI <= r.food.1 < PI && -PI <= r.rival.1 < PI
  {
    SensorSight(Channel(v, foods), Channel(v, Rivals(parent, agents)))
  }

  /** The parent is never the chosen rival, even when its own body collides
      with its sensor, and the chosen food is always food. */
  lemma NeverSelf(parent: Entity, v: View, foods: set<Entity>, agents: set<Entity>)
    requires Measured(v)
    ensures var r := NearestIn(v.ce, Rivals(parent, agents), v.dist);
            r.Some? ==> v.ce[r.value] != parent && v.ce[r.value] in agents
    ensures var f := NearestIn(v.ce, foods, v.dist);
            f.Some? ==> v.ce[f.value] in foods
  {
  }

  /** Only the parent itself colliding reads as seeing no rival. */
  lemma AloneSeesNoRival(parent: Entity, v: View, foods: set<Entity>, agents: set<Entity>)
    requires Measured(v)
    requires forall j :: 0 <= j < |v.ce| ==> v.ce[j] == parent || v.ce[j] !in agents
    ensures Sense(parent, v, foods, agents).rival == (0.0, 0.0)
  {
    assert forall j :: 0 <= j < |v.ce| ==> v.ce[j] !in Rivals(parent, agents);
  }

  /** A sensor that sees neither food nor a rival reads `SensorSight::default`,
      the reading every agent is spawned with. */
  lemma BlindReadsDefault(parent: Entity, v: View, foods: set<Entity>, agents: set<Entity>)
    requires Measured(v)
    requires forall j :: 0 <= j < |v.ce| ==> v.ce[j] !in foods && (v.ce[j] == parent || v.ce[j] !in agents)
    ensures Sense(parent, v, foods, agents) == NothingSeen
  {
    assert forall j :: 0 <= j < |v.ce| ==> v.ce[j] !in Rivals(parent, agents);
  }

  /** The "nothing seen" reading is not unique: a food at exactly 180 units
      dead ahead reads (0, 0) too. */
  lemma SentinelAmbiguous(f: Entity)
    ensures var v := View([f], map[f := SightRange], map[f := Upright], Upright);
            Sense(f + 1, v, {f}, {}).food == (0.0, 0.0)
  {
    var v := View([f], map[f := SightRange], map[f := Upright], Upright);
    assert NearestIn(v.ce, {f}, v.dist) == Some(0) by {
      assert v.ce[..0] == [];
    }
    FoldUnique(Upright - Upright, 0.0, 0);
  }

  /** Writes `sights[e]` into the sensor of every agent `e` of `ag0`, one
      agent at a time, leaving everything else about it as it was. */
  method Overwrite(ag0: map<Entity, Agent>, sights: map<Entity, SensorSight>) returns (agents: map<Entity, Agent>)
    requires ag0.Keys <= sights.Keys
    ensures agents.Keys == ag0.Keys
    ensures forall e :: e in ag0 ==> agents[e] == ag0[e].(sight := sights[e])
  {
    agents := ag0;
    var todo := agents.Keys;
    while todo != {}
      invariant todo <= agents.Keys && agents.Keys == ag0.Keys
      invariant forall e :: e in agents ==> agents[e] == if e in todo then ag0[e] else ag0[e].(sight := sights[e])
      decreases todo
    {
      var e :| e in todo;
      agents := agents[e := agents[e].(sight := sights[e])];
      todo := todo - {e};
    }
  }

  /** The sensor readings of every agent of `ag0`, computed from its view. */
  method Observe(ag0: map<Entity, Agent>, views: map<Entity, View>, foods: set<Entity>)
    returns (agents: map<Entity, Agent>)
    requires forall e :: e in ag0 ==> e in views && Measured(views[e])
    ensures agents.Keys == ag0.Keys
    ensures forall e :: e in ag0 ==> agents[e] == ag0[e].(sight := Sense(e, views[e], foods, ag0.Keys))
    ensures forall e :: e in ag0 ==> agents[e].brain == ag0[e].brain
  {
    var sights := map e | e in ag0 :: Sense(e, views[e], foods, ag0.Keys);
    agents := Overwrite(ag0, sights);
  }

  /** `sensor_sight`: every agent's sensor reading is overwritten with what
      its view shows. */
  method SightSystem(w: World, views: map<Entity, View>)
    requires w.Valid()
    requires forall e :: e in w.agents ==> e in views && Measured(views[e])
    modifies w
    ensures w.Valid()
    ensures w.agents.Keys == old(w.agents).Keys
    ensures forall e :: e in old(w.agents) ==>
              w.agents[e] == old(w.agents)[e].(sight := Sense(e, views[e], old(w.foods), old(w.agents).Keys))
    ensures w.hp == old(w.hp) && w.foods == old(w.foods)
    ensures w.translation == old(w.translation) && w.nextEntity == old(w.nextEntity)
  {
    var agents := Observe(w.agents, views, w.foods);
    SameBrains(w.hp, w.agents, agents, w.foods, w.translation, w.nextEntity);
    w.agents := agents;
  }
}
