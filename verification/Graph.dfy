/**
 The temporal entity graph and its depth-bounded search (runtime/engram/src/graph_sqlite.rs; the
 Postgres store runs the same loop over other SQL). Relationships are never deleted when they stop
 holding: they get an end, and a search can be asked about any moment.
 */
module Graph {
  import opened Wrappers

  type Time = int
  type EntityId(==, !new)
  type RelationshipId(==, !new)
  type Origin(==, !new)
  type Details(==, !new)
  type Label(==, !new)

  /** `origin` is the scope and the time of creation, which a later write of the same id leaves alone. */
  datatype Entity = Entity(origin: Origin, details: Details)

  datatype Relationship = Relationship(
    source: EntityId, relation: Label, target: EntityId, validFrom: Time, invalidAt: Option<Time>)
  {
    /** `Relationship::is_valid_at`. */
    predicate IsValidAt(at: Time) {
      if at < validFrom then false
      else
        match invalidAt
        case Some(end) => at < end
        case None => true
    }

    /** The SQL validity clause of a search, as of a moment or as of now. */
    predicate Admitted(asOf: Option<Time>) {
      match asOf
      case Some(t) => validFrom <= t && (invalidAt.None? || invalidAt.value > t)
      case None => invalidAt.None?
    }

    predicate Touches(x: EntityId) {
      source == x || target == x
    }

    /** The end a walk from `x` reaches. */
    function Other(x: EntityId): EntityId {
      if source == x then target else source
    }
  }

  datatype Contents = Contents(entities: map<EntityId, Entity>, relationships: map<RelationshipId, Relationship>)

  lemma ClauseIsValidity(rel: Relationship, t: Time)
    ensures rel.Admitted(Some(t)) <==> rel.IsValidAt(t)
    ensures rel.Admitted(None) <==> forall later | later >= rel.validFrom :: rel.IsValidAt(later)
  {
    if rel.invalidAt.Some? {
      var late := if rel.invalidAt.value > rel.validFrom then rel.invalidAt.value else rel.validFrom;
      assert !rel.IsValidAt(late);
    }
  }

  // ---------------------------------------------------------------------------
  // Distance
  // ---------------------------------------------------------------------------

  predicate Edge(g: Contents, asOf: Option<Time>, r: RelationshipId, x: EntityId) {
    r in g.relationships && g.relationships[r].Admitted(asOf) && g.relationships[r].Touches(x)
  }

  predicate Adjacent(g: Contents, asOf: Option<Time>, x: EntityId, y: EntityId) {
    exists r | r in g.relationships :: Edge(g, asOf, r, x) && g.relationships[r].Other(x) == y
  }

  /** `near`, and what one admitted relationship leads to from it, in either direction. */
  function Hop(rows: map<RelationshipId, Relationship>, asOf: Option<Time>, near: set<EntityId>): set<EntityId> {
    near
    + (set r | r in rows && rows[r].Admitted(asOf) && rows[r].source in near :: rows[r].target)
    + (set r | r in rows && rows[r].Admitted(asOf) && rows[r].target in near :: rows[r].source)
  }

  /** Everything at undirected hop distance at most `n`. */
  function Within(g: Contents, asOf: Option<Time>, id: EntityId, n: nat): set<EntityId> {
    if n == 0 then {id} else Hop(g.relationships, asOf, Within(g, asOf, id, n - 1))
  }

  predicate Path(g: Contents, asOf: Option<Time>, path: seq<EntityId>) {
    forall k | 0 < k < |path| :: Adjacent(g, asOf, path[k - 1], path[k])
  }

  predicate NextTo(g: Contents, asOf: Option<Time>, near: set<EntityId>, y: EntityId) {
    y in near || exists x | x in near :: Adjacent(g, asOf, x, y)
  }

  lemma OneHop(g: Contents, asOf: Option<Time>, id: EntityId, n: nat, y: EntityId)
    ensures y in Within(g, asOf, id, n + 1) <==> NextTo(g, asOf, Within(g, asOf, id, n), y)
  {
    var nearer := Within(g, asOf, id, n);
    if y in Within(g, asOf, id, n + 1) && y !in nearer {
      if r :| r in g.relationships && g.relationships[r].Admitted(asOf) && g.relationships[r].source in nearer
              && g.relationships[r].target == y {
        var x := g.relationships[r].source;
        assert Edge(g, asOf, r, x) && g.relationships[r].Other(x) == y;
        assert Adjacent(g, asOf, x, y);
      } else {
        var r :| r in g.relationships && g.relationships[r].Admitted(asOf) && g.relationships[r].target in nearer
                 && g.relationships[r].source == y;
        var x := g.relationships[r].target;
        assert Edge(g, asOf, r, x) && g.relationships[r].Other(x) == y;
        assert Adjacent(g, asOf, x, y);
      }
    }
    forall x | x in nearer && Adjacent(g, asOf, x, y) ensures y in Within(g, asOf, id, n + 1) {
      var r :| r in g.relationships && Edge(g, asOf, r, x) && g.relationships[r].Other(x) == y;
      assert g.relationships[r].source == x || g.relationships[r].target == x;
    }
  }

  lemma {:induction false} WithinGrows(g: Contents, asOf: Option<Time>, id: EntityId, m: nat, n: nat)
    requires m <= n
    ensures Within(g, asOf, id, m) <= Within(g, asOf, id, n)
    decreases n
  {
    if m < n {
      WithinGrows(g, asOf, id, m, n - 1);
    }
  }

  ghost predicate Walk(g: Contents, asOf: Option<Time>, id: EntityId, n: nat, y: EntityId) {
    exists path: seq<EntityId> :: 0 < |path| <= n + 1 && path[0] == id && path[|path| - 1] == y && Path(g, asOf, path)
  }

  lemma {:induction false} WithinHasWalk(g: Contents, asOf: Option<Time>, id: EntityId, n: nat, y: EntityId)
    requires y in Within(g, asOf, id, n)
    ensures Walk(g, asOf, id, n, y)
  {
    if n == 0 {
      assert Path(g, asOf, [id]) && [id][0] == id;
    } else {
      OneHop(g, asOf, id, n - 1, y);
      if y in Within(g, asOf, id, n - 1) {
        WithinHasWalk(g, asOf, id, n - 1, y);
      } else {
        var x :| x in Within(g, asOf, id, n - 1) && Adjacent(g, asOf, x, y);
        WithinHasWalk(g, asOf, id, n - 1, x);
        WalkFurther(g, asOf, id, n - 1, x, y);
      }
    }
  }

  lemma WalkFurther(g: Contents, asOf: Option<Time>, id: EntityId, n: nat, x: EntityId, y: EntityId)
    requires Walk(g, asOf, id, n, x) && Adjacent(g, asOf, x, y)
    ensures Walk(g, asOf, id, n + 1, y)
  {
    var path: seq<EntityId> :|
      0 < |path| <= n + 1 && path[0] == id && path[|path| - 1] == x && Path(g, asOf, path);
    var longer := path + [y];
    assert Path(g, asOf, longer) && longer[0] == id && longer[|longer| - 1] == y;
  }

  /** Distance is what walks say it is: `y` is within `n` hops exactly when some walk of at most `n`
      admitted relationships, followed in either direction, leads from `id` to it. */
  lemma WithinMeansWalk(g: Contents, asOf: Option<Time>, id: EntityId, n: nat, y: EntityId)
    ensures y in Within(g, asOf, id, n) <==> Walk(g, asOf, id, n, y)
  {
    if y in Within(g, asOf, id, n) {
      WithinHasWalk(g, asOf, id, n, y);
    }
    if Walk(g, asOf, id, n, y) {
      var path: seq<EntityId> :|
        0 < |path| <= n + 1 && path[0] == id && path[|path| - 1] == y && Path(g, asOf, path);
      WalkStaysWithin(g, asOf, id, path);
      WithinGrows(g, asOf, id, |path| - 1, n);
    }
  }

  lemma {:induction false} WalkStaysWithin(g: Contents, asOf: Option<Time>, id: EntityId, path: seq<EntityId>)
    requires |path| > 0 && path[0] == id && Path(g, asOf, path)
    ensures path[|path| - 1] in Within(g, asOf, id, |path| - 1)
  {
    if |path| > 1 {
      var shorter := path[..|path| - 1];
      assert Path(g, asOf, shorter);
      WalkStaysWithin(g, asOf, id, shorter);
      OneHop(g, asOf, id, |path| - 2, path[|path| - 1]);
      assert Adjacent(g, asOf, path[|path| - 2], path[|path| - 1]);
    }
  }

  // ---------------------------------------------------------------------------
  // What the search keeps
  // ---------------------------------------------------------------------------

  datatype SubGraph = SubGraph(entities: map<EntityId, Entity>, relationships: map<RelationshipId, Relationship>)

  type Queue = seq<(EntityId, nat)>

  predicate Queued(queue: Queue, x: EntityId) {
    exists k | 0 <= k < |queue| :: queue[k].0 == x
  }

  /** Every entity the search reached lies within the number of hops it is marked with. */
  ghost predicate Marked(g: Contents, asOf: Option<Time>, id: EntityId, depth: nat, level: map<EntityId, nat>) {
    && id in level && level[id] == 0
    && (forall x | x in level :: level[x] <= depth)
    && (forall x, n | x in level && n == level[x] :: x in Within(g, asOf, id, n))
  }

  /** The queue holds one or two neighbouring levels, nearer first, and everything else is no farther. */
  predicate Layered(queue: Queue, level: map<EntityId, nat>, depth: nat, base: nat) {
    && (forall k | 0 <= k < |queue| ::
          queue[k].0 in level && level[queue[k].0] + queue[k].1 == depth && base <= level[queue[k].0] <= base + 1)
    && (forall j, k | 0 <= j < k < |queue| :: level[queue[j].0] <= level[queue[k].0])
    && (forall x | x in level && !Queued(queue, x) :: level[x] <= base)
  }

  /** `x` was expanded: its admitted relationships are collected and their other ends reached. */
  predicate Expanded(g: Contents, asOf: Option<Time>, level: map<EntityId, nat>,
                     found: map<RelationshipId, Relationship>, x: EntityId)
    requires x in level
  {
    forall r | r in g.relationships && Edge(g, asOf, r, x) ::
      r in found && g.relationships[r].Other(x) in level && level[g.relationships[r].Other(x)] <= level[x] + 1
  }

  predicate Collected(g: Contents, asOf: Option<Time>, depth: nat, level: map<EntityId, nat>,
                      found: map<RelationshipId, Relationship>)
  {
    forall r | r in found ::
      && r in g.relationships && found[r] == g.relationships[r]
      && exists x | x in level :: level[x] < depth && Edge(g, asOf, r, x)
  }

  /** At the end, the marks are the distances. */
  lemma {:induction false} MarksAreDistances(g: Contents, asOf: Option<Time>, id: EntityId, depth: nat,
                                             level: map<EntityId, nat>, found: map<RelationshipId, Relationship>, n: nat)
    requires n <= depth && Marked(g, asOf, id, depth, level)
    requires forall x | x in level && level[x] < depth :: Expanded(g, asOf, level, found, x)
    ensures forall x :: x in Within(g, asOf, id, n) <==> x in level && level[x] <= n
  {
    forall x | x in level && level[x] <= n ensures x in Within(g, asOf, id, n) {
      assert x in Within(g, asOf, id, level[x]);
      WithinGrows(g, asOf, id, level[x], n);
    }
    if n > 0 {
      MarksAreDistances(g, asOf, id, depth, level, found, n - 1);
      forall y | y in Within(g, asOf, id, n) ensures y in level && level[y] <= n {
        OneHop(g, asOf, id, n - 1, y);
        if y !in Within(g, asOf, id, n - 1) {
          var x :| x in Within(g, asOf, id, n - 1) && Adjacent(g, asOf, x, y);
          assert Expanded(g, asOf, level, found, x);
        }
      }
    }
  }

  predicate NearEnd(g: Contents, asOf: Option<Time>, id: EntityId, depth: nat, r: RelationshipId) {
    depth > 0 && exists x | x in Within(g, asOf, id, depth - 1) :: Edge(g, asOf, r, x)
  }

  /** What `neighbors` promises: the stored entities at distance 1 to `depth`, and the admitted
      relationships with an end at distance less than `depth`. */
  ghost predicate IsNeighborhood(g: Contents, asOf: Option<Time>, id: EntityId, depth: nat, sub: SubGraph) {
    && (forall x :: x in sub.entities <==> x != id && x in g.entities && x in Within(g, asOf, id, depth))
    && (forall x | x in sub.entities :: sub.entities[x] == g.entities[x])
    && (forall r :: r in sub.relationships <==> NearEnd(g, asOf, id, depth, r))
    && (forall r | r in sub.relationships :: sub.relationships[r] == g.relationships[r])
  }

  lemma NeighborhoodIsUnique(g: Contents, asOf: Option<Time>, id: EntityId, depth: nat, one: SubGraph, two: SubGraph)
    requires IsNeighborhood(g, asOf, id, depth, one) && IsNeighborhood(g, asOf, id, depth, two)
    ensures one == two
  {
    assert one.entities.Keys == two.entities.Keys;
    assert one.relationships.Keys == two.relationships.Keys;
    assert one.entities == two.entities && one.relationships == two.relationships;
  }

  lemma FoundIsNear(g: Contents, asOf: Option<Time>, id: EntityId, depth: nat, level: map<EntityId, nat>,
                    found: map<RelationshipId, Relationship>, r: RelationshipId)
    requires Collected(g, asOf, depth, level, found) && r in found
    requires depth > 0 ==> forall x :: x in Within(g, asOf, id, depth - 1) <==> x in level && level[x] <= depth - 1
    ensures NearEnd(g, asOf, id, depth, r)
  {
    var x :| x in level && level[x] < depth && Edge(g, asOf, r, x);
    assert x in Within(g, asOf, id, depth - 1);
  }

  lemma NearIsFound(g: Contents, asOf: Option<Time>, id: EntityId, depth: nat, level: map<EntityId, nat>,
                    found: map<RelationshipId, Relationship>, r: RelationshipId)
    requires depth > 0
    requires forall x | x in level && level[x] < depth :: Expanded(g, asOf, level, found, x)
    requires forall x :: x in Within(g, asOf, id, depth - 1) <==> x in level && level[x] <= depth - 1
    requires r !in found
    ensures !NearEnd(g, asOf, id, depth, r)
  {
    forall x | x in Within(g, asOf, id, depth - 1) ensures !Edge(g, asOf, r, x) {
      assert Expanded(g, asOf, level, found, x);
    }
  }

  // ---------------------------------------------------------------------------
  // The search
  // ---------------------------------------------------------------------------

  function Endpoints(g: Contents, id: EntityId): set<EntityId> {
    {id} + (set r | r in g.relationships :: g.relationships[r].source)
         + (set r | r in g.relationships :: g.relationships[r].target)
  }

  predicate Settled(g: Contents, asOf: Option<Time>, depth: nat, queue: Queue, level: map<EntityId, nat>,
                    found: map<RelationshipId, Relationship>, todo: set<EntityId>)
  {
    forall x | x in level && level[x] < depth && !Queued(queue, x) && x !in todo :: Expanded(g, asOf, level, found, x)
  }

  predicate Entered(g: Contents, id: EntityId, level: map<EntityId, nat>, entities: map<EntityId, Entity>) {
    && entities.Keys == level.Keys * g.entities.Keys - {id}
    && (forall x | x in entities :: entities[x] == g.entities[x])
  }

  /** The loop invariant of the search, with every entity but those in `todo` expanded. */
  ghost predicate SearchState(g: Contents, asOf: Option<Time>, id: EntityId, depth: nat, base: nat, queue: Queue,
                            level: map<EntityId, nat>, entities: map<EntityId, Entity>,
                            found: map<RelationshipId, Relationship>, todo: set<EntityId>)
  {
    && Marked(g, asOf, id, depth, level)
    && Layered(queue, level, depth, base)
    && Collected(g, asOf, depth, level, found)
    && level.Keys <= Endpoints(g, id)
    && Settled(g, asOf, depth, queue, level, found, todo)
    && Entered(g, id, level, entities)
  }

  /** The same, stated so that a proof unfolds it only where it names `SearchState`. */
  ghost predicate Searching(g: Contents, asOf: Option<Time>, id: EntityId, depth: nat, base: nat, queue: Queue,
                            level: map<EntityId, nat>, entities: map<EntityId, Entity>,
                            found: map<RelationshipId, Relationship>, todo: set<EntityId>)
  {
    forall marks | marks == level :: SearchState(g, asOf, id, depth, base, queue, marks, entities, found, todo)
  }

  lemma StartSearch(g: Contents, asOf: Option<Time>, id: EntityId, depth: nat)
    ensures Searching(g, asOf, id, depth, 0, [(id, depth)], map[id := 0], map[], map[], {})
  {
    assert [(id, depth)][0].0 == id;
  }

  lemma PopKeeps(g: Contents, asOf: Option<Time>, id: EntityId, depth: nat, base: nat, queue: Queue,
                 level: map<EntityId, nat>, entities: map<EntityId, Entity>, found: map<RelationshipId, Relationship>)
    requires |queue| > 0 && Searching(g, asOf, id, depth, base, queue, level, entities, found, {})
    ensures var x := queue[0].0;
            && x in level && level[x] + queue[0].1 == depth
            && Searching(g, asOf, id, depth, level[x], queue[1..], level, entities, found, {x})
  {
    assert SearchState(g, asOf, id, depth, base, queue, level, entities, found, {});
    var rest := queue[1..];
    var x := queue[0].0;
    forall y | Queued(queue, y) ensures y == x || Queued(rest, y) {
      var k :| 0 <= k < |queue| && queue[k].0 == y;
      if k > 0 { assert rest[k - 1].0 == y; }
    }
    forall y | Queued(rest, y) ensures Queued(queue, y) {
      var k :| 0 <= k < |rest| && rest[k].0 == y;
      assert queue[k + 1].0 == y;
    }
    forall k | 0 <= k < |rest| ensures level[x] <= level[rest[k].0] {
      assert rest[k] == queue[k + 1];
    }
  }

  lemma PushQueues(queue: Queue, y: EntityId, remaining: nat)
    ensures forall z :: Queued(queue + [(y, remaining)], z) <==> Queued(queue, z) || z == y
  {
    var longer := queue + [(y, remaining)];
    forall z ensures Queued(longer, z) <==> Queued(queue, z) || z == y {
      if Queued(queue, z) {
        var k :| 0 <= k < |queue| && queue[k].0 == z;
        assert longer[k].0 == z;
      }
      if z == y { assert longer[|queue|].0 == z; }
    }
  }

  lemma PushLayers(queue: Queue, level: map<EntityId, nat>, depth: nat, base: nat, y: EntityId)
    requires Layered(queue, level, depth, base) && y !in level && base < depth
    ensures Layered(queue + [(y, depth - base - 1)], level[y := base + 1], depth, base)
  {
    PushQueues(queue, y, depth - base - 1);
  }

  lemma PushMarks(g: Contents, asOf: Option<Time>, id: EntityId, depth: nat, level: map<EntityId, nat>,
                  x: EntityId, r: RelationshipId)
    requires Marked(g, asOf, id, depth, level) && x in level && level[x] < depth && Edge(g, asOf, r, x)
    requires g.relationships[r].Other(x) !in level
    ensures Marked(g, asOf, id, depth, level[g.relationships[r].Other(x) := level[x] + 1])
  {
    assert x in Within(g, asOf, id, level[x]);
    assert Adjacent(g, asOf, x, g.relationships[r].Other(x));
    OneHop(g, asOf, id, level[x], g.relationships[r].Other(x));
  }

  lemma PushCollects(g: Contents, asOf: Option<Time>, depth: nat, level: map<EntityId, nat>,
                     found: map<RelationshipId, Relationship>, y: EntityId, mark: nat)
    requires Collected(g, asOf, depth, level, found) && y !in level
    ensures Collected(g, asOf, depth, level[y := mark], found)
  {
    forall q | q in found ensures exists z | z in level[y := mark] :: level[y := mark][z] < depth && Edge(g, asOf, q, z) {
      var z :| z in level && level[z] < depth && Edge(g, asOf, q, z);
      assert z in level[y := mark] && level[y := mark][z] == level[z];
    }
  }

  lemma PushSettles(g: Contents, asOf: Option<Time>, depth: nat, queue: Queue, level: map<EntityId, nat>,
                    found: map<RelationshipId, Relationship>, todo: set<EntityId>, y: EntityId, mark: nat, remaining: nat)
    requires Settled(g, asOf, depth, queue, level, found, todo) && y !in level
    ensures Settled(g, asOf, depth, queue + [(y, remaining)], level[y := mark], found, todo)
  {
    PushQueues(queue, y, remaining);
    var longer, marked := queue + [(y, remaining)], level[y := mark];
    forall z | z in marked && marked[z] < depth && !Queued(longer, z) && z !in todo
      ensures Expanded(g, asOf, marked, found, z)
    {
      assert Expanded(g, asOf, level, found, z);
    }
  }

  lemma PushEnters(g: Contents, id: EntityId, level: map<EntityId, nat>, entities: map<EntityId, Entity>,
                   y: EntityId, mark: nat)
    requires Entered(g, id, level, entities) && y !in level && id in level
    ensures Entered(g, id, level[y := mark], if y in g.entities then entities[y := g.entities[y]] else entities)
  {
    assert level[y := mark].Keys == level.Keys + {y};
  }

  /** Reaching a new entity over a relationship of `x`, which is on the level in hand. */
  lemma PushKeeps(g: Contents, asOf: Option<Time>, id: EntityId, depth: nat, base: nat, queue: Queue,
                  level: map<EntityId, nat>, entities: map<EntityId, Entity>,
                  found: map<RelationshipId, Relationship>, x: EntityId, r: RelationshipId, y: EntityId)
    requires Searching(g, asOf, id, depth, base, queue, level, entities, found, {x})
    requires x in level && level[x] == base < depth && Edge(g, asOf, r, x)
    requires y == g.relationships[r].Other(x) && y !in level
    ensures var entered := if y in g.entities then entities[y := g.entities[y]] else entities;
            Searching(g, asOf, id, depth, base, queue + [(y, depth - base - 1)], level[y := base + 1], entered, found, {x})
  {
    PushKeepsOrder(g, asOf, id, depth, base, queue, level, entities, found, x, r, y);
    PushKeepsFinds(g, asOf, id, depth, base, queue, level, entities, found, x, y);
    var entered := if y in g.entities then entities[y := g.entities[y]] else entities;
    Assemble(g, asOf, id, depth, base, queue + [(y, depth - base - 1)], level[y := base + 1], entered, found, {x});
  }

  lemma PushKeepsOrder(g: Contents, asOf: Option<Time>, id: EntityId, depth: nat, base: nat, queue: Queue,
                       level: map<EntityId, nat>, entities: map<EntityId, Entity>,
                       found: map<RelationshipId, Relationship>, x: EntityId, r: RelationshipId, y: EntityId)
    requires Searching(g, asOf, id, depth, base, queue, level, entities, found, {x})
    requires x in level && level[x] == base < depth && Edge(g, asOf, r, x)
    requires y == g.relationships[r].Other(x) && y !in level
    ensures Marked(g, asOf, id, depth, level[y := base + 1])
    ensures Layered(queue + [(y, depth - base - 1)], level[y := base + 1], depth, base)
    ensures level[y := base + 1].Keys <= Endpoints(g, id)
  {
    assert SearchState(g, asOf, id, depth, base, queue, level, entities, found, {x});
    PushLayers(queue, level, depth, base, y);
    PushMarks(g, asOf, id, depth, level, x, r);
    assert level[y := base + 1].Keys == level.Keys + {y} && y in Endpoints(g, id);
  }

  lemma PushKeepsFinds(g: Contents, asOf: Option<Time>, id: EntityId, depth: nat, base: nat, queue: Queue,
                       level: map<EntityId, nat>, entities: map<EntityId, Entity>,
                       found: map<RelationshipId, Relationship>, x: EntityId, y: EntityId)
    requires Searching(g, asOf, id, depth, base, queue, level, entities, found, {x})
    requires y !in level && base < depth
    ensures Collected(g, asOf, depth, level[y := base + 1], found)
    ensures Settled(g, asOf, depth, queue + [(y, depth - base - 1)], level[y := base + 1], found, {x})
    ensures Entered(g, id, level[y := base + 1], if y in g.entities then entities[y := g.entities[y]] else entities)
  {
    assert SearchState(g, asOf, id, depth, base, queue, level, entities, found, {x});
    PushCollects(g, asOf, depth, level, found, y, base + 1);
    PushSettles(g, asOf, depth, queue, level, found, {x}, y, base + 1, depth - base - 1);
    PushEnters(g, id, level, entities, y, base + 1);
  }

  lemma Assemble(g: Contents, asOf: Option<Time>, id: EntityId, depth: nat, base: nat, queue: Queue,
                 level: map<EntityId, nat>, entities: map<EntityId, Entity>,
                 found: map<RelationshipId, Relationship>, todo: set<EntityId>)
    requires Marked(g, asOf, id, depth, level) && Layered(queue, level, depth, base)
    requires Collected(g, asOf, depth, level, found) && level.Keys <= Endpoints(g, id)
    requires Settled(g, asOf, depth, queue, level, found, todo) && Entered(g, id, level, entities)
    ensures Searching(g, asOf, id, depth, base, queue, level, entities, found, todo)
  {
  }

  lemma SearchIsDone(g: Contents, asOf: Option<Time>, id: EntityId, depth: nat, base: nat, level: map<EntityId, nat>,
                     entities: map<EntityId, Entity>, found: map<RelationshipId, Relationship>)
    requires Searching(g, asOf, id, depth, base, [], level, entities, found, {})
    ensures IsNeighborhood(g, asOf, id, depth, SubGraph(entities, found))
  {
    EntitiesAreNear(g, asOf, id, depth, base, level, entities, found);
    CollectedAreNear(g, asOf, id, depth, base, level, entities, found);
  }

  lemma EntitiesAreNear(g: Contents, asOf: Option<Time>, id: EntityId, depth: nat, base: nat,
                        level: map<EntityId, nat>, entities: map<EntityId, Entity>,
                        found: map<RelationshipId, Relationship>)
    requires Searching(g, asOf, id, depth, base, [], level, entities, found, {})
    ensures forall x :: x in entities <==> x != id && x in g.entities && x in Within(g, asOf, id, depth)
    ensures forall x | x in entities :: entities[x] == g.entities[x]
  {
    assert SearchState(g, asOf, id, depth, base, [], level, entities, found, {});
    MarksAreDistances(g, asOf, id, depth, level, found, depth);
  }

  lemma CollectedAreNear(g: Contents, asOf: Option<Time>, id: EntityId, depth: nat, base: nat,
                         level: map<EntityId, nat>, entities: map<EntityId, Entity>,
                         found: map<RelationshipId, Relationship>)
    requires Searching(g, asOf, id, depth, base, [], level, entities, found, {})
    ensures forall r :: r in found <==> NearEnd(g, asOf, id, depth, r)
    ensures forall r | r in found :: r in g.relationships && found[r] == g.relationships[r]
  {
    assert SearchState(g, asOf, id, depth, base, [], level, entities, found, {});
    if depth > 0 {
      MarksAreDistances(g, asOf, id, depth, level, found, depth - 1);
    }
    forall r ensures r in found <==> NearEnd(g, asOf, id, depth, r) {
      CollectedIff(g, asOf, id, depth, level, found, r);
    }
  }

  lemma CollectedIff(g: Contents, asOf: Option<Time>, id: EntityId, depth: nat, level: map<EntityId, nat>,
                     found: map<RelationshipId, Relationship>, r: RelationshipId)
    requires Collected(g, asOf, depth, level, found)
    requires forall x | x in level && level[x] < depth :: Expanded(g, asOf, level, found, x)
    requires depth > 0 ==> forall x :: x in Within(g, asOf, id, depth - 1) <==> x in level && level[x] <= depth - 1
    ensures r in found <==> NearEnd(g, asOf, id, depth, r)
  {
    if r in found {
      FoundIsNear(g, asOf, id, depth, level, found, r);
    } else if depth > 0 {
      NearIsFound(g, asOf, id, depth, level, found, r);
    }
  }

  lemma Shrinks(less: set<EntityId>, more: set<EntityId>)
    requires less <= more
    ensures |less| <= |more| && (|less| == |more| ==> less == more)
  {
    var rest := more - less;
    assert more == less + rest;
  }

  /** The rows of `x` that are no longer in `rows` are collected, and their other ends reached. */
  predicate RowsDone(g: Contents, asOf: Option<Time>, x: EntityId, rows: set<RelationshipId>,
                     level: map<EntityId, nat>, found: map<RelationshipId, Relationship>)
    requires x in level
  {
    forall r | r in g.relationships && Edge(g, asOf, r, x) && r !in rows ::
      r in found && g.relationships[r].Other(x) in level && level[g.relationships[r].Other(x)] <= level[x] + 1
  }

  lemma RowIsDone(g: Contents, asOf: Option<Time>, x: EntityId, rows: set<RelationshipId>, r: RelationshipId,
                  level: map<EntityId, nat>, marked: map<EntityId, nat>,
                  found: map<RelationshipId, Relationship>, more: map<RelationshipId, Relationship>)
    requires x in level && r in rows && Edge(g, asOf, r, x)
    requires forall y | y in level :: y in marked && marked[y] == level[y]
    requires found.Keys <= more.Keys && r in more
    requires var y := g.relationships[r].Other(x); y in marked && marked[y] <= level[x] + 1
    requires RowsDone(g, asOf, x, rows, level, found)
    ensures RowsDone(g, asOf, x, rows - {r}, marked, more)
  {
  }

  lemma AtTheRim(g: Contents, asOf: Option<Time>, id: EntityId, depth: nat, base: nat, queue: Queue,
                 level: map<EntityId, nat>, entities: map<EntityId, Entity>,
                 found: map<RelationshipId, Relationship>, x: EntityId)
    requires Searching(g, asOf, id, depth, base, queue, level, entities, found, {x})
    requires x in level && level[x] >= depth
    ensures Searching(g, asOf, id, depth, base, queue, level, entities, found, {})
  {
    assert SearchState(g, asOf, id, depth, base, queue, level, entities, found, {x});
    assert SearchState(g, asOf, id, depth, base, queue, level, entities, found, {});
  }

  /** An entity already reached is at most one level farther than the one in hand. */
  lemma ReachedIsNear(g: Contents, asOf: Option<Time>, id: EntityId, depth: nat, base: nat, queue: Queue,
                      level: map<EntityId, nat>, entities: map<EntityId, Entity>,
                      found: map<RelationshipId, Relationship>, x: EntityId, y: EntityId)
    requires Searching(g, asOf, id, depth, base, queue, level, entities, found, {x}) && y in level
    ensures level[y] <= base + 1
  {
    assert SearchState(g, asOf, id, depth, base, queue, level, entities, found, {x});
    if Queued(queue, y) {
      var k :| 0 <= k < |queue| && queue[k].0 == y;
    }
  }

  lemma LastRow(g: Contents, asOf: Option<Time>, id: EntityId, depth: nat, base: nat, queue: Queue,
                level: map<EntityId, nat>, entities: map<EntityId, Entity>,
                found: map<RelationshipId, Relationship>, x: EntityId)
    requires Searching(g, asOf, id, depth, base, queue, level, entities, found, {x})
    requires x in level && RowsDone(g, asOf, x, {}, level, found)
    ensures Searching(g, asOf, id, depth, base, queue, level, entities, found, {})
  {
    assert SearchState(g, asOf, id, depth, base, queue, level, entities, found, {x});
    assert Expanded(g, asOf, level, found, x);
  }

  /** Collecting one relationship of `x`. */
  lemma CollectKeeps(g: Contents, asOf: Option<Time>, id: EntityId, depth: nat, base: nat, queue: Queue,
                     level: map<EntityId, nat>, entities: map<EntityId, Entity>,
                     found: map<RelationshipId, Relationship>, x: EntityId, r: RelationshipId)
    requires Searching(g, asOf, id, depth, base, queue, level, entities, found, {x})
    requires x in level && level[x] < depth && Edge(g, asOf, r, x)
    ensures Searching(g, asOf, id, depth, base, queue, level, entities, found[r := g.relationships[r]], {x})
  {
    assert SearchState(g, asOf, id, depth, base, queue, level, entities, found, {x});
    var more := found[r := g.relationships[r]];
    forall z | z in level && level[z] < depth && !Queued(queue, z) && z !in {x}
      ensures Expanded(g, asOf, level, more, z)
    {
      assert Expanded(g, asOf, level, found, z);
    }
  }

  /** The search's own variables: entities seen, what was collected, and the queue of entities to expand
      with the depth each has left. */
  datatype Search = Search(visited: set<EntityId>, entities: map<EntityId, Entity>,
                           found: map<RelationshipId, Relationship>, queue: Queue)

  class GraphStore {
    var entities: map<EntityId, Entity>
    var relationships: map<RelationshipId, Relationship>

    function State(): Contents
      reads this
    {
      Contents(entities, relationships)
    }

    constructor ()
      ensures State() == Contents(map[], map[])
    {
      entities, relationships := map[], map[];
    }

    /** On a known id only the details are replaced. */
    method UpsertEntity(id: EntityId, entity: Entity)
      modifies this
      ensures State() == EntityUpserted(old(State()), id, entity)
      ensures id in entities && entities[id].details == entity.details
      ensures entities[id].origin == if id in old(entities) then old(entities)[id].origin else entity.origin
      ensures forall other | other != id :: other in entities <==> other in old(entities)
      ensures forall other | other != id && other in old(entities) :: entities[other] == old(entities)[other]
      ensures relationships == old(relationships)
    {
      if id in entities {
        entities := entities[id := entities[id].(details := entity.details)];
      } else {
        entities := entities[id := entity];
      }
    }

    /** On a known id only the label and the end are replaced: the row keeps its two ends and its start. */
    method UpsertRelationship(id: RelationshipId, rel: Relationship)
      modifies this
      ensures State() == Upserted(old(State()), id, rel)
      ensures id in relationships
      ensures id !in old(relationships) ==> relationships[id] == rel
      ensures relationships[id].relation == rel.relation && relationships[id].invalidAt == rel.invalidAt
      ensures forall other | other != id :: other in relationships <==> other in old(relationships)
      ensures forall other | other != id && other in old(relationships) :: relationships[other] == old(relationships)[other]
      ensures entities == old(entities)
      ensures forall other | other in old(relationships) ::
                && other in relationships
                && relationships[other].source == old(relationships)[other].source
                && relationships[other].target == old(relationships)[other].target
                && relationships[other].validFrom == old(relationships)[other].validFrom
    {
      if id in relationships {
        relationships := relationships[id := relationships[id].(relation := rel.relation, invalidAt := rel.invalidAt)];
      } else {
        relationships := relationships[id := rel];
      }
    }

    /** An unknown id is no row to update. */
    method InvalidateRelationship(id: RelationshipId, at: Time)
      modifies this
      ensures State() == Invalidated(old(State()), id, at)
    {
      if id in relationships {
        relationships := relationships[id := relationships[id].(invalidAt := Some(at))];
      }
    }

    method GetEntity(id: EntityId) returns (entity: Option<Entity>)
      ensures entity == if id in entities then Some(entities[id]) else None
    {
      entity := if id in entities then Some(entities[id]) else None;
    }

    /** The rows of one expansion, in whatever order the database returns them. */
    method Incident(x: EntityId, asOf: Option<Time>) returns (rows: set<RelationshipId>)
      ensures forall r :: r in rows <==> Edge(State(), asOf, r, x)
    {
      rows := set r | r in relationships && (relationships[r].source == x || relationships[r].target == x)
                      && relationships[r].Admitted(asOf);
    }

    /** Breadth first, to the depth the caller allows. */
    method Neighbors(id: EntityId, depth: nat, asOf: Option<Time>) returns (sub: SubGraph)
      ensures IsNeighborhood(State(), asOf, id, depth, sub)
    {
      ghost var g := State();
      var search := Search({id}, map[], map[], [(id, depth)]);
      ghost var level: map<EntityId, nat>, base: nat := map[id := 0], 0;
      StartSearch(g, asOf, id, depth);
      while |search.queue| > 0
        invariant search.visited == level.Keys
        invariant Searching(g, asOf, id, depth, base, search.queue, level, search.entities, search.found, {})
        decreases |Endpoints(g, id) - search.visited|, |search.queue|
      {
        ghost var unseen := Endpoints(g, id) - search.visited;
        PopKeeps(g, asOf, id, depth, base, search.queue, level, search.entities, search.found);
        var (current, remaining) := search.queue[0];
        search := search.(queue := search.queue[1..]);
        base := level[current];
        if remaining == 0 {
          AtTheRim(g, asOf, id, depth, base, search.queue, level, search.entities, search.found, current);
        } else {
          search, level := Expand(current, remaining, asOf, search, id, depth, level);
          Shrinks(Endpoints(g, id) - search.visited, unseen);
        }
      }
      SearchIsDone(g, asOf, id, depth, base, level, search.entities, search.found);
      return SubGraph(search.entities, search.found);
    }

    /** One entity's rows: collect each relationship, and queue each end not seen before. */
    method Expand(current: EntityId, remaining: nat, asOf: Option<Time>, from: Search, ghost id: EntityId,
                  ghost depth: nat, ghost marks: map<EntityId, nat>)
      returns (search: Search, ghost level: map<EntityId, nat>)
      requires remaining > 0 && current in marks && marks[current] + remaining == depth
      requires from.visited == marks.Keys
      requires Searching(State(), asOf, id, depth, marks[current], from.queue, marks, from.entities, from.found, {current})
      ensures search.visited == level.Keys && from.visited <= search.visited
      ensures Searching(State(), asOf, id, depth, marks[current], search.queue, level, search.entities, search.found, {})
      ensures |from.queue| <= |search.queue|
      ensures search.visited == from.visited ==> |search.queue| == |from.queue|
      ensures search.visited - from.visited <= Endpoints(State(), id)
    {
      ghost var g, base := State(), marks[current];
      search, level := from, marks;
      var rows := Incident(current, asOf);
      while rows != {}
        invariant search.visited == level.Keys && current in level && level[current] == base
        invariant from.visited <= search.visited && search.visited - from.visited <= Endpoints(g, id)
        invariant |from.queue| <= |search.queue|
        invariant search.visited == from.visited ==> |search.queue| == |from.queue|
        invariant forall r | r in rows :: Edge(g, asOf, r, current)
        invariant Searching(g, asOf, id, depth, base, search.queue, level, search.entities, search.found, {current})
        invariant RowsDone(g, asOf, current, rows, level, search.found)
        decreases |rows|
      {
        var r :| r in rows;
        ghost var before, marked := search, level;
        search, level := VisitRow(r, current, remaining, asOf, search, id, depth, level);
        RowIsDone(g, asOf, current, rows, r, marked, level, before.found, search.found);
        rows := rows - {r};
      }
      LastRow(g, asOf, id, depth, base, search.queue, level, search.entities, search.found, current);
    }

    method VisitRow(r: RelationshipId, current: EntityId, remaining: nat, asOf: Option<Time>, from: Search,
                    ghost id: EntityId, ghost depth: nat, ghost marks: map<EntityId, nat>)
      returns (search: Search, ghost level: map<EntityId, nat>)
      requires Edge(State(), asOf, r, current)
      requires remaining > 0 && current in marks && marks[current] + remaining == depth
      requires from.visited == marks.Keys
      requires Searching(State(), asOf, id, depth, marks[current], from.queue, marks, from.entities, from.found, {current})
      ensures search.visited == level.Keys && from.visited <= search.visited
      ensures forall x | x in marks :: x in level && level[x] == marks[x]
      ensures Searching(State(), asOf, id, depth, marks[current], search.queue, level, search.entities, search.found, {current})
      ensures |from.queue| <= |search.queue|
      ensures search.visited == from.visited ==> |search.queue| == |from.queue|
      ensures search.visited - from.visited <= Endpoints(State(), id)
      ensures from.found.Keys <= search.found.Keys && r in search.found
      ensures var y := relationships[r].Other(current); y in level && level[y] <= marks[current] + 1
    {
      ghost var g, base := State(), marks[current];
      search, level := from, marks;
      var rel := relationships[r];
      var neighbor := if rel.source == current then rel.target else rel.source;
      CollectKeeps(g, asOf, id, depth, base, search.queue, level, search.entities, search.found, current, r);
      search := search.(found := if r in search.found then search.found else search.found[r := rel]);
      if neighbor in search.visited {
        ReachedIsNear(g, asOf, id, depth, base, search.queue, level, search.entities, search.found, current, neighbor);
      } else {
        PushKeeps(g, asOf, id, depth, base, search.queue, level, search.entities, search.found, current, r, neighbor);
        var entity := GetEntity(neighbor);
        search := Search(search.visited + {neighbor},
                         if entity.Some? then search.entities[neighbor := entity.value] else search.entities,
                         search.found, search.queue + [(neighbor, remaining - 1)]);
        level := level[neighbor := base + 1];
      }
    }
  }

  // ---------------------------------------------------------------------------
  // History
  // ---------------------------------------------------------------------------

  function EntityUpserted(g: Contents, id: EntityId, entity: Entity): Contents {
    var row := if id in g.entities then g.entities[id].(details := entity.details) else entity;
    g.(entities := g.entities[id := row])
  }

  function Upserted(g: Contents, id: RelationshipId, rel: Relationship): Contents {
    var row := if id in g.relationships
               then g.relationships[id].(relation := rel.relation, invalidAt := rel.invalidAt) else rel;
    g.(relationships := g.relationships[id := row])
  }

  function Invalidated(g: Contents, id: RelationshipId, at: Time): Contents {
    if id in g.relationships
    then g.(relationships := g.relationships[id := g.relationships[id].(invalidAt := Some(at))])
    else g
  }

  /** The moments before `at` see a relationship as they did: it was open, or had not ended before `at`, or
      never held before `at`. */
  predicate PastIsKept(rel: Relationship, at: Time) {
    rel.invalidAt.None? || rel.invalidAt.value >= at || rel.validFrom >= at
  }

  lemma RowKeepsItsPastIff(rel: Relationship, at: Time)
    ensures (forall t | t < at :: rel.(invalidAt := Some(at)).IsValidAt(t) == rel.IsValidAt(t)) <==> PastIsKept(rel, at)
  {
    if !PastIsKept(rel, at) {
      var t := LostMoment(rel, at);
    }
  }

  /** A moment at which an ended relationship comes back when its end is moved on to `at`. */
  lemma LostMoment(rel: Relationship, at: Time) returns (t: Time)
    requires !PastIsKept(rel, at)
    ensures t < at && !rel.IsValidAt(t) && rel.(invalidAt := Some(at)).IsValidAt(t)
  {
    t := if rel.validFrom > rel.invalidAt.value then rel.validFrom else rel.invalidAt.value;
  }

  /** Two graphs a search cannot tell apart: the same entities, and row by row the same ends and the same
      admission. */
  predicate SameSight(g: Contents, h: Contents, asOf: Option<Time>) {
    && g.entities == h.entities
    && g.relationships.Keys == h.relationships.Keys
    && forall r | r in g.relationships ::
         && g.relationships[r].Admitted(asOf) == h.relationships[r].Admitted(asOf)
         && g.relationships[r].source == h.relationships[r].source
         && g.relationships[r].target == h.relationships[r].target
  }

  /** A search over other rows misses no row it can see. */
  predicate SeesAll(rows: map<RelationshipId, Relationship>, others: map<RelationshipId, Relationship>,
                    asOf: Option<Time>)
  {
    forall r | r in rows && rows[r].Admitted(asOf) ::
      r in others && others[r].Admitted(asOf) && others[r].source == rows[r].source && others[r].target == rows[r].target
  }

  lemma HopStays(rows: map<RelationshipId, Relationship>, others: map<RelationshipId, Relationship>, asOf: Option<Time>,
                 near: set<EntityId>)
    requires SeesAll(rows, others, asOf)
    ensures Hop(rows, asOf, near) <= Hop(others, asOf, near)
  {
    forall y | y in Hop(rows, asOf, near) && y !in near ensures y in Hop(others, asOf, near) {
      if r :| r in rows && rows[r].Admitted(asOf) && rows[r].source in near && rows[r].target == y {
        assert others[r].source in near && others[r].target == y;
      } else {
        var r :| r in rows && rows[r].Admitted(asOf) && rows[r].target in near && rows[r].source == y;
        assert others[r].target in near && others[r].source == y;
      }
    }
  }

  lemma HopGrows(rows: map<RelationshipId, Relationship>, asOf: Option<Time>, near: set<EntityId>, more: set<EntityId>)
    requires near <= more
    ensures Hop(rows, asOf, near) <= Hop(rows, asOf, more)
  {
  }

  lemma {:induction false} SeeingAllReachesAll(g: Contents, h: Contents, asOf: Option<Time>, id: EntityId, n: nat)
    requires SeesAll(g.relationships, h.relationships, asOf)
    ensures Within(g, asOf, id, n) <= Within(h, asOf, id, n)
    decreases n
  {
    if n > 0 {
      SeeingAllReachesAll(g, h, asOf, id, n - 1);
      var near := Within(g, asOf, id, n - 1);
      HopStays(g.relationships, h.relationships, asOf, near);
      HopGrows(h.relationships, asOf, near, Within(h, asOf, id, n - 1));
    }
  }

  lemma SameRowsSameDistance(g: Contents, h: Contents, asOf: Option<Time>, id: EntityId, n: nat)
    requires SeesAll(g.relationships, h.relationships, asOf) && SeesAll(h.relationships, g.relationships, asOf)
    ensures Within(g, asOf, id, n) == Within(h, asOf, id, n)
  {
    SeeingAllReachesAll(g, h, asOf, id, n);
    SeeingAllReachesAll(h, g, asOf, id, n);
  }

  lemma SameSightSameDistance(g: Contents, h: Contents, asOf: Option<Time>, id: EntityId, n: nat)
    requires SameSight(g, h, asOf)
    ensures Within(g, asOf, id, n) == Within(h, asOf, id, n)
  {
    SameRowsSameDistance(g, h, asOf, id, n);
  }

  lemma SameSightSameEnds(g: Contents, h: Contents, asOf: Option<Time>, id: EntityId, depth: nat, r: RelationshipId)
    requires SameSight(g, h, asOf) && (depth > 0 ==> Within(g, asOf, id, depth - 1) == Within(h, asOf, id, depth - 1))
    ensures NearEnd(g, asOf, id, depth, r) <==> NearEnd(h, asOf, id, depth, r)
  {
    forall x ensures Edge(g, asOf, r, x) <==> Edge(h, asOf, r, x) {}
  }

  lemma SameSightSameAnswer(g: Contents, h: Contents, asOf: Option<Time>, id: EntityId, depth: nat,
                            before: SubGraph, after: SubGraph)
    requires SameSight(g, h, asOf)
    requires IsNeighborhood(g, asOf, id, depth, before) && IsNeighborhood(h, asOf, id, depth, after)
    ensures after.entities == before.entities
    ensures after.relationships.Keys == before.relationships.Keys
  {
    SameSightSameDistance(g, h, asOf, id, depth);
    forall x ensures x in before.entities <==> x in after.entities {}
    if depth > 0 {
      SameSightSameDistance(g, h, asOf, id, depth - 1);
    }
    forall r ensures r in before.relationships <==> r in after.relationships {
      SameSightSameEnds(g, h, asOf, id, depth, r);
    }
  }

  /** The stored ones of those within reach, without the one the search starts from. */
  function Shown(stored: map<EntityId, Entity>, reach: set<EntityId>, id: EntityId): map<EntityId, Entity> {
    map x | x in reach && x != id && x in stored :: stored[x]
  }

  /** The answer, as a function of what is stored. */
  function Neighborhood(g: Contents, asOf: Option<Time>, id: EntityId, depth: nat): SubGraph {
    SubGraph(Shown(g.entities, Within(g, asOf, id, depth), id),
             map r | r in g.relationships && NearEnd(g, asOf, id, depth, r) :: g.relationships[r])
  }

  lemma NeighborhoodIsTheAnswer(g: Contents, asOf: Option<Time>, id: EntityId, depth: nat, sub: SubGraph)
    ensures IsNeighborhood(g, asOf, id, depth, sub) <==> sub == Neighborhood(g, asOf, id, depth)
  {
    var answer := Neighborhood(g, asOf, id, depth);
    assert IsNeighborhood(g, asOf, id, depth, answer);
    if IsNeighborhood(g, asOf, id, depth, sub) {
      NeighborhoodIsUnique(g, asOf, id, depth, sub, answer);
    }
  }

  /** One answer is the other, but for the end the ended relationship now shows. */
  predicate SameButForTheEnd(before: SubGraph, after: SubGraph, rel: RelationshipId, at: Time) {
    && after.entities == before.entities
    && after.relationships.Keys == before.relationships.Keys
    && forall r | r in before.relationships ::
         after.relationships[r] == if r == rel then before.relationships[r].(invalidAt := Some(at))
                                   else before.relationships[r]
  }

  /** The search about an earlier moment answers as it did. */
  predicate AnswerIsKept(g: Contents, rel: RelationshipId, at: Time, id: EntityId, depth: nat, t: Time) {
    SameButForTheEnd(Neighborhood(g, Some(t), id, depth), Neighborhood(Invalidated(g, rel, at), Some(t), id, depth), rel, at)
  }

  lemma AnswerKept(g: Contents, rel: RelationshipId, at: Time, id: EntityId, depth: nat, t: Time)
    requires rel in g.relationships && PastIsKept(g.relationships[rel], at) && t < at
    ensures AnswerIsKept(g, rel, at, id, depth, t)
  {
    var h := Invalidated(g, rel, at);
    var before, after := Neighborhood(g, Some(t), id, depth), Neighborhood(h, Some(t), id, depth);
    RowKeepsItsPastIff(g.relationships[rel], at);
    assert g.relationships[rel].(invalidAt := Some(at)).IsValidAt(t) == g.relationships[rel].IsValidAt(t);
    assert SameSight(g, h, Some(t));
    NeighborhoodIsTheAnswer(g, Some(t), id, depth, before);
    NeighborhoodIsTheAnswer(h, Some(t), id, depth, after);
    SameSightSameAnswer(g, h, Some(t), id, depth, before, after);
  }

  lemma AnswerLost(g: Contents, rel: RelationshipId, at: Time)
    requires rel in g.relationships && !PastIsKept(g.relationships[rel], at)
    ensures exists id, t | t < at :: !AnswerIsKept(g, rel, at, id, 1, t)
  {
    var h := Invalidated(g, rel, at);
    var x := g.relationships[rel].source;
    var t := LostMoment(g.relationships[rel], at);
    ClauseIsValidity(g.relationships[rel], t);
    ClauseIsValidity(h.relationships[rel], t);
    assert forall y :: !Edge(g, Some(t), rel, y);
    assert Edge(h, Some(t), rel, x) && x in Within(h, Some(t), x, 1 - 1);
    assert rel in Neighborhood(h, Some(t), x, 1).relationships && rel !in Neighborhood(g, Some(t), x, 1).relationships;
    assert !AnswerIsKept(g, rel, at, x, 1, t);
  }

  /** History is preserved by ending a relationship as of `at`, whatever entity, depth and earlier moment are
      asked about, exactly when it was open, or had not ended before `at`, or never held before `at`. Only
      the first is what the method is meant for: ending an ended relationship later brings it back, with
      everything behind it, for the moments in between. */
  lemma InvalidationKeepsThePastIff(g: Contents, rel: RelationshipId, at: Time)
    requires rel in g.relationships
    ensures (forall id, depth: nat, t | t < at :: AnswerIsKept(g, rel, at, id, depth, t))
        <==> PastIsKept(g.relationships[rel], at)
  {
    if PastIsKept(g.relationships[rel], at) {
      forall id, depth: nat, t | t < at ensures AnswerIsKept(g, rel, at, id, depth, t) {
        AnswerKept(g, rel, at, id, depth, t);
      }
    } else {
      AnswerLost(g, rel, at);
    }
  }

  /** From `at` on, the ended relationship is in no answer. */
  lemma EndedIsGone(g: Contents, rel: RelationshipId, at: Time, id: EntityId, depth: nat, t: Time, sub: SubGraph)
    requires rel in g.relationships && at <= t
    requires IsNeighborhood(Invalidated(g, rel, at), Some(t), id, depth, sub)
    ensures rel !in sub.relationships
  {
    var h := Invalidated(g, rel, at);
    assert forall x :: !Edge(h, Some(t), rel, x);
  }

  lemma SameRowsSameEnds(g: Contents, h: Contents, asOf: Option<Time>, id: EntityId, depth: nat, r: RelationshipId)
    requires h.relationships == g.relationships
    ensures NearEnd(h, asOf, id, depth, r) <==> NearEnd(g, asOf, id, depth, r)
  {
    if depth > 0 {
      SameRowsSameDistance(g, h, asOf, id, depth - 1);
      forall y ensures Edge(h, asOf, r, y) <==> Edge(g, asOf, r, y) {}
    }
  }

  lemma EntityWriteKeepsTheReach(g: Contents, h: Contents, asOf: Option<Time>, id: EntityId, depth: nat)
    requires h.relationships == g.relationships
    ensures Neighborhood(h, asOf, id, depth).relationships == Neighborhood(g, asOf, id, depth).relationships
  {
    forall r ensures NearEnd(h, asOf, id, depth, r) <==> NearEnd(g, asOf, id, depth, r) {
      SameRowsSameEnds(g, h, asOf, id, depth, r);
    }
  }

  lemma ShownAfterAWrite(stored: map<EntityId, Entity>, reach: set<EntityId>, id: EntityId, x: EntityId, row: Entity)
    ensures Shown(stored[x := row], reach, id)
         == if x != id && x in reach then Shown(stored, reach, id)[x := row] else Shown(stored, reach, id)
  {
  }

  /** Writing an entity changes every search in one place only: where the entity is within reach of where the
      search starts, it is shown as written, with the origin it had if it was known. Who is reached, and over
      which relationships, does not change, not even when the entity is new. */
  lemma EntityWriteShowsOnlyItself(g: Contents, x: EntityId, entity: Entity, asOf: Option<Time>, id: EntityId, depth: nat)
    ensures var h := EntityUpserted(g, x, entity);
            var before, after := Neighborhood(g, asOf, id, depth), Neighborhood(h, asOf, id, depth);
            && after.relationships == before.relationships
            && after.entities == (if x != id && x in Within(g, asOf, id, depth)
                                  then before.entities[x := h.entities[x]] else before.entities)
            && (x in g.entities ==> h.entities[x].origin == g.entities[x].origin)
  {
    var h := EntityUpserted(g, x, entity);
    var reach := Within(g, asOf, id, depth);
    SameRowsSameDistance(g, h, asOf, id, depth);
    EntityWriteKeepsTheReach(g, h, asOf, id, depth);
    ShownAfterAWrite(g.entities, reach, id, x, h.entities[x]);
  }
}
