/** resolve_lineage_result: a hop-bounded breadth-first walk up the depends_on graph,
    which may have cycles, shared ancestors and references to missing rows. */
module Lineage {
  import opened Common

  type TaskId = string
  type ResultRef = nat

  /** A task row; an absent depends_on is the empty list. */
  datatype Row = Row(result: Option<ResultRef>, dependsOn: seq<TaskId>)

  type Db = map<TaskId, Row>

  // -- What the answer means ---------------------------------------------------------

  /** p leads from src along depends_on edges of rows that exist. */
  predicate IsPath(db: Db, src: TaskId, p: seq<TaskId>) {
    && p != [] && p[0] == src
    && forall k | 0 <= k < |p| - 1 :: p[k] in db && p[k + 1] in db[p[k]].dependsOn
  }

  /** An ancestor that could be returned: another task, with a row and a result. */
  predicate Bears(db: Db, src: TaskId, t: TaskId) {
    t != src && t in db && db[t].result.Some?
  }

  /** t can be reached from src in exactly k hops. */
  ghost predicate ReachedIn(db: Db, src: TaskId, t: TaskId, k: nat) {
    exists p :: IsPath(db, src, p) && |p| == k + 1 && p[k] == t
  }

  // -- The levels of the walk ---------------------------------------------------------

  function Next(db: Db, from: set<TaskId>): set<TaskId> {
    set t, u | t in from && t in db && u in db[t].dependsOn :: u
  }

  /** The tasks within k hops. */
  function Within(db: Db, src: TaskId, k: nat): set<TaskId> {
    if k == 0 then {src} else Within(db, src, k - 1) + Next(db, Within(db, src, k - 1))
  }

  /** The tasks at distance exactly k. */
  function Level(db: Db, src: TaskId, k: nat): set<TaskId> {
    if k == 0 then {src} else Within(db, src, k) - Within(db, src, k - 1)
  }

  lemma {:induction false} WithinGrows(db: Db, src: TaskId, j: nat, k: nat)
    requires j <= k
    ensures Within(db, src, j) <= Within(db, src, k)
    decreases k
  {
    if j < k { WithinGrows(db, src, j, k - 1); }
  }

  /** Only the newest level has successors that are not known yet. */
  lemma NextLevel(db: Db, src: TaskId, k: nat)
    ensures Level(db, src, k + 1) == Next(db, Level(db, src, k)) - Within(db, src, k)
  {
    if k > 0 {
      var known := Within(db, src, k - 1);
      assert Within(db, src, k) == known + Next(db, known);
      forall u | u in Next(db, Within(db, src, k)) && u !in Within(db, src, k)
        ensures u in Next(db, Level(db, src, k))
      {
        var t :| t in Within(db, src, k) && t in db && u in db[t].dependsOn;
        assert t in known ==> u in Next(db, known);
        assert t in Level(db, src, k);
      }
      forall u | u in Next(db, Level(db, src, k)) ensures u in Next(db, Within(db, src, k)) {
        var t :| t in Level(db, src, k) && t in db && u in db[t].dependsOn;
      }
    }
  }

  lemma {:induction false} WithinIsPath(db: Db, src: TaskId, k: nat, t: TaskId) returns (p: seq<TaskId>)
    requires t in Within(db, src, k)
    ensures IsPath(db, src, p) && p[|p| - 1] == t && |p| <= k + 1
    decreases k
  {
    if k == 0 {
      p := [src];
    } else if t in Within(db, src, k - 1) {
      p := WithinIsPath(db, src, k - 1, t);
    } else {
      var u :| u in Within(db, src, k - 1) && u in db && t in db[u].dependsOn;
      var q := WithinIsPath(db, src, k - 1, u);
      p := q + [t];
    }
  }

  lemma HopsTo(db: Db, src: TaskId, k: nat, t: TaskId) returns (j: nat)
    requires t in Within(db, src, k)
    ensures j <= k && ReachedIn(db, src, t, j)
  {
    var p := WithinIsPath(db, src, k, t);
    j := |p| - 1;
  }

  lemma {:induction false} PathIsWithin(db: Db, src: TaskId, p: seq<TaskId>)
    requires IsPath(db, src, p)
    ensures p[|p| - 1] in Within(db, src, |p| - 1)
    decreases |p|
  {
    if |p| > 1 {
      var q := p[..|p| - 1];
      PathIsWithin(db, src, q);
      assert p[|p| - 2] in db && p[|p| - 2 + 1] in db[p[|p| - 2]].dependsOn;
    }
  }

  /** The tasks of level k are those whose shortest path has k hops. */
  lemma LevelIsDistance(db: Db, src: TaskId, k: nat, t: TaskId)
    ensures t in Level(db, src, k) <==> ReachedIn(db, src, t, k) && forall j: nat | j < k :: !ReachedIn(db, src, t, j)
  {
    if t in Level(db, src, k) {
      var p := WithinIsPath(db, src, k, t);
      forall j: nat | j < k ensures !ReachedIn(db, src, t, j) {
        NotNearer(db, src, k, t, j);
      }
      assert ReachedIn(db, src, t, |p| - 1);
      assert ReachedIn(db, src, t, k);
    } else if ReachedIn(db, src, t, k) {
      var p :| IsPath(db, src, p) && |p| == k + 1 && p[k] == t;
      PathIsWithin(db, src, p);
      var q := WithinIsPath(db, src, k - 1, t);
      assert ReachedIn(db, src, t, |q| - 1);
    }
  }

  lemma NotNearer(db: Db, src: TaskId, k: nat, t: TaskId, j: nat)
    requires t in Level(db, src, k) && j < k
    ensures !ReachedIn(db, src, t, j)
  {
    if ReachedIn(db, src, t, j) {
      var p :| IsPath(db, src, p) && |p| == j + 1 && p[j] == t;
      PathIsWithin(db, src, p);
      WithinGrows(db, src, j, k - 1);
    }
  }

  // -- The code ------------------------------------------------------------------------

  function AsSet(ids: seq<TaskId>): set<TaskId> { set t | t in ids }

  lemma AsSetAppend(ids: seq<TaskId>, t: TaskId)
    ensures AsSet(ids + [t]) == AsSet(ids) + {t}
  {
  }

  /** One row's dependencies: those not seen before join the next frontier. */
  method Expand(deps: seq<TaskId>, seen: set<TaskId>, frontier: seq<TaskId>)
    returns (seen': set<TaskId>, frontier': seq<TaskId>)
    ensures seen' == seen + AsSet(deps)
    ensures AsSet(frontier') == AsSet(frontier) + (AsSet(deps) - seen)
  {
    seen', frontier' := seen, frontier;
    for i := 0 to |deps|
      invariant seen' == seen + AsSet(deps[..i])
      invariant AsSet(frontier') == AsSet(frontier) + (AsSet(deps[..i]) - seen)
    {
      AsSetAppend(deps[..i], deps[i]);
      AsSetAppend(frontier', deps[i]);
      assert deps[..i + 1] == deps[..i] + [deps[i]];
      if deps[i] !in seen' {
        seen' := seen' + {deps[i]};
        frontier' := frontier' + [deps[i]];
      }
    }
    assert deps[..|deps|] == deps;
  }

  /** No ancestor nearer than k hops bears a result. */
  ghost predicate NoneNearer(db: Db, src: TaskId, k: nat) {
    forall t, j: nat | j < k && Bears(db, src, t) :: !ReachedIn(db, src, t, j)
  }

  lemma BarrenLevel(db: Db, src: TaskId, k: nat)
    requires NoneNearer(db, src, k) && forall t | t in Level(db, src, k) :: !Bears(db, src, t)
    ensures NoneNearer(db, src, k + 1)
  {
    forall t | Bears(db, src, t) ensures !ReachedIn(db, src, t, k) {
      LevelIsDistance(db, src, k, t);
    }
  }

  lemma NextMonotone(db: Db, a: set<TaskId>, b: set<TaskId>)
    requires a <= b
    ensures Next(db, a) <= Next(db, b)
  {
  }

  /** Past an empty level nothing new is reached. */
  lemma {:induction false} Saturated(db: Db, src: TaskId, k: nat, j: nat)
    requires k > 0 && Level(db, src, k) == {}
    ensures Within(db, src, j) <= Within(db, src, k - 1)
    decreases j
  {
    if j < k {
      WithinGrows(db, src, j, k - 1);
    } else {
      Saturated(db, src, k, j - 1);
      NextMonotone(db, Within(db, src, j - 1), Within(db, src, k - 1));
      forall t | t in Within(db, src, k) ensures t in Within(db, src, k - 1) { assert t !in Level(db, src, k); }
    }
  }

  lemma NoneBeyondEmptyLevel(db: Db, src: TaskId, k: nat, maxHops: nat)
    requires Level(db, src, k) == {} && NoneNearer(db, src, k)
    ensures NoneNearer(db, src, maxHops)
  {
    assert Level(db, src, 0) == {src};
    forall t, j: nat | j < maxHops && Bears(db, src, t) ensures !ReachedIn(db, src, t, j) {
      if ReachedIn(db, src, t, j) {
        var p :| IsPath(db, src, p) && |p| == j + 1 && p[j] == t;
        PathIsWithin(db, src, p);
        Saturated(db, src, k, j);
        var i := HopsTo(db, src, k - 1, t);
        assert false;
      }
    }
  }

  /** One round of the walk over a frontier: the first result-bearing row ends it,
      otherwise the rows' unseen dependencies are the next frontier. */
  method Round(src: TaskId, db: Db, frontier: seq<TaskId>, before: set<TaskId>)
    returns (found: Option<(TaskId, ResultRef)>, seen: set<TaskId>, next: seq<TaskId>)
    ensures found.Some? ==>
              found.value.0 in frontier && Bears(db, src, found.value.0) && db[found.value.0].result == Some(found.value.1)
    ensures found.None? ==>
              && (forall t | t in frontier :: !Bears(db, src, t))
              && seen == before + Next(db, AsSet(frontier)) && AsSet(next) == Next(db, AsSet(frontier)) - before
  {
    seen, next := before, [];
    for i := 0 to |frontier|
      invariant seen == before + Next(db, AsSet(frontier[..i]))
      invariant AsSet(next) == Next(db, AsSet(frontier[..i])) - before
      invariant forall t | t in frontier[..i] :: !Bears(db, src, t)
    {
      var tid := frontier[i];
      assert frontier[..i + 1] == frontier[..i] + [tid];
      if tid in db {
        if tid != src && db[tid].result.Some? {
          return Some((tid, db[tid].result.value)), seen, next;
        }
        seen, next := Expand(db[tid].dependsOn, seen, next);
      }
    }
    assert frontier[..|frontier|] == frontier;
    found := None;
  }

  /** The walk.  The answer is a result-bearing ancestor at the least possible distance,
      which is less than maxHops; there is none exactly when no result-bearing ancestor
      is that near. */
  method ResolveLineageResult(src: TaskId, db: Db, maxHops: nat) returns (found: Option<(TaskId, ResultRef)>)
    ensures found.Some? ==>
              && Bears(db, src, found.value.0) && db[found.value.0].result == Some(found.value.1)
              && exists k :: 0 < k < maxHops && ReachedIn(db, src, found.value.0, k) && NoneNearer(db, src, k)
    ensures found.None? <==> NoneNearer(db, src, maxHops)
  {
    var frontier, seen := [src], {src};
    for hop := 0 to maxHops
      invariant AsSet(frontier) == Level(db, src, hop) && seen == Within(db, src, hop)
      invariant NoneNearer(db, src, hop)
    {
      if frontier == [] {
        NoneBeyondEmptyLevel(db, src, hop, maxHops);
        return None;
      }
      var next: seq<TaskId>;
      found, seen, next := Round(src, db, frontier, seen);
      if found.Some? {
        assert found.value.0 in AsSet(frontier);
        LevelIsDistance(db, src, hop, found.value.0);
        assert hop > 0;
        return;
      }
      forall t | t in Level(db, src, hop) ensures !Bears(db, src, t) { assert t in AsSet(frontier); }
      BarrenLevel(db, src, hop);
      NextLevel(db, src, hop);
      frontier := next;
    }
    return None;
  }
}
