/** Unweighted shortest paths by breadth-first search with a parent map. */
module ShortestPaths {
  import opened Base
  import opened Paths
  import opened Graphs
  import opened Engine

  /** A discovery tree: every vertex but the start was found from a vertex one level up. */
  ghost predicate Tree(adj: map<string, set<string>>, start: string, dep: map<string, nat>, parent: map<string, string>) {
    && start in dep && dep[start] == 0 && parent.Keys == dep.Keys - {start}
    && (forall v :: v in parent ==> parent[v] in dep && dep[v] == dep[parent[v]] + 1 && v in Succ(adj, parent[v]))
  }

  /** The queue in order of depth, holding everything that is neither expanded nor `current`. */
  ghost predicate Waiting(dep: map<string, nat>, queue: seq<string>, done: set<string>) {
    && ToSet(queue) + done == dep.Keys && ToSet(queue) !! done && NoDup(queue)
    && (forall i, j :: 0 <= i <= j < |queue| ==> queue[i] in dep && queue[j] in dep && dep[queue[i]] <= dep[queue[j]])
    && (forall v :: v in done ==> v in dep)
    && (queue != [] ==> forall v :: v in dep ==> dep[v] <= dep[queue[0]] + 1)
  }

  ghost predicate Expanded(adj: map<string, set<string>>, dep: map<string, nat>, done: set<string>) {
    forall v :: v in done && v in dep ==> Relaxed(adj, dep, v)
  }

  /** Walking the parent map upward from `end`. */
  method Unwind(ghost adj: map<string, set<string>>, ghost start: string, ghost dep: map<string, nat>,
                parent: map<string, string>, end: string) returns (path: seq<string>)
    requires Tree(adj, start, dep, parent) && end in dep
    ensures Joins(adj, start, end, path) && |path| == dep[end] + 1
  {
    path := [end];
    var cur := end;
    while cur in parent
      invariant cur in dep && Joins(adj, cur, end, path) && |path| + dep[cur] == dep[end] + 1
      decreases dep[cur]
    {
      var p := parent[cur];
      Prepend(adj, p, cur, end, path);
      path := [p] + path;
      cur := p;
    }
    assert cur == start;
  }

  lemma {:induction false} Prepend(adj: map<string, set<string>>, p: string, c: string, end: string, path: seq<string>)
    requires c in Succ(adj, p) && Joins(adj, c, end, path)
    ensures Joins(adj, p, end, [p] + path)
  {
    var q := [p] + path;
    forall i | 0 <= i < |q| - 1 ensures q[i + 1] in Succ(adj, q[i]) {
      if i > 0 { assert q[i] == path[i - 1] && path[i - 1 + 1] in Succ(adj, path[i - 1]); }
    }
  }

  /** A vertex first seen from `current` has no path as short as `current`'s own depth. */
  lemma {:induction false} NoShortcut(adj: map<string, set<string>>, start: string, dep: map<string, nat>, d: nat, end: string, q: seq<string>)
    requires start in dep && dep[start] == 0 && end !in dep && Joins(adj, start, end, q)
    requires forall v :: v in dep && dep[v] < d ==> Relaxed(adj, dep, v)
    ensures |q| >= d + 2
  {
    hide Relaxed;
    if |q| < d + 2 { DepthsBounded(adj, dep, q, d); }
  }

  /** A found path is shortest; not finding one means there is none. */
  ghost predicate Shortest(adj: map<string, set<string>>, a: string, b: string, r: Option<seq<string>>) {
    match r
    case Some(p) => Joins(adj, a, b, p) && forall q :: Joins(adj, a, b, q) ==> |p| <= |q|
    case None => !Reaches(adj, a, b)
  }

  lemma {:induction false} SelfShortest(adj: map<string, set<string>>, a: string)
    ensures Shortest(adj, a, a, Some([a]))
  {
  }

  lemma {:induction false} FoundShortest(adj: map<string, set<string>>, start: string, end: string, dep: map<string, nat>, d: nat, path: seq<string>)
    requires start in dep && dep[start] == 0 && end !in dep && Joins(adj, start, end, path) && |path| == d + 2
    requires forall v :: v in dep && dep[v] < d ==> Relaxed(adj, dep, v)
    ensures Shortest(adj, start, end, Some(path))
  {
    hide Relaxed;
    forall q | Joins(adj, start, end, q) ensures |path| <= |q| { NoShortcut(adj, start, dep, d, end, q); }
  }

  /** Nothing left to expand and the end never seen: it is out of reach. */
  lemma {:induction false} NotFound(adj: map<string, set<string>>, start: string, end: string, dep: map<string, nat>)
    requires start in dep && dep[start] == 0 && end !in dep && Expanded(adj, dep, dep.Keys)
    ensures Shortest(adj, start, end, None)
  {
    hide Relaxed;
    forall q ensures !Joins(adj, start, end, q) {
      if Joins(adj, start, end, q) { DepthsBounded(adj, dep, q, |q|); }
    }
  }

  /** The state of the search between expansions. */
  ghost predicate Searching(adj: map<string, set<string>>, start: string, dep: map<string, nat>, parent: map<string, string>,
                            queue: seq<string>, done: set<string>)
  {
    Tree(adj, start, dep, parent) && Waiting(dep, queue, done) && Expanded(adj, dep, done)
  }

  lemma {:induction false} SearchStarts(adj: map<string, set<string>>, start: string)
    ensures Searching(adj, start, map[start := 0], map[], [start], {})
  {
  }

  /** Everything shallower than the head of the queue has been expanded. */
  lemma {:induction false} ShallowDone(adj: map<string, set<string>>, start: string, dep: map<string, nat>, parent: map<string, string>,
                                       queue: seq<string>, done: set<string>)
    requires Searching(adj, start, dep, parent, queue, done) && queue != []
    ensures queue[0] in dep && forall v :: v in dep && dep[v] < dep[queue[0]] ==> Relaxed(adj, dep, v)
  {
    hide Relaxed, Tree;
    forall v | v in dep && dep[v] < dep[queue[0]] ensures Relaxed(adj, dep, v) {
      forall i | 0 <= i < |queue| ensures queue[i] != v { assert dep[queue[0]] <= dep[queue[i]]; }
      assert v in ToSet(queue) + done;
    }
  }

  /** While `current` is being expanded: its new successors sit at the back, one level deeper. */
  ghost predicate Expanding(adj: map<string, set<string>>, start: string, dep: map<string, nat>, parent: map<string, string>,
                            queue: seq<string>, done: set<string>, current: string, seen: set<string>)
  {
    && Tree(adj, start, dep, parent) && Expanded(adj, dep, done)
    && current in dep && current !in done && Waiting(dep, [current] + queue, done)
    && seen <= Succ(adj, current) && seen <= dep.Keys
  }

  lemma {:induction false} ExpandBegins(adj: map<string, set<string>>, start: string, dep: map<string, nat>, parent: map<string, string>,
                                        queue: seq<string>, done: set<string>)
    requires Searching(adj, start, dep, parent, queue, done) && queue != []
    ensures Expanding(adj, start, dep, parent, queue[1..], done, queue[0], {})
  {
    hide Relaxed, Tree, Expanded;
    assert [queue[0]] + queue[1..] == queue;
    assert queue[0] in ToSet(queue);
  }

  lemma {:induction false} ExpandFinds(adj: map<string, set<string>>, start: string, dep: map<string, nat>, parent: map<string, string>,
                                       queue: seq<string>, done: set<string>, current: string, seen: set<string>, w: string)
    requires Expanding(adj, start, dep, parent, queue, done, current, seen) && w in Succ(adj, current) && w !in dep
    ensures Expanding(adj, start, dep[w := dep[current] + 1], parent[w := current], queue + [w], done, current, seen + {w})
  {
    hide Relaxed, Tree, Expanded, Waiting;
    WaitingMore(dep, [current] + queue, done, w);
    assert ([current] + queue) + [w] == [current] + (queue + [w]);
    TreeMore(adj, start, dep, parent, current, w);
    WaitingKnown(dep, [current] + queue, done);
    ExpandedMore(adj, dep, done, w, dep[current] + 1);
  }

  lemma {:induction false} WaitingKnown(dep: map<string, nat>, queue: seq<string>, done: set<string>)
    requires Waiting(dep, queue, done)
    ensures done <= dep.Keys
  {
  }

  lemma {:induction false} WaitingMore(dep: map<string, nat>, queue: seq<string>, done: set<string>, w: string)
    requires queue != [] && Waiting(dep, queue, done) && w !in dep && queue[0] in dep
    ensures Waiting(dep[w := dep[queue[0]] + 1], queue + [w], done)
  {
    var q', dep' := queue + [w], dep[w := dep[queue[0]] + 1];
    ToSetSnoc(queue, w);
    assert w !in ToSet(queue);
    forall i, j | 0 <= i <= j < |q'| ensures q'[i] in dep' && q'[j] in dep' && dep'[q'[i]] <= dep'[q'[j]] {
      if i < |queue| { assert queue[i] in dep && dep[queue[i]] <= dep[queue[0]] + 1; }
      if j < |queue| { assert queue[j] in ToSet(queue); }
    }
  }

  lemma {:induction false} TreeMore(adj: map<string, set<string>>, start: string, dep: map<string, nat>, parent: map<string, string>,
                                    current: string, w: string)
    requires Tree(adj, start, dep, parent) && current in dep && w in Succ(adj, current) && w !in dep
    ensures Tree(adj, start, dep[w := dep[current] + 1], parent[w := current])
  {
  }

  lemma {:induction false} ExpandedMore(adj: map<string, set<string>>, dep: map<string, nat>, done: set<string>, w: string, d: nat)
    requires Expanded(adj, dep, done) && w !in dep && done <= dep.Keys
    ensures Expanded(adj, dep[w := d], done)
  {
    var dep' := dep[w := d];
    forall v | v in done && v in dep' ensures Relaxed(adj, dep', v) {
      assert Relaxed(adj, dep, v);
    }
  }

  lemma {:induction false} ExpandEnds(adj: map<string, set<string>>, start: string, dep: map<string, nat>, parent: map<string, string>,
                                      queue: seq<string>, done: set<string>, current: string)
    requires Expanding(adj, start, dep, parent, queue, done, current, Succ(adj, current))
    ensures Searching(adj, start, dep, parent, queue, done + {current})
  {
    hide Tree;
    var q := [current] + queue;
    assert q[0] == current;
    assert ToSet(q) == {current} + ToSet(queue);
    assert Waiting(dep, queue, done + {current}) by { WaitingPop(dep, current, queue, done); }
    assert Relaxed(adj, dep, current) by {
      forall w | w in Succ(adj, current) ensures w in dep && dep[w] <= dep[current] + 1 {}
    }
  }

  lemma {:induction false} QueueHead(current: string, queue: seq<string>)
    requires NoDup([current] + queue)
    ensures ToSet([current] + queue) == {current} + ToSet(queue) && current !in ToSet(queue) && NoDup(queue)
  {
    var q := [current] + queue;
    forall i, j | 0 <= i < j < |queue| ensures queue[i] != queue[j] { assert queue[i] == q[i + 1] && queue[j] == q[j + 1]; }
    forall i | 0 <= i < |queue| ensures queue[i] != current { assert queue[i] == q[i + 1] && q[0] == current; }
  }

  lemma {:induction false} WaitingPop(dep: map<string, nat>, current: string, queue: seq<string>, done: set<string>)
    requires Waiting(dep, [current] + queue, done) && current in dep && current !in done
    ensures Waiting(dep, queue, done + {current})
  {
    hide NoDup;
    var q := [current] + queue;
    QueueHead(current, queue);
    forall i, j | 0 <= i <= j < |queue| ensures queue[i] in dep && queue[j] in dep && dep[queue[i]] <= dep[queue[j]] {
      assert queue[i] == q[i + 1] && queue[j] == q[j + 1];
    }
    if queue != [] { assert queue[0] == q[1] && dep[q[0]] <= dep[q[1]]; }
  }

  method Search(adj: map<string, set<string>>, start: string, end: string) returns (r: Option<seq<string>>)
    ensures Shortest(adj, start, end, r)
  {
    hide *;
    if start == end { SelfShortest(adj, start); return Some([start]); }
    var visited, parent, queue := {start}, map[], [start];
    ghost var dep: map<string, nat> := map[start := 0];
    ghost var done: set<string> := {};
    ghost var all := Vertices(adj, start);
    StartIsVertex(adj, start);
    SearchStarts(adj, start);
    while queue != []
      invariant Searching(adj, start, dep, parent, queue, done) && dep.Keys == visited && visited <= all && end !in visited
      invariant done <= all
      decreases |all - done|
    {
      var current := queue[0];
      ExpandBegins(adj, start, dep, parent, queue, done);
      CurrentFresh(adj, start, dep, parent, queue[1..], done, current, {});
      queue := queue[1..];
      var todo := Succ(adj, current);
      VerticesClosed(adj, start, current);
      assert Succ(adj, current) - todo == {};
      while todo != {}
        invariant todo <= Succ(adj, current) && end !in visited
        invariant Expanding(adj, start, dep, parent, queue, done, current, Succ(adj, current) - todo)
        invariant dep.Keys == visited && visited <= all
      {
        var w :| w in todo;
        if w !in visited {
          if w == end {
            ShallowExpanded(adj, start, dep, parent, queue, done, current, Succ(adj, current) - todo);
            ExpandFinds(adj, start, dep, parent, queue, done, current, Succ(adj, current) - todo, w);
            ExpandTree(adj, start, dep[w := dep[current] + 1], parent[w := current], queue + [w], done, current, Succ(adj, current) - todo + {w});
            var path := Unwind(adj, start, dep[w := dep[current] + 1], parent[w := current], end);
            FoundShortest(adj, start, end, dep, dep[current], path);
            return Some(path);
          }
          CurrentFresh(adj, start, dep, parent, queue, done, current, Succ(adj, current) - todo);
          ExpandFinds(adj, start, dep, parent, queue, done, current, Succ(adj, current) - todo, w);
          dep := dep[w := dep[current] + 1];
          visited, parent, queue := visited + {w}, parent[w := current], queue + [w];
        } else {
          SeenMore(adj, start, dep, parent, queue, done, current, Succ(adj, current) - todo, w);
        }
        assert Succ(adj, current) - (todo - {w}) == Succ(adj, current) - todo + {w};
        todo := todo - {w};
      }
      assert Succ(adj, current) - todo == Succ(adj, current);
      CurrentFresh(adj, start, dep, parent, queue, done, current, Succ(adj, current));
      ExpandEnds(adj, start, dep, parent, queue, done, current);
      done := done + {current};
    }
    SearchDone(adj, start, dep, parent, done);
    NotFound(adj, start, end, dep);
    r := None;
  }

  lemma {:induction false} SearchDone(adj: map<string, set<string>>, start: string, dep: map<string, nat>, parent: map<string, string>, done: set<string>)
    requires Searching(adj, start, dep, parent, [], done)
    ensures start in dep && dep[start] == 0 && Expanded(adj, dep, dep.Keys)
  {
    assert ToSet<string>([]) == {};
  }

  lemma {:induction false} CurrentFresh(adj: map<string, set<string>>, start: string, dep: map<string, nat>, parent: map<string, string>,
                                        queue: seq<string>, done: set<string>, current: string, seen: set<string>)
    requires Expanding(adj, start, dep, parent, queue, done, current, seen)
    ensures current in dep && current !in done && start in dep && dep[start] == 0
  {
  }

  lemma {:induction false} ExpandTree(adj: map<string, set<string>>, start: string, dep: map<string, nat>, parent: map<string, string>,
                                      queue: seq<string>, done: set<string>, current: string, seen: set<string>)
    requires Expanding(adj, start, dep, parent, queue, done, current, seen)
    ensures Tree(adj, start, dep, parent)
  {
  }

  lemma {:induction false} SeenMore(adj: map<string, set<string>>, start: string, dep: map<string, nat>, parent: map<string, string>,
                                    queue: seq<string>, done: set<string>, current: string, seen: set<string>, w: string)
    requires Expanding(adj, start, dep, parent, queue, done, current, seen) && w in Succ(adj, current) && w in dep
    ensures Expanding(adj, start, dep, parent, queue, done, current, seen + {w})
  {
  }

  lemma {:induction false} ShallowExpanded(adj: map<string, set<string>>, start: string, dep: map<string, nat>, parent: map<string, string>,
                                           queue: seq<string>, done: set<string>, current: string, seen: set<string>)
    requires Expanding(adj, start, dep, parent, queue, done, current, seen)
    ensures current in dep && start in dep && dep[start] == 0
    ensures forall v :: v in dep && dep[v] < dep[current] ==> Relaxed(adj, dep, v)
  {
    ShallowDone(adj, start, dep, parent, [current] + queue, done);
  }

  /** `shortest_path`: None exactly when an endpoint is not live or the end is unreachable. */
  method ShortestPath(g: Graph, start: string, end: string) returns (r: Option<seq<string>>)
    ensures IsLive(g, start) && IsLive(g, end) ==> Shortest(Forward(g, None), start, end, r)
    ensures !IsLive(g, start) || !IsLive(g, end) ==> r == None
  {
    hide Shortest, Forward;
    if !IsLive(g, start) || !IsLive(g, end) { return None; }
    r := Search(Forward(g, None), start, end);
  }
}
