/** Task graphs: their well-formedness and the validator that decides it. */
module TaskGraph {
  import opened Prelude

  datatype SubagentConfig = SubagentConfig(
    name: string,
    description: Option<string>,
    systemPrompt: string,
    model: string,
    provider: string,
    maxIterations: Option<int>,
    timeoutSeconds: Option<int>,
    capabilities: seq<string>)

  datatype TaskNode = TaskNode(
    id: string,
    config: SubagentConfig,
    dependsOn: seq<string>,
    onSuccess: seq<string>,
    onFailure: seq<string>,
    inputFrom: Option<string>,
    inputTemplate: Option<string>,
    baseInput: Option<string>)

  type Graph = seq<TaskNode>

  datatype GraphError =
    | EmptyId
    | DuplicateId(id: string)
    | UnknownDependency(node: string, target: string)
    | UnknownSuccessTarget(node: string, target: string)
    | UnknownFailureTarget(node: string, target: string)
    | UnknownInputSource(node: string, target: string)
    | DependencyCycle

  function Ids(g: Graph): set<string> {
    set n | n in g :: n.id
  }

  // ---- What a valid graph is ----

  ghost predicate IdsNonEmpty(g: Graph) {
    forall n | n in g :: Trim(n.id) != ""
  }

  ghost predicate TrimmedIdsDistinct(g: Graph) {
    forall i, j | 0 <= i < j < |g| :: Trim(g[i].id) != Trim(g[j].id)
  }

  predicate NodeReferencesKnown(n: TaskNode, ids: set<string>) {
    && (forall d | d in n.dependsOn :: d in ids)
    && (forall t | t in n.onSuccess :: t in ids)
    && (forall t | t in n.onFailure :: t in ids)
    && (n.inputFrom.Some? ==> n.inputFrom.value in ids)
  }

  ghost predicate ReferencesKnownIn(nodes: seq<TaskNode>, ids: set<string>) {
    forall n | n in nodes :: NodeReferencesKnown(n, ids)
  }

  ghost predicate ReferencesKnown(g: Graph) {
    ReferencesKnownIn(g, Ids(g))
  }

  ghost predicate Depends(g: Graph, a: string, b: string) {
    exists n :: n in g && n.id == a && b in n.dependsOn
  }

  ghost predicate Link(g: Graph, p: seq<string>, k: nat)
    requires k + 1 < |p|
  {
    Depends(g, p[k], p[k + 1])
  }

  /** Each id on the walk depends on the next one. */
  ghost predicate Linked(g: Graph, p: seq<string>) {
    forall k: nat | k + 1 < |p| :: Link(g, p, k)
  }

  ghost predicate DependencyPath(g: Graph, p: seq<string>) {
    |p| >= 2 && Linked(g, p)
  }

  ghost predicate Acyclic(g: Graph) {
    forall p | DependencyPath(g, p) :: p[0] != p[|p| - 1]
  }

  ghost predicate WellFormed(g: Graph) {
    IdsNonEmpty(g) && TrimmedIdsDistinct(g) && ReferencesKnown(g) && Acyclic(g)
  }

  ghost predicate IdsDistinct(g: Graph) {
    forall i, j | 0 <= i < j < |g| :: g[i].id != g[j].id
  }

  lemma LinkedSlice(g: Graph, p: seq<string>, i: nat, j: nat)
    requires Linked(g, p) && i <= j <= |p|
    ensures Linked(g, p[i..j])
  {
    forall k: nat | k + 1 < |p[i..j]|
      ensures Link(g, p[i..j], k)
    {
      assert Link(g, p, i + k);
    }
  }

  // ---- Lookups in a graph with distinct ids ----

  function DepsOf(g: Graph, id: string): seq<string> {
    if g == [] then [] else if g[0].id == id then g[0].dependsOn else DepsOf(g[1..], id)
  }

  lemma {:induction false} DepsOfNode(g: Graph, i: nat)
    requires IdsDistinct(g) && i < |g|
    ensures DepsOf(g, g[i].id) == g[i].dependsOn
  {
    if i > 0 {
      DepsOfNode(g[1..], i - 1);
    }
  }

  lemma DependsIsDepsOf(g: Graph, a: string, b: string)
    requires IdsDistinct(g) && a in Ids(g)
    ensures Depends(g, a, b) <==> b in DepsOf(g, a)
  {
    var n :| n in g && n.id == a;
    var i :| 0 <= i < |g| && g[i] == n;
    DepsOfNode(g, i);
    if Depends(g, a, b) {
      var m :| m in g && m.id == a && b in m.dependsOn;
      var j :| 0 <= j < |g| && g[j] == m;
      assert i == j;
    }
  }

  lemma {:induction false} IdCount(g: Graph)
    requires IdsDistinct(g)
    ensures |Ids(g)| == |g|
  {
    if g != [] {
      var last := |g| - 1;
      IdCount(g[..last]);
      assert g == g[..last] + [g[last]];
      assert Ids(g) == Ids(g[..last]) + {g[last].id};
    }
  }

  // ---- Acyclicity: a ranking excludes cycles, and a dependency-closed set has one ----

  ghost predicate Ranks(g: Graph, rank: map<string, nat>) {
    forall c, d | c in rank && d in DepsOf(g, c) :: d in rank && rank[d] < rank[c]
  }

  lemma {:induction false} RankFallsAlongPath(g: Graph, rank: map<string, nat>, p: seq<string>)
    requires IdsDistinct(g) && Ranks(g, rank) && rank.Keys == Ids(g)
    requires DependencyPath(g, p)
    ensures p[0] in rank && p[|p| - 1] in rank && rank[p[|p| - 1]] < rank[p[0]]
    decreases |p|
  {
    assert Link(g, p, 0);
    DependsIsDepsOf(g, p[0], p[1]);
    if |p| > 2 {
      LinkedSlice(g, p, 1, |p|);
      assert p[1..] == p[1..|p|];
      RankFallsAlongPath(g, rank, p[1..]);
    }
  }

  lemma RankingExcludesCycles(g: Graph, rank: map<string, nat>)
    requires IdsDistinct(g) && Ranks(g, rank) && rank.Keys == Ids(g)
    ensures Acyclic(g)
  {
    forall p | DependencyPath(g, p)
      ensures p[0] != p[|p| - 1]
    {
      RankFallsAlongPath(g, rank, p);
    }
  }

  ghost predicate Blocked(g: Graph, stuck: set<string>, c: string) {
    exists d :: d in DepsOf(g, c) && d in stuck
  }

  /** Every member of `stuck` depends on another member. */
  ghost predicate Stuck(g: Graph, stuck: set<string>) {
    stuck <= Ids(g) && forall c {:trigger Blocked(g, stuck, c)} | c in stuck :: Blocked(g, stuck, c)
  }

  /** A walk of `n + 1` ids that follows dependencies inside `stuck`. */
  lemma {:induction false} StuckWalk(g: Graph, stuck: set<string>, n: nat) returns (walk: seq<string>)
    requires IdsDistinct(g) && Stuck(g, stuck) && stuck != {}
    ensures |walk| == n + 1
    ensures forall k | 0 <= k < |walk| :: walk[k] in stuck
    ensures Linked(g, walk)
  {
    if n == 0 {
      var c :| c in stuck;
      walk := [c];
    } else {
      var w := StuckWalk(g, stuck, n - 1);
      assert Blocked(g, stuck, w[n - 1]);
      var d :| d in DepsOf(g, w[n - 1]) && d in stuck;
      DependsIsDepsOf(g, w[n - 1], d);
      walk := w + [d];
      forall k: nat | k + 1 < |walk|
        ensures Link(g, walk, k)
      {
        assert k + 1 < |w| ==> Link(g, w, k);
      }
    }
  }

  lemma {:induction false} Pigeonhole(walk: seq<string>, holes: set<string>) returns (i: nat, j: nat)
    requires forall k | 0 <= k < |walk| :: walk[k] in holes
    requires |walk| > |holes|
    ensures i < j < |walk| && walk[i] == walk[j]
    decreases |walk|
  {
    var last := |walk| - 1;
    if k :| 0 <= k < last && walk[k] == walk[last] {
      i, j := k, last;
    } else {
      i, j := Pigeonhole(walk[..last], holes - {walk[last]});
    }
  }

  lemma ClosedPathIsCyclic(g: Graph, p: seq<string>)
    requires DependencyPath(g, p) && p[0] == p[|p| - 1]
    ensures !Acyclic(g)
  {
  }

  lemma RepeatedWalkIsCyclic(g: Graph, walk: seq<string>, i: nat, j: nat)
    requires Linked(g, walk) && i < j < |walk| && walk[i] == walk[j]
    ensures !Acyclic(g)
  {
    var cycle := walk[i..j + 1];
    LinkedSlice(g, walk, i, j + 1);
    ClosedPathIsCyclic(g, cycle);
  }

  lemma StuckSetHasCycle(g: Graph, stuck: set<string>)
    requires IdsDistinct(g) && Stuck(g, stuck) && stuck != {}
    ensures !Acyclic(g)
  {
    var walk := StuckWalk(g, stuck, |stuck|);
    var i, j := Pigeonhole(walk, stuck);
    RepeatedWalkIsCyclic(g, walk, i, j);
  }

  // ---- The validator ----

  /** The node at `k` is the first with an empty or taken id, and `e` says which. */
  ghost predicate IdFaultAt(g: Graph, k: nat, e: GraphError) {
    && k < |g| && IdsNonEmpty(g[..k]) && TrimmedIdsDistinct(g[..k])
    && if Trim(g[k].id) == "" then e == EmptyId
       else e == DuplicateId(Trim(g[k].id)) && exists i :: 0 <= i < k && Trim(g[i].id) == Trim(g[k].id)
  }

  ghost predicate FirstIdFault(g: Graph, e: GraphError) {
    exists k: nat :: IdFaultAt(g, k, e)
  }

  method CheckIds(g: Graph) returns (r: Result<(), GraphError>)
    ensures r.Ok? <==> IdsNonEmpty(g) && TrimmedIdsDistinct(g)
    ensures r.Err? ==> FirstIdFault(g, r.error)
  {
    var seen: set<string> := {};
    for i := 0 to |g|
      invariant seen == set k | 0 <= k < i :: Trim(g[k].id)
      invariant IdsNonEmpty(g[..i]) && TrimmedIdsDistinct(g[..i])
    {
      var id := Trim(g[i].id);
      assert g[..i + 1] == g[..i] + [g[i]];
      if id == "" {
        assert g[i] in g && IdFaultAt(g, i, EmptyId);
        return Err(EmptyId);
      }
      if id in seen {
        var k :| 0 <= k < i && Trim(g[k].id) == id;
        assert IdFaultAt(g, i, DuplicateId(id));
        return Err(DuplicateId(id));
      }
      seen := seen + {id};
    }
    assert g[..|g|] == g;
    return Ok(());
  }

  predicate AllKnown(targets: seq<string>, ids: set<string>) {
    forall t | t in targets :: t in ids
  }

  ghost predicate IsFirstUnknown(targets: seq<string>, ids: set<string>, t: string) {
    exists k :: 0 <= k < |targets| && targets[k] == t && t !in ids && forall j | 0 <= j < k :: targets[j] in ids
  }

  method FirstUnknown(targets: seq<string>, ids: set<string>) returns (r: Option<string>)
    ensures r.None? <==> AllKnown(targets, ids)
    ensures r.Some? ==> IsFirstUnknown(targets, ids, r.value)
  {
    for k := 0 to |targets|
      invariant forall j | 0 <= j < k :: targets[j] in ids
    {
      if targets[k] !in ids {
        return Some(targets[k]);
      }
    }
    return None;
  }

  /** `e` names the first unknown reference of a node: dependencies, success, failure, and then its input source. */
  ghost predicate ReferenceFault(n: TaskNode, ids: set<string>, e: GraphError) {
    match e
    case UnknownDependency(node, t) => node == n.id && IsFirstUnknown(n.dependsOn, ids, t)
    case UnknownSuccessTarget(node, t) =>
      node == n.id && AllKnown(n.dependsOn, ids) && IsFirstUnknown(n.onSuccess, ids, t)
    case UnknownFailureTarget(node, t) =>
      node == n.id && AllKnown(n.dependsOn + n.onSuccess, ids) && IsFirstUnknown(n.onFailure, ids, t)
    case UnknownInputSource(node, t) =>
      node == n.id && AllKnown(n.dependsOn + n.onSuccess + n.onFailure, ids) && n.inputFrom == Some(t) && t !in ids
    case _ => false
  }

  ghost predicate ReferenceFaultAt(g: Graph, k: nat, e: GraphError) {
    k < |g| && ReferencesKnownIn(g[..k], Ids(g)) && ReferenceFault(g[k], Ids(g), e)
  }

  ghost predicate FirstReferenceFault(g: Graph, e: GraphError) {
    exists k: nat :: ReferenceFaultAt(g, k, e)
  }

  method CheckNode(n: TaskNode, ids: set<string>) returns (r: Result<(), GraphError>)
    ensures r.Ok? <==> NodeReferencesKnown(n, ids)
    ensures r.Err? ==> ReferenceFault(n, ids, r.error)
  {
    var unknown := FirstUnknown(n.dependsOn, ids);
    if unknown.Some? { return Err(UnknownDependency(n.id, unknown.value)); }
    unknown := FirstUnknown(n.onSuccess, ids);
    if unknown.Some? { return Err(UnknownSuccessTarget(n.id, unknown.value)); }
    unknown := FirstUnknown(n.onFailure, ids);
    if unknown.Some? { return Err(UnknownFailureTarget(n.id, unknown.value)); }
    if n.inputFrom.Some? && n.inputFrom.value !in ids {
      return Err(UnknownInputSource(n.id, n.inputFrom.value));
    }
    return Ok(());
  }

  method CheckReferences(g: Graph) returns (r: Result<(), GraphError>)
    ensures r.Ok? <==> ReferencesKnown(g)
    ensures r.Err? ==> FirstReferenceFault(g, r.error)
  {
    var ids := Ids(g);
    for i := 0 to |g|
      invariant ReferencesKnownIn(g[..i], ids)
    {
      assert g[..i + 1] == g[..i] + [g[i]];
      r := CheckNode(g[i], ids);
      if r.Err? {
        assert g[i] in g && ReferenceFaultAt(g, i, r.error);
        return;
      }
    }
    assert g[..|g|] == g;
    return Ok(());
  }

  /** Occurrences in `deps` that are not yet in `done`; duplicates count. */
  function Waiting(deps: seq<string>, done: set<string>): nat {
    if deps == [] then 0
    else (if deps[0] in done then 0 else 1) + Waiting(deps[1..], done)
  }

  lemma {:induction false} WaitingAll(deps: seq<string>)
    ensures Waiting(deps, {}) == |deps|
  {
    if deps != [] { WaitingAll(deps[1..]); }
  }

  lemma {:induction false} WaitingZero(deps: seq<string>, done: set<string>)
    ensures Waiting(deps, done) == 0 <==> forall d | d in deps :: d in done
  {
    if deps != [] {
      WaitingZero(deps[1..], done);
      assert deps == [deps[0]] + deps[1..];
    }
  }

  /** How often `x` occurs in `s`. */
  function Count(s: seq<string>, x: string): nat {
    if s == [] then 0 else Count(s[..|s| - 1], x) + (if s[|s| - 1] == x then 1 else 0)
  }

  lemma CountAppend(s: seq<string>, y: string, x: string)
    ensures Count(s + [y], x) == Count(s, x) + if y == x then 1 else 0
  {
    assert (s + [y])[..|s|] == s;
  }

  lemma {:induction false} CountPrepend(y: string, s: seq<string>, x: string)
    ensures Count([y] + s, x) == Count(s, x) + if y == x then 1 else 0
  {
    if s == [] {
      CountAppend([], y, x);
    } else {
      var last := |s| - 1;
      CountPrepend(y, s[..last], x);
      assert ([y] + s)[..last + 1] == [y] + s[..last];
    }
  }

  lemma {:induction false} CountPrefix(s: seq<string>, k: nat, x: string)
    requires k <= |s|
    ensures Count(s[..k], x) <= Count(s, x)
  {
    if k < |s| {
      CountPrefix(s[..|s| - 1], k, x);
      assert s[..|s| - 1][..k] == s[..k];
    } else {
      assert s[..k] == s;
    }
  }

  lemma {:induction false} WaitingStep(deps: seq<string>, done: set<string>, id: string)
    requires id !in done
    ensures Waiting(deps, done) == Waiting(deps, done + {id}) + Count(deps, id)
  {
    if deps != [] {
      WaitingStep(deps[1..], done, id);
      CountPrepend(deps[0], deps[1..], id);
      assert deps == [deps[0]] + deps[1..];
    }
  }

  function Children(edges: map<string, seq<string>>, id: string): seq<string> {
    if id in edges then edges[id] else []
  }

  method InitialIndegrees(g: Graph) returns (indegree: map<string, nat>)
    requires IdsDistinct(g)
    ensures indegree.Keys == Ids(g)
    ensures forall c | c in Ids(g) :: indegree[c] == |DepsOf(g, c)|
  {
    indegree := map[];
    for i := 0 to |g|
      invariant indegree.Keys == Ids(g[..i])
      invariant forall c | c in indegree :: indegree[c] == |DepsOf(g, c)|
    {
      DepsOfNode(g, i);
      assert g[..i + 1] == g[..i] + [g[i]];
      indegree := indegree[g[i].id := |g[i].dependsOn|];
    }
    assert g[..|g|] == g;
  }

  /** How often `c` is to be listed as a child of `d`. */
  function EdgeCount(g: Graph, d: string, c: string): nat {
    if g == [] then 0
    else
      var last := g[|g| - 1];
      EdgeCount(g[..|g| - 1], d, c) + if last.id == c then Count(last.dependsOn, d) else 0
  }

  lemma {:induction false} EdgeCountOfDeps(g: Graph, d: string, c: string)
    requires IdsDistinct(g)
    ensures c !in Ids(g) ==> EdgeCount(g, d, c) == 0
    ensures c in Ids(g) ==> EdgeCount(g, d, c) == Count(DepsOf(g, c), d)
  {
    if g != [] {
      var last := |g| - 1;
      var init := g[..last];
      assert g == init + [g[last]];
      EdgeCountOfDeps(init, d, c);
      if c == g[last].id {
        assert c !in Ids(init);
        DepsOfNode(g, last);
      } else if c in Ids(init) {
        var n :| n in init && n.id == c;
        var j :| 0 <= j < |init| && init[j] == n;
        DepsOfNode(g, j);
        DepsOfNode(init, j);
      }
    }
  }

  ghost predicate EdgesOf(g: Graph, edges: map<string, seq<string>>) {
    forall d: string, c: string :: Count(Children(edges, d), c) == EdgeCount(g, d, c)
  }

  method AddEdgesOfNode(id: string, deps: seq<string>, edges: map<string, seq<string>>)
    returns (r: map<string, seq<string>>)
    ensures forall d: string, c: string ::
      Count(Children(r, d), c) == Count(Children(edges, d), c) + if c == id then Count(deps, d) else 0
  {
    r := edges;
    assert forall d: string :: Count(deps[..0], d) == 0;
    for k := 0 to |deps|
      invariant forall d: string, c: string ::
        Count(Children(r, d), c) == Count(Children(edges, d), c) + if c == id then Count(deps[..k], d) else 0
    {
      ghost var before := r;
      assert deps[..k + 1] == deps[..k] + [deps[k]];
      r := r[deps[k] := Children(r, deps[k]) + [id]];
      forall d: string, c: string
        ensures Count(Children(r, d), c) == Count(Children(edges, d), c) + if c == id then Count(deps[..k + 1], d) else 0
      {
        CountAppend(deps[..k], deps[k], d);
        CountAppend(Children(before, d), id, c);
      }
    }
    assert deps[..|deps|] == deps;
  }

  method BuildEdges(g: Graph) returns (edges: map<string, seq<string>>)
    ensures EdgesOf(g, edges)
  {
    edges := map[];
    for i := 0 to |g|
      invariant EdgesOf(g[..i], edges)
    {
      edges := AddEdgesOfNode(g[i].id, g[i].dependsOn, edges);
      assert g[..i + 1][..i] == g[..i];
    }
    assert g[..|g|] == g;
  }

  lemma {:induction false} CountMember(s: seq<string>, x: string)
    ensures x in s <==> Count(s, x) > 0
  {
    if s != [] {
      CountMember(s[..|s| - 1], x);
      assert s == s[..|s| - 1] + [s[|s| - 1]];
    }
  }

  /** The queue seeds come out of a hash map, in no particular order. */
  method InitialQueue(indegree: map<string, nat>) returns (q: seq<string>)
    ensures Distinct(q)
    ensures forall c :: c in q <==> c in indegree && indegree[c] == 0
  {
    q := [];
    var rest := indegree.Keys;
    while rest != {}
      invariant rest <= indegree.Keys
      invariant Distinct(q)
      invariant forall c :: c in q <==> c in indegree && c !in rest && indegree[c] == 0
      decreases |rest|
    {
      var c :| c in rest;
      rest := rest - {c};
      if indegree[c] == 0 {
        q := q + [c];
      }
    }
  }

  /** Queue and indegrees agree: the zero-indegree ids are the queued and the done ones. */
  ghost predicate QueueInvariant(ids: set<string>, indegree: map<string, nat>, q: seq<string>, done: set<string>) {
    && indegree.Keys == ids
    && done <= ids
    && Distinct(q)
    && (forall c | c in q :: c in ids && c !in done)
    && (forall c | c in ids :: indegree[c] == 0 <==> c in q || c in done)
  }

  method ReleaseChildren(ids: set<string>, children: seq<string>, indegree: map<string, nat>, q: seq<string>,
                         ghost done: set<string>)
    returns (indegree': map<string, nat>, q': seq<string>)
    requires QueueInvariant(ids, indegree, q, done)
    requires forall c | c in children :: c in ids
    requires forall c | c in ids :: Count(children, c) <= indegree[c]
    ensures QueueInvariant(ids, indegree', q', done)
    ensures forall c | c in ids :: indegree'[c] + Count(children, c) == indegree[c]
  {
    indegree', q' := indegree, q;
    for k := 0 to |children|
      invariant QueueInvariant(ids, indegree', q', done)
      invariant forall c | c in ids :: indegree'[c] + Count(children[..k], c) == indegree[c]
    {
      var child := children[k];
      assert children[..k + 1] == children[..k] + [child];
      forall c ensures Count(children[..k + 1], c) == Count(children[..k], c) + if c == child then 1 else 0 {
        CountAppend(children[..k], child, c);
      }
      CountPrefix(children, k + 1, child);
      var next := SaturatingSub(indegree'[child], 1);
      indegree' := indegree'[child := next];
      if next == 0 {
        q' := q' + [child];
      }
    }
    assert children[..|children|] == children;
  }

  ghost predicate IndegreesWait(g: Graph, ids: set<string>, indegree: map<string, nat>, done: set<string>) {
    indegree.Keys == ids && forall c | c in ids :: indegree[c] == Waiting(DepsOf(g, c), done)
  }

  /** `done` in some dependency-respecting order; `rank` is the position in it. */
  ghost predicate Ordered(g: Graph, done: set<string>, rank: map<string, nat>) {
    rank.Keys == done && Ranks(g, rank) && forall c | c in rank :: rank[c] < |done|
  }

  lemma OrderedExtend(g: Graph, done: set<string>, rank: map<string, nat>, id: string)
    requires Ordered(g, done, rank) && id !in done && Waiting(DepsOf(g, id), done) == 0
    ensures Ordered(g, done + {id}, rank[id := |done|])
  {
    WaitingZero(DepsOf(g, id), done);
  }

  lemma ChildrenFit(g: Graph, edges: map<string, seq<string>>, done: set<string>, id: string, c: string)
    requires IdsDistinct(g) && EdgesOf(g, edges) && id !in done
    ensures c in Children(edges, id) ==> c in Ids(g)
    ensures c in Ids(g) ==>
      Waiting(DepsOf(g, c), done) == Waiting(DepsOf(g, c), done + {id}) + Count(Children(edges, id), c)
  {
    CountMember(Children(edges, id), c);
    EdgeCountOfDeps(g, id, c);
    WaitingStep(DepsOf(g, c), done, id);
  }

  method PopOne(g: Graph, ids: set<string>, edges: map<string, seq<string>>, indegree: map<string, nat>,
                q: seq<string>, ghost done: set<string>)
    returns (indegree': map<string, nat>, q': seq<string>)
    requires IdsDistinct(g) && EdgesOf(g, edges) && ids == Ids(g)
    requires q != [] && QueueInvariant(ids, indegree, q, done) && IndegreesWait(g, ids, indegree, done)
    ensures QueueInvariant(ids, indegree', q', done + {q[0]})
    ensures IndegreesWait(g, ids, indegree', done + {q[0]})
  {
    var id := q[0];
    forall c
      ensures c in Children(edges, id) ==> c in ids
      ensures c in ids ==> indegree[c] == Waiting(DepsOf(g, c), done + {id}) + Count(Children(edges, id), c)
    {
      ChildrenFit(g, edges, done, id, c);
    }
    indegree', q' := indegree, q[1..];
    if id in edges {
      indegree', q' := ReleaseChildren(ids, edges[id], indegree', q', done + {id});
    }
  }

  method CheckAcyclic(g: Graph) returns (ok: bool)
    requires IdsDistinct(g) && ReferencesKnown(g)
    ensures ok <==> Acyclic(g)
  {
    var ids := Ids(g);
    var indegree := InitialIndegrees(g);
    var edges := BuildEdges(g);
    var q := InitialQueue(indegree);
    var visited := 0;
    ghost var done: set<string> := {};
    ghost var rank: map<string, nat> := map[];
    forall c | c in ids ensures indegree[c] == Waiting(DepsOf(g, c), done) {
      WaitingAll(DepsOf(g, c));
    }
    while q != []
      invariant QueueInvariant(ids, indegree, q, done)
      invariant IndegreesWait(g, ids, indegree, done)
      invariant visited == |done|
      invariant Ordered(g, done, rank)
      decreases |ids| - |done|
    {
      ghost var id := q[0];
      OrderedExtend(g, done, rank, id);
      visited := visited + 1;
      indegree, q := PopOne(g, ids, edges, indegree, q, done);
      rank, done := rank[id := |done|], done + {id};
      SubsetCardinality(done, ids);
    }
    ok := visited == |g|;
    AllPoppedIffAcyclic(g, indegree, done, rank);
  }

  /** With the queue empty, the popped ids are all the ids exactly when there is no cycle. */
  lemma AllPoppedIffAcyclic(g: Graph, indegree: map<string, nat>, done: set<string>, rank: map<string, nat>)
    requires IdsDistinct(g) && ReferencesKnown(g)
    requires QueueInvariant(Ids(g), indegree, [], done)
    requires IndegreesWait(g, Ids(g), indegree, done) && Ordered(g, done, rank)
    ensures |done| == |g| <==> Acyclic(g)
  {
    IdCount(g);
    if |done| == |g| {
      SubsetOfEqualSize(done, Ids(g));
      RankingExcludesCycles(g, rank);
    } else {
      var stuck := Ids(g) - done;
      forall c | c in stuck
        ensures Blocked(g, stuck, c)
      {
        WaitingZero(DepsOf(g, c), done);
        var d :| d in DepsOf(g, c) && d !in done;
        DepsKnown(g, c, d);
      }
      assert stuck != {};
      StuckSetHasCycle(g, stuck);
    }
  }

  lemma DepsKnown(g: Graph, c: string, d: string)
    requires IdsDistinct(g) && ReferencesKnown(g) && c in Ids(g) && d in DepsOf(g, c)
    ensures d in Ids(g)
  {
    DependsIsDepsOf(g, c, d);
    var n :| n in g && n.id == c && d in n.dependsOn;
    assert NodeReferencesKnown(n, Ids(g));
  }

  /** Accepts exactly the well-formed graphs, and each rejection names a real defect. */
  method Validate(g: Graph) returns (r: Result<(), GraphError>)
    ensures r.Ok? <==> WellFormed(g)
    ensures r.Err? ==>
      match r.error
      case EmptyId => FirstIdFault(g, EmptyId)
      case DuplicateId(id) => FirstIdFault(g, DuplicateId(id))
      case DependencyCycle => IdsNonEmpty(g) && TrimmedIdsDistinct(g) && ReferencesKnown(g) && !Acyclic(g)
      case _ => IdsNonEmpty(g) && TrimmedIdsDistinct(g) && FirstReferenceFault(g, r.error)
  {
    r := CheckIds(g);
    if r.Err? { return; }
    r := CheckReferences(g);
    if r.Err? { return; }
    var ok := CheckAcyclic(g);
    if !ok {
      return Err(DependencyCycle);
    }
    return Ok(());
  }
}
