/**
 * Supersession chains and their O(1) head pointers.
 *
 * A SUPERSEDES edge runs from a newer node to the node it replaces. Every node that replaced
 * another keeps the id of its chain's oldest node (`tailId`), and that oldest node keeps the id of
 * the newest one (`headId`). The theorems compare the pointers with unbounded walks over the edges.
 */
module SupersessionChains {
  import opened Prelude

  type Id = string

  /** `stale` stands for a non-null valid_to, written together with the superseding edge. */
  datatype Node = Node(silo: string, tailId: Option<Id>, headId: Option<Id>, stale: bool)

  datatype Graph = Graph(nodes: map<Id, Node>, edges: set<(Id, Id)>)

  // ---------------------------------------------------------------- queries

  predicate In(g: Graph, id: Id, silo: string) { id in g.nodes && g.nodes[id].silo == silo }

  function Create(g: Graph, id: Id, silo: string): Graph {
    if id in g.nodes then g else g.(nodes := g.nodes[id := Node(silo, None, None, false)])
  }

  /** CREATE_BELIEF_SUPERSEDES followed, in the same transaction, by MARK_BELIEF_STALE on the older node. */
  function Supersede(g: Graph, newer: Id, older: Id, silo: string): Graph {
    if !In(g, newer, silo) || !In(g, older, silo) then g
    else
      var derived := g.nodes[older].tailId.GetOr(older);
      var tail := g.nodes[newer].tailId.GetOr(derived);
      var n1 := g.nodes[newer := g.nodes[newer].(tailId := Some(tail))];
      var n2 := if tail in n1 && n1[tail].silo == silo then n1[tail := n1[tail].(headId := Some(newer))] else n1;
      Graph(n2[older := n2[older].(stale := true)], g.edges + {(newer, older)})
  }

  /** RESOLVE_CURRENT_HEAD: two hops, then a check that the answer is not itself superseded. */
  function Resolve(g: Graph, id: Id): Option<Id>
    requires id in g.nodes
  {
    var tail := g.nodes[id].tailId.GetOr(id);
    var head := if In(g, tail, g.nodes[id].silo) then g.nodes[tail].headId.GetOr(id) else id;
    if In(g, head, g.nodes[id].silo) && !g.nodes[head].stale then Some(head) else None
  }

  // ------------------------------------------------------------------ walks

  predicate Superseded(g: Graph, id: Id) { exists e :: e in g.edges && e.1 == id }

  predicate Supersedes(g: Graph, id: Id) { exists e :: e in g.edges && e.0 == id }

  /** A walk from each node to the node that superseded it. */
  ghost predicate Upward(g: Graph, path: seq<Id>) {
    path != [] && forall i :: 0 <= i < |path| - 1 ==> (path[i + 1], path[i]) in g.edges
  }

  /** `path` walks from `id` up to a node nothing supersedes. */
  ghost predicate WalkToHead(g: Graph, id: Id, path: seq<Id>) {
    Upward(g, path) && path[0] == id && !Superseded(g, path[|path| - 1])
  }

  /** `path` starts at a node that supersedes nothing and walks up to `id`. */
  ghost predicate WalkFromTail(g: Graph, id: Id, path: seq<Id>) {
    Upward(g, path) && path[|path| - 1] == id && !Supersedes(g, path[0])
  }

  // ----------------------------------------------------------------- chains

  /** Where a node sits: its chain, listed from tail to head, and its position there. */
  datatype Place = Place(chain: seq<Id>, i: nat)

  type Layout = map<Id, Place>

  function Below(at: Layout, id: Id): Id
    requires id in at && 0 < at[id].i <= |at[id].chain|
  {
    at[id].chain[at[id].i - 1]
  }

  function NodeAt(at: Layout, id: Id, j: nat): Id
    requires id in at && j < |at[id].chain|
  {
    at[id].chain[j]
  }

  ghost predicate Consistent(at: Layout) {
    && (forall id :: id in at ==> at[id].i < |at[id].chain| && at[id].chain[at[id].i] == id)
    && (forall id, j: nat {:trigger NodeAt(at, id, j)} :: id in at && j < |at[id].chain| ==>
          NodeAt(at, id, j) in at && at[NodeAt(at, id, j)] == Place(at[id].chain, j))
  }

  /** Chain members know their place. */
  lemma Placed(at: Layout, id: Id)
    requires Consistent(at) && id in at
    ensures forall j :: 0 <= j < |at[id].chain| ==>
              at[id].chain[j] in at && at[at[id].chain[j]] == Place(at[id].chain, j)
  {
    forall j | 0 <= j < |at[id].chain|
      ensures at[id].chain[j] in at && at[at[id].chain[j]] == Place(at[id].chain, j)
    {
      assert NodeAt(at, id, j) == at[id].chain[j];
    }
  }

  /** The graph is disjoint chains, each within one silo, and only chain heads are not superseded. */
  ghost predicate Linear(g: Graph, at: Layout) {
    && Consistent(at) && at.Keys == g.nodes.Keys
    && (forall e :: e in g.edges ==> e.0 in g.nodes && e.1 in g.nodes && g.nodes[e.0].silo == g.nodes[e.1].silo)
    && (forall id :: id in at ==> (g.nodes[id].stale <==> at[id].i < |at[id].chain| - 1))
    && Edged(g, at)
  }

  /** The edges are the steps of the chains. */
  ghost predicate Edged(g: Graph, at: Layout) {
    && (forall id {:trigger Below(at, id)} :: id in at && 0 < at[id].i <= |at[id].chain| ==>
          (id, Below(at, id)) in g.edges)
    && (forall e :: e in g.edges ==> e.0 in at && 0 < at[e.0].i <= |at[e.0].chain| && e.1 == at[e.0].chain[at[e.0].i - 1])
  }

  /** Two-hop lookup works along the chain. */
  ghost predicate Resolvable(g: Graph, c: seq<Id>) {
    && c != [] && c[0] in g.nodes && g.nodes[c[0]].tailId == None
    && g.nodes[c[0]].headId == (if |c| == 1 then None else Some(c[|c| - 1]))
    && forall i :: 0 < i < |c| ==> c[i] in g.nodes && g.nodes[c[i]].tailId == Some(c[0])
  }

  /**
   * The pointers of a chain that began without any in `g0`: they are kept by `c[p]`, which headed it then,
   * and by what was put on top of it since. A chain begun later is the case `p == 0`.
   */
  ghost predicate AnchoredAt(g0: Graph, g: Graph, c: seq<Id>, p: nat) {
    p < |c| && forall i: nat :: i < |c| ==> AnchoredNode(g0, g, c, p, i)
  }

  ghost predicate AnchoredNode(g0: Graph, g: Graph, c: seq<Id>, p: nat, i: nat)
    requires p < |c| && i < |c|
  {
    && c[i] in g.nodes && (Superseded(g0, c[i]) <==> i < p)
    && g.nodes[c[i]].tailId == (if i > p then Some(c[p]) else None)
    && (i < p ==> g.nodes[c[i]].headId == None)
    && (i == p ==> g.nodes[c[i]].headId == (if p == |c| - 1 then None else Some(c[|c| - 1])))
  }

  ghost predicate ChainAnchored(g0: Graph, g: Graph, c: seq<Id>) {
    exists p: nat :: AnchoredAt(g0, g, c, p)
  }

  /** Exactly the pointers incremental supersession leaves on a node. */
  ghost predicate Pointed(n: Node, p: Place)
    requires p.i < |p.chain|
  {
    && n.tailId == (if p.i > 0 then Some(p.chain[0]) else None)
    && n.headId == (if p.i == 0 && |p.chain| > 1 then Some(p.chain[|p.chain| - 1]) else None)
  }

  lemma Neighbours(g: Graph, at: Layout, id: Id)
    requires Linear(g, at) && id in at
    ensures var c, i := at[id].chain, at[id].i;
            && (forall e :: e in g.edges && e.1 == id ==> i + 1 < |c| && e.0 == c[i + 1])
            && (forall e :: e in g.edges && e.0 == id ==> 0 < i && e.1 == c[i - 1])
            && (Superseded(g, id) <==> i < |c| - 1)
            && (Supersedes(g, id) <==> 0 < i)
            && (i + 1 < |c| ==> (c[i + 1], id) in g.edges)
            && (0 < i ==> (id, c[i - 1]) in g.edges)
  {
    var c, i := at[id].chain, at[id].i;
    Placed(at, id);
    forall e | e in g.edges && e.1 == id ensures i + 1 < |c| && e.0 == c[i + 1] {
      Placed(at, e.0);
    }
    if i < |c| - 1 { assert Below(at, c[i + 1]) == id; }
    if 0 < i { assert Below(at, id) == c[i - 1]; }
  }

  lemma ChainIsUpward(g: Graph, at: Layout, id: Id)
    requires Linear(g, at) && id in at
    ensures var c := at[id].chain; Upward(g, c) && !Superseded(g, c[|c| - 1]) && !Supersedes(g, c[0])
  {
    var c := at[id].chain;
    Placed(at, id);
    forall k | 0 <= k < |c| - 1 ensures (c[k + 1], c[k]) in g.edges {
      Neighbours(g, at, c[k]);
    }
    Neighbours(g, at, c[|c| - 1]);
    Neighbours(g, at, c[0]);
  }

  /** A chain stays in one silo. */
  lemma {:induction false} ChainSilo(g: Graph, at: Layout, id: Id, j: nat)
    requires Linear(g, at) && id in at && j < |at[id].chain|
    ensures at[id].chain[j] in g.nodes && g.nodes[at[id].chain[j]].silo == g.nodes[id].silo
    decreases if j < at[id].i then at[id].i - j else j - at[id].i
  {
    Placed(at, id);
    var c, i := at[id].chain, at[id].i;
    if j < i {
      Neighbours(g, at, c[j + 1]);
      ChainSilo(g, at, id, j + 1);
      assert (c[j + 1], c[j]) in g.edges;
    } else if i < j {
      Neighbours(g, at, c[j]);
      ChainSilo(g, at, id, j - 1);
      assert (c[j], c[j - 1]) in g.edges;
    }
  }

  lemma WalksAlong(g: Graph, c: seq<Id>, i: nat)
    requires Upward(g, c) && i < |c| && !Superseded(g, c[|c| - 1]) && !Supersedes(g, c[0])
    ensures WalkToHead(g, c[i], c[i..]) && WalkFromTail(g, c[i], c[..i + 1])
  {
    forall k | 0 <= k < |c[i..]| - 1 ensures (c[i..][k + 1], c[i..][k]) in g.edges {
      assert (c[i + k + 1], c[i + k]) in g.edges;
    }
  }

  lemma ChainIsWalk(g: Graph, at: Layout, id: Id)
    requires Linear(g, at) && id in at
    ensures WalkToHead(g, id, at[id].chain[at[id].i..]) && WalkFromTail(g, id, at[id].chain[..at[id].i + 1])
  {
    ChainIsUpward(g, at, id);
    WalksAlong(g, at[id].chain, at[id].i);
  }

  /** In a linear graph the walk up from a node is the rest of its chain, and nothing else. */
  lemma {:induction false} HeadWalkUnique(g: Graph, at: Layout, id: Id, path: seq<Id>)
    requires Linear(g, at) && id in at && WalkToHead(g, id, path)
    ensures path == at[id].chain[at[id].i..]
    decreases |path|
  {
    Neighbours(g, at, id);
    var c, i := at[id].chain, at[id].i;
    if |path| > 1 {
      assert (path[1], path[0]) in g.edges;
      var rest := path[1..];
      forall k | 0 <= k < |rest| - 1 ensures (rest[k + 1], rest[k]) in g.edges {
        assert (path[k + 1 + 1], path[k + 1]) in g.edges;
      }
      HeadWalkUnique(g, at, path[1], rest);
      Placed(at, id);
      assert path == [id] + rest && c[i..] == [id] + c[i + 1..];
    }
  }

  lemma {:induction false} TailWalkUnique(g: Graph, at: Layout, id: Id, path: seq<Id>)
    requires Linear(g, at) && id in at && WalkFromTail(g, id, path)
    ensures path == at[id].chain[..at[id].i + 1]
    decreases |path|
  {
    Neighbours(g, at, id);
    var c, i, n := at[id].chain, at[id].i, |path|;
    if n > 1 {
      assert (path[n - 2 + 1], path[n - 2]) in g.edges;
      TailWalkUnique(g, at, path[n - 2], path[..n - 1]);
      Placed(at, id);
      assert path == path[..n - 1] + [id] && c[..i + 1] == c[..i] + [id];
    }
  }

  /** On a chain with right pointers, tail pointer and two-hop lookup give the ends of the unbounded walks. */
  lemma LookupAgreesWithWalk(g: Graph, at: Layout, id: Id, up: seq<Id>, down: seq<Id>)
    requires Linear(g, at) && id in at && Resolvable(g, at[id].chain)
    requires WalkToHead(g, id, up) && WalkFromTail(g, id, down)
    ensures Resolve(g, id) == Some(up[|up| - 1])
    ensures id != down[0] ==> g.nodes[id].tailId == Some(down[0])
    ensures up[|up| - 1] != down[0] ==> down[0] in g.nodes && g.nodes[down[0]].headId == Some(up[|up| - 1])
  {
    HeadWalkUnique(g, at, id, up);
    TailWalkUnique(g, at, id, down);
    Placed(at, id);
    ChainSilo(g, at, id, 0);
    ChainSilo(g, at, id, |at[id].chain| - 1);
  }

  /** On an anchored chain the lookup finds the head from the anchor upwards, and nothing from below it. */
  lemma AnchoredLookup(g0: Graph, g: Graph, at: Layout, id: Id)
    requires Linear(g, at) && id in at && ChainAnchored(g0, g, at[id].chain)
    ensures var c := at[id].chain; Resolve(g, id) == if Superseded(g0, id) then None else Some(c[|c| - 1])
  {
    var c := at[id].chain;
    var p: nat :| AnchoredAt(g0, g, c, p);
    Placed(at, id);
    ChainSilo(g, at, id, p);
    ChainSilo(g, at, id, |c| - 1);
    assert AnchoredNode(g0, g, c, p, at[id].i) && AnchoredNode(g0, g, c, p, p);
  }

  // --------------------------------------------------------- incremental writes

  datatype Op = NewNode(id: Id, silo: string) | Replace(newer: Id, older: Id, silo: string)

  /** Writers supersede the current head of a chain, and do so with a node that is in no chain yet. */
  predicate Permitted(g: Graph, op: Op) {
    match op
    case NewNode(id, _) => id !in g.nodes
    case Replace(newer, older, silo) =>
      && newer != older && In(g, newer, silo) && In(g, older, silo)
      && !Superseded(g, older) && !Superseded(g, newer) && !Supersedes(g, newer)
  }

  function Apply(g: Graph, op: Op): Graph {
    if !Permitted(g, op) then g
    else match op
         case NewNode(id, silo) => Create(g, id, silo)
         case Replace(newer, older, silo) => Supersede(g, newer, older, silo)
  }

  function Run(g: Graph, ops: seq<Op>): Graph {
    if ops == [] then g else Apply(Run(g, ops[..|ops| - 1]), ops[|ops| - 1])
  }

  /** Every chain is anchored where the pointerless graph `g0` left it. */
  ghost predicate Anchored(g0: Graph, g: Graph, at: Layout) {
    && Linear(g, at) && g0.nodes.Keys <= g.nodes.Keys
    && forall id {:trigger ChainAnchored(g0, g, at[id].chain)} :: id in at ==> ChainAnchored(g0, g, at[id].chain)
  }

  ghost predicate AllPointed(g: Graph, at: Layout) {
    Linear(g, at) && forall id :: id in at ==> Pointed(g.nodes[id], at[id])
  }

  lemma PointedIsResolvable(g: Graph, at: Layout)
    requires AllPointed(g, at)
    ensures forall id :: id in at ==> Resolvable(g, at[id].chain)
  {
    forall id | id in at ensures Resolvable(g, at[id].chain) {
      var c := at[id].chain;
      Placed(at, id);
      assert Pointed(g.nodes[c[0]], at[c[0]]);
      forall i | 0 < i < |c| ensures c[i] in g.nodes && g.nodes[c[i]].tailId == Some(c[0]) {
        assert Pointed(g.nodes[c[i]], at[c[i]]);
      }
    }
  }

  lemma CreateKeepsLinear(g: Graph, at: Layout, id: Id, silo: string)
    requires Linear(g, at) && id !in g.nodes
    ensures Linear(Create(g, id, silo), at[id := Place([id], 0)])
  {
    var h, after := Create(g, id, silo), at[id := Place([id], 0)];
    forall x, j: nat {:trigger NodeAt(after, x, j)} | x in after && j < |after[x].chain|
      ensures NodeAt(after, x, j) in after && after[NodeAt(after, x, j)] == Place(after[x].chain, j)
    {
      if x in at { assert NodeAt(after, x, j) == NodeAt(at, x, j); }
    }
    forall x {:trigger Below(after, x)} | x in after && 0 < after[x].i ensures (x, Below(after, x)) in h.edges {
      assert Below(after, x) == Below(at, x);
    }
  }

  lemma SameNodes(g0: Graph, g: Graph, h: Graph, c: seq<Id>)
    requires forall i :: 0 <= i < |c| && c[i] in g.nodes ==> c[i] in h.nodes && h.nodes[c[i]] == g.nodes[c[i]]
    requires ChainAnchored(g0, g, c)
    ensures ChainAnchored(g0, h, c)
  {
    var p: nat :| AnchoredAt(g0, g, c, p);
    forall i: nat | i < |c| ensures AnchoredNode(g0, h, c, p, i) { assert AnchoredNode(g0, g, c, p, i); }
    assert AnchoredAt(g0, h, c, p);
  }

  lemma CreateKeeps(g0: Graph, at0: Layout, g: Graph, at: Layout, id: Id, silo: string)
    requires Linear(g0, at0) && Anchored(g0, g, at) && id !in g.nodes
    ensures var h, after := Create(g, id, silo), at[id := Place([id], 0)];
            Anchored(g0, h, after) && (AllPointed(g, at) ==> AllPointed(h, after))
  {
    CreateKeepsLinear(g, at, id, silo);
    var h, after := Create(g, id, silo), at[id := Place([id], 0)];
    forall x | x in after ensures ChainAnchored(g0, h, after[x].chain) {
      if x == id {
        assert AnchoredNode(g0, h, [id], 0, 0) && AnchoredAt(g0, h, [id], 0);
      } else {
        assert ChainAnchored(g0, g, at[x].chain);
        SameNodes(g0, g, h, at[x].chain);
      }
    }
    if AllPointed(g, at) {
      forall x | x in after ensures Pointed(h.nodes[x], after[x]) {}
    }
  }

  /** The layout after `newer` joins the chain headed by `older`. */
  function Joined(at: Layout, older: Id, newer: Id): Layout
    requires older in at
  {
    var c := at[older].chain;
    map id | id in at :: if id == newer then Place(c + [newer], |c|)
                         else if at[id].chain == c then Place(c + [newer], at[id].i) else at[id]
  }

  /** What a supersession writes: pointers of the new node and of the derived tail, and one stale mark. */
  lemma SupersedeWrites(g: Graph, newer: Id, older: Id, silo: string)
    requires In(g, newer, silo) && In(g, older, silo) && newer != older && g.nodes[newer].tailId == None
    ensures var h := Supersede(g, newer, older, silo);
            var tail := g.nodes[older].tailId.GetOr(older);
            && h.nodes.Keys == g.nodes.Keys && h.edges == g.edges + {(newer, older)}
            && h.nodes[newer].tailId == Some(tail)
            && forall x :: x in g.nodes ==> (
                 && h.nodes[x].silo == g.nodes[x].silo
                 && (h.nodes[x].stale <==> g.nodes[x].stale || x == older)
                 && (x != newer ==> h.nodes[x].tailId == g.nodes[x].tailId)
                 && (x != tail ==> h.nodes[x].headId == g.nodes[x].headId)
                 && (x == tail && g.nodes[x].silo == silo ==> h.nodes[x].headId == Some(newer)))
  {}

  /** The superseded node heads its chain; the new one is a chain by itself. */
  ghost predicate Joinable(g: Graph, at: Layout, older: Id, newer: Id, silo: string) {
    && Linear(g, at) && older in at && newer in at && at[newer] == Place([newer], 0) && newer != older
    && at[older].i == |at[older].chain| - 1 && g.nodes[newer].silo == silo && g.nodes[older].silo == silo
    && g.nodes[newer].tailId == None && g.nodes[newer].headId == None
  }

  /** A node in no chain has no pointers, and the old history did not supersede it. */
  lemma AloneAnchored(g0: Graph, g: Graph, at: Layout, id: Id)
    requires Anchored(g0, g, at) && id in at && at[id].chain == [id]
    ensures id in g.nodes && g.nodes[id].tailId == None && g.nodes[id].headId == None && !Superseded(g0, id)
  {
    assert ChainAnchored(g0, g, at[id].chain);
    var p: nat :| AnchoredAt(g0, g, [id], p);
    assert AnchoredNode(g0, g, [id], p, 0);
  }

  lemma PermittedIsJoinable(g0: Graph, g: Graph, at: Layout, op: Op)
    requires Anchored(g0, g, at) && op.Replace? && Permitted(g, op)
    ensures Joinable(g, at, op.older, op.newer, op.silo)
  {
    Neighbours(g, at, op.older);
    Neighbours(g, at, op.newer);
    assert at[op.newer].chain == [op.newer];
    AloneAnchored(g0, g, at, op.newer);
  }

  lemma JoinedIsConsistent(at: Layout, older: Id, newer: Id)
    requires Consistent(at) && older in at && newer in at && at[newer] == Place([newer], 0) && newer != older
    requires at[older].i == |at[older].chain| - 1
    ensures Consistent(Joined(at, older, newer))
    ensures newer !in at[older].chain
  {
    var c, after := at[older].chain, Joined(at, older, newer);
    Placed(at, older);
    forall id, j: nat {:trigger NodeAt(after, id, j)} | id in after && j < |after[id].chain|
      ensures NodeAt(after, id, j) in after && after[NodeAt(after, id, j)] == Place(after[id].chain, j)
    {
      if id != newer && at[id].chain != c {
        assert NodeAt(after, id, j) == NodeAt(at, id, j);
      } else if j < |c| {
        assert NodeAt(after, id, j) == NodeAt(at, older, j);
      }
    }
  }

  lemma JoinKeepsLinear(g: Graph, at: Layout, older: Id, newer: Id, silo: string)
    requires Joinable(g, at, older, newer, silo)
    ensures Linear(Supersede(g, newer, older, silo), Joined(at, older, newer))
  {
    var h, after := Supersede(g, newer, older, silo), Joined(at, older, newer);
    assert Consistent(after) by { JoinedIsConsistent(at, older, newer); }
    SupersedeWrites(g, newer, older, silo);
    JoinStale(g, h, at, older, newer);
    assert Edged(h, after) by {
      JoinBelow(at, older, newer);
      JoinEdges(g, h, at, after, older, newer);
    }
  }

  lemma JoinStale(g: Graph, h: Graph, at: Layout, older: Id, newer: Id)
    requires Linear(g, at) && older in at && newer in at && at[newer] == Place([newer], 0) && newer != older
    requires at[older].i == |at[older].chain| - 1 && h.nodes.Keys == g.nodes.Keys
    requires forall x :: x in g.nodes ==> (h.nodes[x].stale <==> g.nodes[x].stale || x == older)
    ensures var after := Joined(at, older, newer);
            forall id :: id in after ==> (h.nodes[id].stale <==> after[id].i < |after[id].chain| - 1)
  {
    var after, c := Joined(at, older, newer), at[older].chain;
    forall id | id in after ensures h.nodes[id].stale <==> after[id].i < |after[id].chain| - 1 {
      assert c[|c| - 1] == older;
      assert g.nodes[id].stale <==> at[id].i < |at[id].chain| - 1;
      assert at[id].chain[at[id].i] == id;
    }
  }

  lemma JoinBelow(at: Layout, older: Id, newer: Id)
    requires Consistent(at) && older in at && newer in at && at[older].i == |at[older].chain| - 1
    ensures var after := Joined(at, older, newer);
            forall id :: id in after && 0 < after[id].i ==>
              after[id].i <= |after[id].chain| && (id != newer ==> at[id].i <= |at[id].chain|)
              && after[id].chain[after[id].i - 1] == if id == newer then older else at[id].chain[at[id].i - 1]
  {
    var after, c := Joined(at, older, newer), at[older].chain;
    var long := c + [newer];
    assert long[|c| - 1] == older;
    forall id | id in after && 0 < after[id].i && id != newer && at[id].chain == c
      ensures long[at[id].i - 1] == c[at[id].i - 1]
    {}
  }

  lemma JoinEdges(g: Graph, h: Graph, at: Layout, after: Layout, older: Id, newer: Id)
    requires Linear(g, at) && Consistent(after) && after.Keys == at.Keys && newer in at && older in at && newer != older
    requires h.edges == g.edges + {(newer, older)} && at[newer].i == 0 && after[newer].i > 0
    requires forall id :: id in at && id != newer ==> after[id].i == at[id].i
    requires forall id :: id in after && 0 < after[id].i ==>
               after[id].chain[after[id].i - 1] == if id == newer then older else at[id].chain[at[id].i - 1]
    ensures Edged(h, after)
  {
    forall id {:trigger Below(after, id)} | id in after && 0 < after[id].i ensures (id, Below(after, id)) in h.edges {
      if id != newer { assert Below(after, id) == Below(at, id); }
    }
  }

  /** Off the joined chain and its new member, nothing changes. */
  lemma JoinFrame(g: Graph, at: Layout, older: Id, newer: Id, silo: string, id: Id)
    requires Joinable(g, at, older, newer, silo) && id in at && id != newer && at[id].chain != at[older].chain
    requires g.nodes[older].tailId.GetOr(older) in at[older].chain
    ensures var h, d := Supersede(g, newer, older, silo), at[id].chain;
            && Joined(at, older, newer)[id] == at[id]
            && forall k :: 0 <= k < |d| ==> d[k] in g.nodes && h.nodes[d[k]] == g.nodes[d[k]]
  {
    SupersedeWrites(g, newer, older, silo);
    Placed(at, id);
    Placed(at, older);
    var c, d, tail := at[older].chain, at[id].chain, g.nodes[older].tailId.GetOr(older);
    var j :| 0 <= j < |c| && c[j] == tail;
    forall k | 0 <= k < |d| ensures d[k] != tail && d[k] != older && d[k] != newer {
      assert at[d[k]] == Place(d, k);
    }
  }

  lemma JoinExtendsAnchored(g0: Graph, g: Graph, at: Layout, older: Id, newer: Id, silo: string, p: nat)
    requires Joinable(g, at, older, newer, silo) && AnchoredAt(g0, g, at[older].chain, p) && !Superseded(g0, newer)
    ensures g.nodes[older].tailId.GetOr(older) == at[older].chain[p]
    ensures AnchoredAt(g0, Supersede(g, newer, older, silo), at[older].chain + [newer], p)
  {
    SupersedeWrites(g, newer, older, silo);
    JoinedIsConsistent(at, older, newer);
    ChainSilo(g, at, older, p);
    var c, h := at[older].chain, Supersede(g, newer, older, silo);
    assert AnchoredNode(g0, g, c, p, |c| - 1) && c[|c| - 1] == older;
    ChainDistinct(at, older);
    forall i | 0 <= i < |c| ensures c[i] in g.nodes && c[i] != newer && (i != p ==> c[i] != c[p]) {
      assert AnchoredNode(g0, g, c, p, i) && c[i] in c;
    }
    OneMoreOnTop(g0, g, h, c, newer, p);
  }

  lemma ChainDistinct(at: Layout, id: Id)
    requires Consistent(at) && id in at
    ensures Distinct(at[id].chain)
  {
    Placed(at, id);
  }

  lemma OneMoreOnTop(g0: Graph, g: Graph, h: Graph, c: seq<Id>, newer: Id, p: nat)
    requires AnchoredAt(g0, g, c, p) && newer !in c && Distinct(c) && !Superseded(g0, newer) && newer in h.nodes
    requires forall i :: 0 <= i < |c| ==>
               c[i] in g.nodes && c[i] in h.nodes && h.nodes[c[i]].tailId == g.nodes[c[i]].tailId
               && (i != p ==> h.nodes[c[i]].headId == g.nodes[c[i]].headId)
    requires h.nodes[newer].tailId == Some(c[p]) && h.nodes[c[p]].headId == Some(newer)
    ensures AnchoredAt(g0, h, c + [newer], p)
  {
    var long := c + [newer];
    forall i: nat | i < |long| ensures AnchoredNode(g0, h, long, p, i) {
      if i < |c| { assert long[i] == c[i] && AnchoredNode(g0, g, c, p, i); }
    }
  }

  /** Superseding keeps every chain anchored where it was. */
  lemma JoinKeepsAnchored(g0: Graph, g: Graph, at: Layout, older: Id, newer: Id, silo: string)
    requires Anchored(g0, g, at) && Joinable(g, at, older, newer, silo)
    ensures Anchored(g0, Supersede(g, newer, older, silo), Joined(at, older, newer))
  {
    JoinKeepsLinear(g, at, older, newer, silo);
    SupersedeWrites(g, newer, older, silo);
    var h, after, c := Supersede(g, newer, older, silo), Joined(at, older, newer), at[older].chain;
    assert ChainAnchored(g0, g, c);
    var p: nat :| AnchoredAt(g0, g, c, p);
    AloneAnchored(g0, g, at, newer);
    JoinExtendsAnchored(g0, g, at, older, newer, silo, p);
    assert ChainAnchored(g0, h, c + [newer]);
    forall id | id in after ensures ChainAnchored(g0, h, after[id].chain) {
      if id != newer && at[id].chain != c {
        JoinFrame(g, at, older, newer, silo, id);
        assert ChainAnchored(g0, g, at[id].chain);
        SameNodes(g0, g, h, at[id].chain);
      } else {
        assert after[id].chain == c + [newer];
      }
    }
  }

  lemma JoinKeepsPointed(g: Graph, at: Layout, older: Id, newer: Id, silo: string)
    requires AllPointed(g, at) && Joinable(g, at, older, newer, silo)
    ensures AllPointed(Supersede(g, newer, older, silo), Joined(at, older, newer))
  {
    JoinKeepsLinear(g, at, older, newer, silo);
    SupersedeWrites(g, newer, older, silo);
    JoinedIsConsistent(at, older, newer);
    ChainSilo(g, at, older, 0);
    Placed(at, older);
    var h, after, c := Supersede(g, newer, older, silo), Joined(at, older, newer), at[older].chain;
    assert g.nodes[older].tailId.GetOr(older) == c[0] by { assert Pointed(g.nodes[older], at[older]); }
    assert (c + [newer])[0] == c[0] && (c + [newer])[|c|] == newer;
    forall id | id in after ensures Pointed(h.nodes[id], after[id]) {
      assert Pointed(g.nodes[id], at[id]);
      if id != newer && at[id].chain != c {
        JoinFrame(g, at, older, newer, silo, id);
        assert at[id].chain[at[id].i] == id;
      }
    }
  }

  lemma ApplyKeeps(g0: Graph, at0: Layout, g: Graph, at: Layout, op: Op) returns (after: Layout)
    requires Linear(g0, at0) && Anchored(g0, g, at)
    ensures Anchored(g0, Apply(g, op), after)
    ensures AllPointed(g, at) ==> AllPointed(Apply(g, op), after)
  {
    after := at;
    if Permitted(g, op) {
      match op
      case NewNode(id, silo) =>
        CreateKeeps(g0, at0, g, at, id, silo);
        after := at[id := Place([id], 0)];
      case Replace(newer, older, silo) =>
        PermittedIsJoinable(g0, g, at, op);
        JoinKeepsAnchored(g0, g, at, older, newer, silo);
        after := Joined(at, older, newer);
        if AllPointed(g, at) {
          JoinKeepsPointed(g, at, older, newer, silo);
        }
    }
  }

  /** The pointers erased, the edges kept. */
  function Strip(g: Graph): Graph {
    g.(nodes := map id | id in g.nodes :: g.nodes[id].(tailId := None, headId := None))
  }

  /** A graph without pointers is anchored at its heads. */
  lemma StartsAnchored(g0: Graph, at0: Layout)
    requires Linear(g0, at0) && Strip(g0) == g0
    ensures Anchored(g0, g0, at0)
  {
    assert forall x :: x in g0.nodes ==> Strip(g0).nodes[x] == g0.nodes[x];
    forall id | id in at0 ensures ChainAnchored(g0, g0, at0[id].chain) {
      var c := at0[id].chain;
      Placed(at0, id);
      var p := |c| - 1;
      forall i: nat | i < |c| ensures AnchoredNode(g0, g0, c, p, i) {
        Neighbours(g0, at0, c[i]);
      }
      assert AnchoredAt(g0, g0, c, p);
    }
  }

  lemma {:induction false} RunKeeps(g0: Graph, at0: Layout, ops: seq<Op>) returns (after: Layout)
    requires Linear(g0, at0) && Strip(g0) == g0
    ensures Anchored(g0, Run(g0, ops), after)
    ensures AllPointed(g0, at0) ==> AllPointed(Run(g0, ops), after)
  {
    if ops == [] {
      StartsAnchored(g0, at0);
      after := at0;
    } else {
      var before := RunKeeps(g0, at0, ops[..|ops| - 1]);
      after := ApplyKeeps(g0, at0, Run(g0, ops[..|ops| - 1]), before, ops[|ops| - 1]);
    }
  }

  /**
   * Supersessions on top of a history without pointers: before any backfill the lookup gives the end of
   * the walk exactly for the nodes that history had not superseded, and no answer for the others.
   */
  lemma LookupOnPointerlessHistory(g0: Graph, at0: Layout, ops: seq<Op>, id: Id, up: seq<Id>)
    requires Linear(g0, at0) && Strip(g0) == g0
    requires var g := Run(g0, ops); id in g.nodes && WalkToHead(g, id, up)
    ensures Resolve(Run(g0, ops), id) == Some(up[|up| - 1]) <==> !Superseded(g0, id)
    ensures Superseded(g0, id) ==> Resolve(Run(g0, ops), id) == None
  {
    var at := RunKeeps(g0, at0, ops);
    HeadWalkUnique(Run(g0, ops), at, id, up);
    assert ChainAnchored(g0, Run(g0, ops), at[id].chain);
    AnchoredLookup(g0, Run(g0, ops), at, id);
  }

  const EMPTY := Graph(map[], {})

  lemma AllPointedAlways(ops: seq<Op>) returns (at: Layout)
    ensures AllPointed(Run(EMPTY, ops), at)
  {
    assert AllPointed(EMPTY, map[]) && Strip(EMPTY) == EMPTY;
    at := RunKeeps(EMPTY, map[], ops);
  }

  /** After any supersessions from an empty graph, two-hop lookup and pointers agree with every walk. */
  lemma PointersAlwaysAgree(ops: seq<Op>, id: Id, up: seq<Id>, down: seq<Id>)
    requires var g := Run(EMPTY, ops); id in g.nodes && WalkToHead(g, id, up) && WalkFromTail(g, id, down)
    ensures var g := Run(EMPTY, ops);
            && Resolve(g, id) == Some(up[|up| - 1])
            && (id != down[0] ==> g.nodes[id].tailId == Some(down[0]))
            && (up[|up| - 1] != down[0] ==> down[0] in g.nodes && g.nodes[down[0]].headId == Some(up[|up| - 1]))
  {
    var at := AllPointedAlways(ops);
    var g := Run(EMPTY, ops);
    PointedIsResolvable(g, at);
    LookupAgreesWithWalk(g, at, id, up, down);
  }

  /** A node that heads a chain is replaced by one in no chain: from then on every node of the chain resolves to it. */
  lemma SupersedingTakesOver(ops: seq<Op>, newer: Id, older: Id, silo: string, id: Id, up: seq<Id>)
    requires var g := Run(EMPTY, ops);
             && newer != older && In(g, newer, silo) && In(g, older, silo)
             && (forall e :: e in g.edges ==> e.1 != older && e.1 != newer && e.0 != newer)
             && id in g.nodes && WalkToHead(g, id, up) && up[|up| - 1] == older
    ensures var h := Run(EMPTY, ops + [Replace(newer, older, silo)]);
            id in h.nodes && Resolve(h, id) == Some(newer) && newer in h.nodes && Resolve(h, newer) == Some(newer)
  {
    var g, op := Run(EMPTY, ops), Replace(newer, older, silo);
    assert !Superseded(g, older) && !Superseded(g, newer) && !Supersedes(g, newer) && Permitted(g, op);
    assert (ops + [op])[..|ops|] == ops;
    var at := AllPointedAlways(ops);
    HeadWalkUnique(g, at, id, up);
    Neighbours(g, at, newer);
    assert Pointed(g.nodes[newer], at[newer]) && at[newer].chain == [newer];
    SameChain(at, id, older);
    JoinKeepsPointed(g, at, older, newer, silo);
    var h, after := Supersede(g, newer, older, silo), Joined(at, older, newer);
    HeadOfPointed(h, after, id);
    HeadOfPointed(h, after, newer);
  }

  lemma SameChain(at: Layout, id: Id, head: Id)
    requires Consistent(at) && id in at && at[id].chain[|at[id].chain| - 1] == head
    ensures head in at && at[head] == Place(at[id].chain, |at[id].chain| - 1)
  {
    Placed(at, id);
  }

  lemma HeadOfPointed(g: Graph, at: Layout, id: Id)
    requires AllPointed(g, at) && id in at
    ensures Resolve(g, id) == Some(at[id].chain[|at[id].chain| - 1])
  {
    PointedIsResolvable(g, at);
    ChainIsWalk(g, at, id);
    LookupAgreesWithWalk(g, at, id, at[id].chain[at[id].i..], at[id].chain[..at[id].i + 1]);
  }

  /** A new node is in the graph, in no chain, and resolves to itself. */
  lemma CreatedNode(ops: seq<Op>, id: Id, silo: string)
    requires id !in Run(EMPTY, ops).nodes
    ensures var h := Run(EMPTY, ops + [NewNode(id, silo)]);
            In(h, id, silo) && h.edges == Run(EMPTY, ops).edges && Resolve(h, id) == Some(id)
  {
    assert (ops + [NewNode(id, silo)])[..|ops|] == ops;
  }

  /** In any graph: superseding needs both nodes in the silo, and a tail pointer once set never changes. */
  lemma TailPointersStay(g: Graph, newer: Id, older: Id, silo: string)
    ensures var h := Supersede(g, newer, older, silo);
            && (!(In(g, newer, silo) && In(g, older, silo)) ==> h == g)
            && (In(g, newer, silo) && In(g, older, silo) ==>
                  && h.edges == g.edges + {(newer, older)} && h.nodes[older].stale && h.nodes[newer].tailId.Some?
                  && (newer != older && g.nodes[newer].tailId.None? ==>
                        h.nodes[newer].tailId == Some(g.nodes[older].tailId.GetOr(older))))
            && forall x :: x in g.nodes && g.nodes[x].tailId.Some? ==>
                 x in h.nodes && h.nodes[x].tailId == g.nodes[x].tailId
  {}

  /** In any graph: the answer is a current node of the same silo, and a pointer out of the silo is not followed. */
  lemma ResolveStaysInSilo(g: Graph, id: Id)
    requires id in g.nodes
    ensures var n, r := g.nodes[id], Resolve(g, id);
            && (r.Some? ==> In(g, r.value, n.silo) && !g.nodes[r.value].stale)
            && (n.tailId.Some? && !In(g, n.tailId.value, n.silo) ==> r == if n.stale then None else Some(id))
  {}

  // --------------------------------------------------------------- backfill

  /** Waiting for the backfill: a superseded tail of this silo with no head pointer. */
  predicate TailPending(g: Graph, id: Id, silo: string) {
    In(g, id, silo) && g.nodes[id].headId == None && Superseded(g, id) && !Supersedes(g, id)
  }

  function PendingTails(g: Graph, silo: string): set<Id> {
    set id | id in g.nodes && TailPending(g, id, silo)
  }

  /** A node once BACKFILL_CHAIN has run on its chain. */
  function Filled(n: Node, p: Place): Node
    requires p.i < |p.chain|
  {
    if p.i == 0 then n.(headId := Some(p.chain[|p.chain| - 1])) else n.(tailId := Some(p.chain[0]))
  }

  /** `h` is `g` with exactly the chains whose tail is in `tails` filled in. */
  ghost predicate FilledIn(g: Graph, h: Graph, at: Layout, tails: set<Id>)
    requires Consistent(at)
  {
    && h.edges == g.edges && h.nodes.Keys == g.nodes.Keys == at.Keys
    && forall id :: id in at ==>
         h.nodes[id] == if at[id].chain[0] in tails then Filled(g.nodes[id], at[id]) else g.nodes[id]
  }

  lemma PendingIsTail(g: Graph, at: Layout, silo: string, id: Id)
    requires Linear(g, at)
    ensures TailPending(g, id, silo) <==>
              In(g, id, silo) && at[id].i == 0 && |at[id].chain| > 1 && g.nodes[id].headId == None
  {
    if id in at { Neighbours(g, at, id); }
  }

  /** BACKFILL_CHAIN's writes, given the path it matched. */
  function SetPointers(g: Graph, path: seq<Id>): Graph
    requires path != []
  {
    g.(nodes := map id | id in g.nodes ::
         if id == path[0] then g.nodes[id].(headId := Some(path[|path| - 1]))
         else if id in path then g.nodes[id].(tailId := Some(path[0])) else g.nodes[id])
  }

  lemma SetPointersFills(g: Graph, at: Layout, tail: Id)
    requires Linear(g, at) && tail in at && at[tail].i == 0
    ensures FilledIn(g, SetPointers(g, at[tail].chain), at, {tail})
  {
    var c := at[tail].chain;
    Placed(at, tail);
    forall id | id in at ensures id in c <==> at[id].chain[0] == tail {
      if id in c {
        var k :| 0 <= k < |c| && c[k] == id;
        assert at[id] == Place(c, k);
      }
      Placed(at, id);
    }
    assert forall id :: id in at && id in c ==> at[id].chain == c;
    forall id | id in at && id in c ensures at[id].i == 0 <==> id == tail {}
  }

  lemma FilledKeepsLinear(g: Graph, h: Graph, at: Layout, tails: set<Id>)
    requires Linear(g, at) && FilledIn(g, h, at, tails)
    ensures Linear(h, at)
  {}

  /** After the backfill every chain of the silo is resolvable, wherever it was anchored. */
  lemma BackfillResolves(g0: Graph, g: Graph, h: Graph, at: Layout, silo: string, id: Id)
    requires Anchored(g0, g, at) && In(g, id, silo) && FilledIn(g, h, at, PendingTails(g, silo))
    ensures Linear(h, at) && Resolvable(h, at[id].chain)
  {
    FilledKeepsLinear(g, h, at, PendingTails(g, silo));
    var c := at[id].chain;
    Placed(at, id);
    ChainSilo(g, at, id, 0);
    PendingIsTail(g, at, silo, c[0]);
    assert ChainAnchored(g0, g, c);
    var p: nat :| AnchoredAt(g0, g, c, p);
    assert AnchoredNode(g0, g, c, p, 0);
    assert c[0] in PendingTails(g, silo) <==> p > 0;
    forall i | 0 < i < |c| ensures c[i] in h.nodes && h.nodes[c[i]].tailId == Some(c[0]) {
      assert AnchoredNode(g0, g, c, p, i) && at[c[i]] == Place(c, i);
    }
  }

  /** A linear graph is cut into chains in only one way. */
  lemma LayoutUnique(g: Graph, at: Layout, other: Layout)
    requires Linear(g, at) && Linear(g, other)
    ensures at == other
  {
    forall id | id in at ensures at[id] == other[id] {
      ChainIsWalk(g, at, id);
      var c, i := at[id].chain, at[id].i;
      HeadWalkUnique(g, other, id, c[i..]);
      TailWalkUnique(g, other, id, c[..i + 1]);
      SameParts(c, i, other[id].chain, other[id].i);
    }
  }

  lemma SameParts(c: seq<Id>, i: nat, d: seq<Id>, j: nat)
    requires i < |c| && j < |d| && c[i..] == d[j..] && c[..i + 1] == d[..j + 1]
    ensures c == d && i == j
  {
    assert |c[..i + 1]| == |d[..j + 1]|;
    assert c == c[..i] + c[i..] && d == d[..j] + d[j..];
    assert c[..i] == c[..i + 1][..i] && d[..j] == d[..j + 1][..j];
  }

  /** From the edges alone the backfill rebuilds exactly the pointers that incremental supersession left. */
  lemma BackfillRebuilds(ops: seq<Op>, at: Layout, h: Graph, silo: string, id: Id)
    requires In(Run(EMPTY, ops), id, silo) && Linear(Strip(Run(EMPTY, ops)), at)
    requires FilledIn(Strip(Run(EMPTY, ops)), h, at, PendingTails(Strip(Run(EMPTY, ops)), silo))
    ensures id in h.nodes && h.nodes[id] == Run(EMPTY, ops).nodes[id]
  {
    var g := Run(EMPTY, ops);
    var mine := AllPointedAlways(ops);
    assert Linear(Strip(g), mine);
    LayoutUnique(Strip(g), at, mine);
    var c := at[id].chain;
    Placed(at, id);
    ChainSilo(g, at, id, 0);
    PendingIsTail(Strip(g), at, silo, c[0]);
    assert Pointed(g.nodes[id], at[id]);
  }

  /**
   * Pointerless history, then incremental supersessions, then the backfill: every lookup in the silo
   * is the end of the walk.
   */
  lemma BackfillAfterMixedHistory(g0: Graph, at0: Layout, ops: seq<Op>, at: Layout, h: Graph,
                                  silo: string, id: Id, up: seq<Id>)
    requires Linear(g0, at0) && Strip(g0) == g0
    requires var g := Run(g0, ops); Linear(g, at) && In(g, id, silo) && FilledIn(g, h, at, PendingTails(g, silo))
    requires WalkToHead(h, id, up)
    ensures id in h.nodes && Resolve(h, id) == Some(up[|up| - 1])
  {
    var g := Run(g0, ops);
    var mine := RunKeeps(g0, at0, ops);
    LayoutUnique(g, at, mine);
    BackfillResolves(g0, g, h, at, silo, id);
    ChainIsWalk(h, at, id);
    LookupAgreesWithWalk(h, at, id, up, at[id].chain[..at[id].i + 1]);
  }

  class ChainBackfill {
    var g: Graph

    constructor (g: Graph)
      ensures this.g == g
    {
      this.g := g;
    }

    /** The LIMIT clause of FIND_CHAIN_TAILS: at most `limit` of the matching tails, in any order. */
    static method Limit(rows: set<Id>, limit: nat) returns (tails: seq<Id>)
      ensures Distinct(tails) && |tails| <= limit
      ensures forall id :: id in tails ==> id in rows
      ensures |tails| < limit ==> forall id :: id in rows ==> id in tails
      ensures tails == [] && 0 < limit ==> rows == {}
    {
      tails := [];
      var rest := rows;
      while rest != {} && |tails| < limit
        invariant Distinct(tails) && |tails| <= limit && rest <= rows
        invariant forall id :: id in rows <==> id in tails || id in rest
        invariant forall id :: id in tails ==> id !in rest
        decreases rest
      {
        var id :| id in rest;
        tails, rest := tails + [id], rest - {id};
      }
    }

    /** BACKFILL_CHAIN: walk up from the tail, then set the pointers of the nodes walked. */
    method BackfillChain(tail: Id, silo: string, ghost at: Layout)
      requires Linear(g, at) && TailPending(g, tail, silo)
      modifies this
      ensures FilledIn(old(g), g, at, {tail})
    {
      ghost var c := at[tail].chain;
      PendingIsTail(g, at, silo, tail);
      Placed(at, tail);
      var path := [tail];
      while Superseded(g, path[|path| - 1])
        invariant g == old(g)
        invariant 1 <= |path| <= |c| && path == c[..|path|]
        decreases |c| - |path|
      {
        Neighbours(g, at, path[|path| - 1]);
        var e :| e in g.edges && e.1 == path[|path| - 1];
        path := path + [e.0];
      }
      Neighbours(g, at, path[|path| - 1]);
      assert path == c;
      forall i | 0 <= i < |c| ensures In(g, c[i], silo) { ChainSilo(g, at, tail, i); }
      SetPointersFills(g, at, tail);
      if forall i :: 0 <= i < |path| ==> In(g, path[i], silo) {
        g := SetPointers(g, path);
      }
    }

    /** One round: backfills each of the tails found. `g0` and `done` remember where the whole run started. */
    method BackfillBatch(tails: seq<Id>, silo: string, ghost at: Layout, ghost g0: Graph, ghost done: set<Id>)
      requires Linear(g0, at) && FilledIn(g0, g, at, done)
      requires Distinct(tails) && forall id :: id in tails ==> id in PendingTails(g0, silo) - done
      modifies this
      ensures FilledIn(g0, g, at, done + Elements(tails))
    {
      Prefixes(tails, 0, done);
      var k := 0;
      while k < |tails|
        invariant k <= |tails| && FilledIn(g0, g, at, done + FirstOf(tails, k))
      {
        Prefixes(tails, k, done);
        ghost var g1 := g;
        PendingAfter(g0, g, at, silo, done + FirstOf(tails, k));
        assert tails[k] in PendingTails(g, silo);
        BackfillChain(tails[k], silo, at);
        FillsCompose(g0, g1, g, at, done + FirstOf(tails, k), tails[k]);
        k := k + 1;
      }
      Prefixes(tails, k, done);
    }

    /** One query and its batch; the round that finds nothing is the last. */
    method BackfillRound(silo: string, ghost at: Layout, ghost g0: Graph, ghost all: set<Id>, ghost done: set<Id>)
      returns (count: nat, ghost after: set<Id>)
      requires Linear(g0, at) && FilledIn(g0, g, at, done) && all == PendingTails(g0, silo) && done <= all
      modifies this
      ensures FilledIn(g0, g, at, after) && after <= all
      ensures |after| == |done| + count && |after| <= |all| && (count == 0 ==> after == all)
    {
      var rows := PendingTails(g, silo);
      assert rows == all - done by { PendingAfter(g0, g, at, silo, done); }
      var tails := Limit(rows, 100);
      after := done + Elements(tails);
      ListSize(tails, Elements(tails));
      RoundGrows(all, done, Elements(tails));
      count := |tails|;
      BackfillBatch(tails, silo, at, g0, done);
    }

    /**
     * Terminates, since every round gives at least one pending tail its head pointer; fills in exactly
     * the silo's chains whose tail had none, whatever order tails come back in, and counts them.
     */
    method BackfillSilo(silo: string, ghost at: Layout) returns (total: nat)
      requires Linear(g, at)
      modifies this
      ensures FilledIn(old(g), g, at, PendingTails(old(g), silo))
      ensures total == |PendingTails(old(g), silo)|
    {
      total := 0;
      ghost var g0, all, done: set<Id> := g, PendingTails(g, silo), {};
      while true
        invariant FilledIn(g0, g, at, done) && done <= all && total == |done| <= |all|
        decreases |all| - total
      {
        var count;
        count, done := BackfillRound(silo, at, g0, all, done);
        total := total + count;
        if count == 0 {
          break;
        }
      }
    }
  }

  /** Backfilling some pending tails leaves exactly the others pending. */
  lemma PendingAfter(g0: Graph, g: Graph, at: Layout, silo: string, done: set<Id>)
    requires Linear(g0, at) && FilledIn(g0, g, at, done)
    ensures Linear(g, at)
    ensures PendingTails(g, silo) == PendingTails(g0, silo) - done
  {
    FilledKeepsLinear(g0, g, at, done);
    forall id ensures id in PendingTails(g, silo) <==> id in PendingTails(g0, silo) - done {
      PendingIsTail(g0, at, silo, id);
      PendingIsTail(g, at, silo, id);
    }
  }

  lemma FillsCompose(g0: Graph, g: Graph, h: Graph, at: Layout, done: set<Id>, tail: Id)
    requires Consistent(at) && FilledIn(g0, g, at, done) && FilledIn(g, h, at, {tail}) && tail !in done
    ensures FilledIn(g0, h, at, done + {tail})
  {}

  ghost function Elements(s: seq<Id>): set<Id> { set x | x in s }

  ghost function FirstOf(s: seq<Id>, k: nat): set<Id>
    requires k <= |s|
  {
    set x | x in s[..k]
  }

  lemma Prefixes(s: seq<Id>, k: nat, done: set<Id>)
    requires Distinct(s) && k <= |s|
    ensures k == 0 ==> done + FirstOf(s, k) == done
    ensures k == |s| ==> FirstOf(s, k) == Elements(s)
    ensures k < |s| ==> s[k] in s && s[k] !in FirstOf(s, k)
                        && done + FirstOf(s, k + 1) == done + FirstOf(s, k) + {s[k]}
  {
    assert s[..|s|] == s;
    if k < |s| { assert s[..k + 1] == s[..k] + [s[k]]; }
  }

  lemma RoundGrows(all: set<Id>, done: set<Id>, found: set<Id>)
    requires done <= all && found <= all - done
    ensures |done + found| == |done| + |found| <= |all| && done + found <= all
  {
    assert all == (all - (done + found)) + (done + found);
  }

  lemma {:induction false} ListSize(s: seq<Id>, elements: set<Id>)
    requires Distinct(s) && elements == set x | x in s
    ensures |elements| == |s|
  {
    if s == [] {
    } else {
      var last := s[|s| - 1];
      assert s == s[..|s| - 1] + [last];
      ListSize(s[..|s| - 1], elements - {last});
    }
  }
}
