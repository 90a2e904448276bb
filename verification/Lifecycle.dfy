/**
 * Forget, cancel, orphan tombstoning, state backfill and garbage collection, interleaved.
 *
 * Each query is atomic and carries the clock reading it was given; a garbage collector's selection and
 * its deletes are separate actions, so anything may happen between them. `sequentialSet` says whether
 * the SET list of TOMBSTONE_NODE makes `previous_state` see the state just written; only what a cancel
 * restores depends on it.
 */
module Lifecycle {
  import opened Prelude

  type Id = string

  datatype NodeState = ACTIVE | SUPERSEDED | TOMBSTONED

  /** `window` is cancel_window_expires; None stands for null. */
  datatype Node = Node(state: Option<NodeState>, previous: Option<NodeState>, window: Option<int>, wisdom: bool)

  /** `used` holds every id ever given out; `selected` every id a collector has ever listed. */
  datatype Store = Store(nodes: map<Id, Node>, edges: set<(Id, Id)>, used: set<Id>, selected: set<Id>)

  // ---------------------------------------------------------------- queries

  /** TOMBSTONE_NODE. */
  function Tombstone(n: Node, window: int, sequentialSet: bool): Node {
    if n.state == Some(ACTIVE) || n.state == Some(SUPERSEDED) then
      n.(state := Some(TOMBSTONED), window := Some(window),
         previous := if sequentialSet then Some(TOMBSTONED) else n.state)
    else n
  }

  predicate Cancellable(n: Node, now: int) {
    n.state == Some(TOMBSTONED) && n.window.Some? && n.window.value > now
  }

  /** RESTORE_TOMBSTONED_NODE. */
  function Restore(n: Node, now: int): Node {
    if Cancellable(n, now) then n.(state := n.previous, window := None) else n
  }

  /** TOMBSTONE_ORPHANED_BELIEF leaves the cancel window as it is. */
  function TombstoneOrphan(n: Node): Node {
    if n.wisdom then n.(state := Some(TOMBSTONED)) else n
  }

  predicate Collectable(n: Node, now: int) {
    n.state == Some(TOMBSTONED) && n.window.Some? && n.window.value < now
  }

  function BackfillSuperseded(s: Store, id: Id, n: Node): Node {
    if (n.state == None || n.state == Some(ACTIVE)) && exists e :: e in s.edges && e.1 == id
    then n.(state := Some(SUPERSEDED)) else n
  }

  function BackfillActive(n: Node): Node {
    if n.state == None then n.(state := Some(ACTIVE)) else n
  }

  /** HARD_DELETE_NODE. */
  function HardDelete(nodes: map<Id, Node>, id: Id): map<Id, Node> {
    if id in nodes && nodes[id].state == Some(TOMBSTONED) then nodes - {id} else nodes
  }

  function WithoutEdges(edges: set<(Id, Id)>, id: Id): set<(Id, Id)> {
    set e | e in edges && e.0 != id && e.1 != id
  }

  // ------------------------------------------------------------------- runs

  datatype Action =
    | Create(id: Id, wisdom: bool)
    | LinkSupersedes(newer: Id, older: Id)
    | Forget(id: Id, duration: int, sequentialSet: bool)
    | Cancel(id: Id)
    | OrphanTombstone(id: Id)
    | BackfillStates
    | GcSelect(ids: set<Id>)
    | GcDeleteEdges(id: Id)
    | GcDelete(id: Id)

  function Update(s: Store, id: Id, n: Node): Store { s.(nodes := s.nodes[id := n]) }

  /** One action with its clock reading. */
  function Step(s: Store, a: Action, now: int): Store {
    match a
    case Create(id, wisdom) =>
      if id in s.used then s
      else s.(nodes := s.nodes[id := Node(None, None, None, wisdom)], used := s.used + {id})
    case LinkSupersedes(newer, older) => s.(edges := s.edges + {(newer, older)})
    case Forget(id, duration, sequentialSet) =>
      if id in s.nodes then Update(s, id, Tombstone(s.nodes[id], now + duration, sequentialSet)) else s
    case Cancel(id) => if id in s.nodes then Update(s, id, Restore(s.nodes[id], now)) else s
    case OrphanTombstone(id) => if id in s.nodes then Update(s, id, TombstoneOrphan(s.nodes[id])) else s
    case BackfillStates =>
      s.(nodes := map id | id in s.nodes :: BackfillActive(BackfillSuperseded(s, id, s.nodes[id])))
    case GcSelect(ids) =>
      s.(selected := s.selected + set id | id in ids && id in s.nodes && Collectable(s.nodes[id], now))
    case GcDeleteEdges(id) => if id in s.selected then s.(edges := WithoutEdges(s.edges, id)) else s
    case GcDelete(id) => if id in s.selected then s.(nodes := HardDelete(s.nodes, id)) else s
  }

  function Run(s: Store, actions: seq<(Action, int)>): Store {
    if actions == [] then s
    else
      var (a, now) := actions[|actions| - 1];
      Step(Run(s, actions[..|actions| - 1]), a, now)
  }

  const EMPTY := Store(map[], {}, {}, {})

  // ------------------------------------------------- after being listed, any clock

  /** The collector lists the node at action `k`, its window ending at `w`. */
  ghost predicate ListedAt(actions: seq<(Action, int)>, k: nat, id: Id, w: int)
    requires k < |actions|
  {
    var s := Run(EMPTY, actions[..k]);
    && actions[k].0.GcSelect? && id in actions[k].0.ids && id in s.nodes
    && Collectable(s.nodes[id], actions[k].1) && s.nodes[id].window == Some(w)
  }

  /** Gone, or still the tombstone whose window ends at `w`. */
  predicate GoneOrDoomed(s: Store, id: Id, w: int) {
    id in s.nodes ==> s.nodes[id].state == Some(TOMBSTONED) && s.nodes[id].window == Some(w)
  }

  /** Action `j` is a cancel of the node, still there, with a reading before the window's end. */
  predicate StaleCancel(actions: seq<(Action, int)>, j: nat, id: Id, w: int)
    requires j < |actions|
  {
    actions[j].0 == Cancel(id) && actions[j].1 < w && id in Run(EMPTY, actions[..j]).nodes
  }

  /** Ids are not reused. */
  predicate UsedOnce(s: Store) { s.nodes.Keys <= s.used }

  lemma {:induction false} AlwaysUsedOnce(actions: seq<(Action, int)>)
    ensures UsedOnce(Run(EMPTY, actions))
  {
    if actions == [] {
    } else {
      AlwaysUsedOnce(actions[..|actions| - 1]);
    }
  }

  /** A doomed node stays doomed through every action except a cancel whose reading is before the window's end. */
  lemma DoomStep(s: Store, a: Action, now: int, id: Id, w: int)
    requires GoneOrDoomed(s, id, w) && id in s.used && UsedOnce(s)
    ensures GoneOrDoomed(Step(s, a, now), id, w) <==> !(a == Cancel(id) && now < w && id in s.nodes)
    ensures id in Step(s, a, now).used
  {}

  lemma RunPrefix(actions: seq<(Action, int)>, j: nat)
    requires j < |actions|
    ensures Run(EMPTY, actions[..j + 1]) == Step(Run(EMPTY, actions[..j]), actions[j].0, actions[j].1)
  {
    assert actions[..j + 1][..j] == actions[..j];
  }

  lemma ListingLeaves(s: Store, ids: set<Id>, now: int, id: Id, w: int)
    requires UsedOnce(s) && id in s.nodes && Collectable(s.nodes[id], now) && s.nodes[id].window == Some(w)
    ensures GoneOrDoomed(Step(s, GcSelect(ids), now), id, w) && id in Step(s, GcSelect(ids), now).used
  {}

  lemma {:induction false} DoomedUntil(actions: seq<(Action, int)>, k: nat, j: nat, id: Id, w: int)
    requires k < j <= |actions| && ListedAt(actions, k, id, w)
    requires forall i :: k < i < j ==> !StaleCancel(actions, i, id, w)
    ensures GoneOrDoomed(Run(EMPTY, actions[..j]), id, w) && id in Run(EMPTY, actions[..j]).used
  {
    RunPrefix(actions, j - 1);
    AlwaysUsedOnce(actions[..j - 1]);
    if j == k + 1 {
      ListingLeaves(Run(EMPTY, actions[..k]), actions[k].0.ids, actions[k].1, id, w);
    } else {
      DoomedUntil(actions, k, j - 1, id, w);
      assert !StaleCancel(actions, j - 1, id, w);
      DoomStep(Run(EMPTY, actions[..j - 1]), actions[j - 1].0, actions[j - 1].1, id, w);
    }
  }

  /**
   * Whatever readings the actions carry: a listed node is gone or tombstoned past its window at every
   * later point exactly when no later cancel of it carries a reading before the window's end.
   */
  lemma DoomedIffNoStaleCancel(actions: seq<(Action, int)>, k: nat, id: Id, w: int)
    requires k < |actions| && ListedAt(actions, k, id, w)
    ensures (forall j :: k < j <= |actions| ==> GoneOrDoomed(Run(EMPTY, actions[..j]), id, w)) <==>
            (forall j :: k < j < |actions| ==> !StaleCancel(actions, j, id, w))
  {
    if forall j :: k < j < |actions| ==> !StaleCancel(actions, j, id, w) {
      forall j | k < j <= |actions| ensures GoneOrDoomed(Run(EMPTY, actions[..j]), id, w) {
        DoomedUntil(actions, k, j, id, w);
      }
    } else {
      var j :| k < j < |actions| && StaleCancel(actions, j, id, w);
      RunPrefix(actions, j);
      AlwaysUsedOnce(actions[..j]);
      if GoneOrDoomed(Run(EMPTY, actions[..j]), id, w) {
        DoomStep(Run(EMPTY, actions[..j]), actions[j].0, actions[j].1, id, w);
        assert !GoneOrDoomed(Run(EMPTY, actions[..j + 1]), id, w);
      }
    }
  }

  lemma NodeForgotten(actions: seq<(Action, int)>)
    requires |actions| >= 3 && actions[0] == (Create("n", false), 0) && actions[1] == (BackfillStates, 0)
    requires actions[2] == (Forget("n", 10, false), 0)
    ensures Run(EMPTY, actions[..3]).nodes == map["n" := Node(Some(TOMBSTONED), Some(ACTIVE), Some(10), false)]
  {
    assert Run(EMPTY, actions[..0]) == EMPTY;
    RunPrefix(actions, 0);
    assert Run(EMPTY, actions[..1]) == Store(map["n" := Node(None, None, None, false)], {}, {"n"}, {});
    RunPrefix(actions, 1);
    assert Run(EMPTY, actions[..2]).nodes == map["n" := Node(Some(ACTIVE), None, None, false)];
    RunPrefix(actions, 2);
  }

  /** A run where that happens: forgotten at 0 for 10, listed at 20, cancelled by a reading of 5. */
  lemma StaleCancelHappens() returns (actions: seq<(Action, int)>)
    ensures |actions| == 5 && ListedAt(actions, 3, "n", 10) && StaleCancel(actions, 4, "n", 10)
    ensures var s := Run(EMPTY, actions); "n" in s.nodes && s.nodes["n"].state == Some(ACTIVE)
  {
    actions := [(Create("n", false), 0), (BackfillStates, 0), (Forget("n", 10, false), 0), (GcSelect({"n"}), 20),
                (Cancel("n"), 5)];
    NodeForgotten(actions);
    RunPrefix(actions, 3);
    RunPrefix(actions, 4);
    assert actions[..5] == actions;
  }

  // --------------------------------------------------------- forget and cancel

  /** Action `k` forgets a live node in state `live`, its window ending at `w`. */
  ghost predicate ForgottenAt(actions: seq<(Action, int)>, k: nat, id: Id, live: NodeState, w: int)
    requires k < |actions|
  {
    var s := Run(EMPTY, actions[..k]);
    && actions[k].0.Forget? && actions[k].0.id == id && !actions[k].0.sequentialSet
    && actions[k].1 + actions[k].0.duration == w
    && id in s.nodes && live in {ACTIVE, SUPERSEDED} && s.nodes[id].state == Some(live)
  }

  /** Gone, or the tombstone that remembers `live` and can be cancelled until `w`. */
  predicate GoneOrForgotten(s: Store, id: Id, live: NodeState, w: int) {
    id in s.nodes ==>
      s.nodes[id].state == Some(TOMBSTONED) && s.nodes[id].window == Some(w) && s.nodes[id].previous == Some(live)
  }

  lemma ForgottenStep(s: Store, a: Action, now: int, id: Id, live: NodeState, w: int)
    requires GoneOrForgotten(s, id, live, w) && id in s.used && UsedOnce(s) && !(a == Cancel(id) && now < w)
    ensures GoneOrForgotten(Step(s, a, now), id, live, w) && id in Step(s, a, now).used
  {}

  lemma ForgetLeaves(s: Store, id: Id, duration: int, now: int, live: NodeState)
    requires id in s.nodes && live in {ACTIVE, SUPERSEDED} && s.nodes[id].state == Some(live) && UsedOnce(s)
    ensures var r := Step(s, Forget(id, duration, false), now);
            id in r.nodes && GoneOrForgotten(r, id, live, now + duration) && id in r.used
  {}

  lemma {:induction false} ForgottenUntil(actions: seq<(Action, int)>, k: nat, j: nat, id: Id, live: NodeState, w: int)
    requires k < j <= |actions| && ForgottenAt(actions, k, id, live, w)
    requires forall i :: k < i < j ==> !(actions[i].0 == Cancel(id) && actions[i].1 < w)
    ensures GoneOrForgotten(Run(EMPTY, actions[..j]), id, live, w) && id in Run(EMPTY, actions[..j]).used
  {
    RunPrefix(actions, j - 1);
    AlwaysUsedOnce(actions[..j - 1]);
    if j == k + 1 {
      ForgetLeaves(Run(EMPTY, actions[..k]), id, actions[k].0.duration, actions[k].1, live);
    } else {
      ForgottenUntil(actions, k, j - 1, id, live, w);
      ForgottenStep(Run(EMPTY, actions[..j - 1]), actions[j - 1].0, actions[j - 1].1, id, live, w);
    }
  }

  /**
   * Whatever happens in between, the first cancel that carries a reading before the window's end and finds
   * the node puts it back in the state it was forgotten in.
   */
  lemma FirstCancelRestores(actions: seq<(Action, int)>, k: nat, j: nat, id: Id, live: NodeState, w: int)
    requires k < j < |actions| && ForgottenAt(actions, k, id, live, w)
    requires forall i :: k < i < j ==> !(actions[i].0 == Cancel(id) && actions[i].1 < w)
    requires actions[j].0 == Cancel(id) && actions[j].1 < w && id in Run(EMPTY, actions[..j]).nodes
    ensures var r := Run(EMPTY, actions[..j + 1]);
            id in r.nodes && r.nodes[id].state == Some(live) && r.nodes[id].window == None
  {
    ForgottenUntil(actions, k, j, id, live, w);
    RunPrefix(actions, j);
  }

  /** Only a live node can be forgotten, and forgetting touches no other. */
  lemma ForgetEffect(s: Store, id: Id, duration: int, sequentialSet: bool, now: int)
    ensures var r := Step(s, Forget(id, duration, sequentialSet), now);
            && r.nodes.Keys == s.nodes.Keys && r.nodes - {id} == s.nodes - {id}
            && (id in s.nodes ==>
                  if s.nodes[id].state in {Some(ACTIVE), Some(SUPERSEDED)}
                  then r.nodes[id].state == Some(TOMBSTONED) && r.nodes[id].window == Some(now + duration)
                  else r.nodes[id] == s.nodes[id])
  {}

  /** With any clock: only a collector's delete removes a node, one it has listed and that is a tombstone just then. */
  lemma DeleteNeedsTombstone(s: Store, a: Action, now: int, id: Id)
    requires id in s.nodes && id !in Step(s, a, now).nodes
    ensures a == GcDelete(id) && id in s.selected && s.nodes[id].state == Some(TOMBSTONED)
  {}

  // -------------------------------------------------------------- state backfill

  /** The backfill settles every node's state: superseded by its edges, else active; tombstones are left. */
  lemma BackfillEffect(s: Store, now: int, id: Id)
    requires id in s.nodes
    ensures var r, n := Step(s, BackfillStates, now), s.nodes[id];
            && r.nodes.Keys == s.nodes.Keys && r.edges == s.edges && r.nodes[id].state.Some?
            && r.nodes[id].(state := n.state) == n
            && (r.nodes[id].state == Some(SUPERSEDED) <==>
                n.state == Some(SUPERSEDED)
                || (n.state in {None, Some(ACTIVE)} && exists newer :: (newer, id) in s.edges))
            && (r.nodes[id].state == Some(TOMBSTONED) <==> n.state == Some(TOMBSTONED))
  {
    if exists e :: e in s.edges && e.1 == id {
      var e :| e in s.edges && e.1 == id;
      assert (e.0, id) in s.edges;
    }
    if newer :| (newer, id) in s.edges {
      assert (newer, id).1 == id;
    }
  }

  /** Running it again changes nothing. */
  lemma BackfillTwice(s: Store, now: int, later: int)
    ensures Step(Step(s, BackfillStates, now), BackfillStates, later) == Step(s, BackfillStates, now)
  {
    var once := Step(s, BackfillStates, now);
    var twice := Step(once, BackfillStates, later);
    forall id | id in s.nodes ensures twice.nodes[id] == once.nodes[id] {
      BackfillEffect(s, now, id);
      BackfillEffect(once, later, id);
    }
    assert twice.nodes == once.nodes;
  }

  // ------------------------------------------------------------ monotone clocks

  /** Readings never run backwards. */
  ghost predicate Monotone(actions: seq<(Action, int)>) {
    forall i, j :: 0 <= i < j < |actions| ==> actions[i].1 <= actions[j].1
  }

  /** Every node listed so far and still there is tombstoned and past its window. */
  ghost predicate Doomed(s: Store, now: int) {
    && UsedOnce(s) && s.selected <= s.used
    && forall id :: id in s.selected && id in s.nodes ==> Collectable(s.nodes[id], now)
  }

  lemma StepKeepsDoomed(s: Store, a: Action, before: int, now: int)
    requires Doomed(s, before) && before <= now
    ensures Doomed(Step(s, a, now), now)
  {}

  /** Under every interleaving with a clock that does not run backwards. */
  lemma {:induction false} AlwaysDoomed(actions: seq<(Action, int)>, now: int)
    requires Monotone(actions) && forall i :: 0 <= i < |actions| ==> actions[i].1 <= now
    ensures Doomed(Run(EMPTY, actions), now)
  {
    if actions == [] {
    } else {
      var (a, t) := actions[|actions| - 1];
      AlwaysDoomed(actions[..|actions| - 1], t);
      StepKeepsDoomed(Run(EMPTY, actions[..|actions| - 1]), a, t, t);
    }
  }

  lemma {:induction false} SelectedGrows(actions: seq<(Action, int)>, k: nat)
    requires k <= |actions|
    ensures Run(EMPTY, actions[..k]).selected <= Run(EMPTY, actions).selected
  {
    if k == |actions| {
      assert actions[..k] == actions;
    } else {
      SelectedGrows(actions[..|actions| - 1], k);
      assert actions[..|actions| - 1][..k] == actions[..k];
    }
  }

  /**
   * Once listed by a collector at any point of a run, a node is at every later point gone or tombstoned
   * with its window past, so no cancel with a current or later reading restores it.
   */
  lemma SelectedNeverRevives(actions: seq<(Action, int)>, k: nat, id: Id, later: int)
    requires k <= |actions| && id in Run(EMPTY, actions[..k]).selected
    requires Monotone(actions) && forall i :: 0 <= i < |actions| ==> actions[i].1 <= later
    ensures var s := Run(EMPTY, actions);
            id in s.nodes ==> s.nodes[id].state == Some(TOMBSTONED) && !Cancellable(s.nodes[id], later)
                              && Restore(s.nodes[id], later) == s.nodes[id]
  {
    SelectedGrows(actions, k);
    AlwaysDoomed(actions, later);
  }

  /** Whatever step removes a node, it was tombstoned and could not be cancelled any more. */
  lemma DeletedOnlyWhenUncancellable(actions: seq<(Action, int)>, a: Action, now: int, id: Id)
    requires Monotone(actions) && forall i :: 0 <= i < |actions| ==> actions[i].1 <= now
    requires id in Run(EMPTY, actions).nodes && id !in Step(Run(EMPTY, actions), a, now).nodes
    ensures a == GcDelete(id)
    ensures forall t :: t >= now ==> !Cancellable(Run(EMPTY, actions).nodes[id], t)
    ensures Run(EMPTY, actions).nodes[id].state == Some(TOMBSTONED)
  {
    AlwaysDoomed(actions, now);
  }

  // ------------------------------------------------------- tombstones that stay

  /** A tombstone without a cancel window, as orphan tombstoning leaves. */
  ghost predicate Stranded(n: Node) { n.state == Some(TOMBSTONED) && n.window == None }

  /** It can be neither restored, forgotten again nor collected, unless already listed. */
  lemma {:induction false} StrandedForever(s: Store, actions: seq<(Action, int)>, id: Id)
    requires id in s.nodes && Stranded(s.nodes[id]) && UsedOnce(s) && id !in s.selected
    ensures var r := Run(s, actions); id in r.nodes && Stranded(r.nodes[id]) && UsedOnce(r) && id !in r.selected
  {
    if actions == [] {
    } else {
      var (a, now) := actions[|actions| - 1];
      StrandedForever(s, actions[..|actions| - 1], id);
      StrandedStays(Run(s, actions[..|actions| - 1]), a, now, id);
    }
  }

  lemma StrandedStays(s: Store, a: Action, now: int, id: Id)
    requires id in s.nodes && Stranded(s.nodes[id]) && UsedOnce(s) && id !in s.selected
    ensures var r := Step(s, a, now); id in r.nodes && Stranded(r.nodes[id]) && UsedOnce(r) && id !in r.selected
  {}

  /** Orphan tombstoning takes any wisdom node, and for good if it was never forgotten; others it leaves alone. */
  lemma OrphanStrands(s: Store, id: Id, now: int, actions: seq<(Action, int)>)
    requires id in s.nodes && UsedOnce(s) && id !in s.selected && s.nodes[id].window == None
    ensures var r := Step(s, OrphanTombstone(id), now);
            if s.nodes[id].wisdom then Stays(Run(r, actions), id) && r.nodes - {id} == s.nodes - {id} else r == s
  {
    if s.nodes[id].wisdom {
      StrandedForever(Step(s, OrphanTombstone(id), now), actions, id);
    } else {
      assert s.nodes[id := s.nodes[id]] == s.nodes;
    }
  }

  /** With a window, it can be cancelled until the window ends and be collected from then on. */
  lemma WindowLeadsOut(s: Store, id: Id, now: int)
    requires id in s.nodes && s.nodes[id].state == Some(TOMBSTONED) && s.nodes[id].window.Some?
    ensures var w := s.nodes[id].window.value;
            && (now < w ==> Step(s, Cancel(id), now).nodes[id] ==
                            s.nodes[id].(state := s.nodes[id].previous, window := None))
            && (now == w ==> Step(s, Cancel(id), now).nodes[id] == s.nodes[id]
                             && (id in Step(s, GcSelect({id}), now).selected ==> id in s.selected))
            && (now > w ==> id !in Run(s, [(GcSelect({id}), now), (GcDelete(id), now)]).nodes)
  {
    var select, delete := (GcSelect({id}), now), (GcDelete(id), now);
    var none: seq<(Action, int)> := [];
    assert [select, delete][..1] == [select] && [select][..0] == none && Run(s, none) == s;
    assert Run(s, [select]) == Step(s, select.0, now);
  }

  /** A tombstone no collector has listed is there for good, whatever happens, exactly when it has no cancel window. */
  lemma StuckIffNoWindow(s: Store, id: Id)
    requires id in s.nodes && s.nodes[id].state == Some(TOMBSTONED) && UsedOnce(s) && id !in s.selected
    ensures (forall actions: seq<(Action, int)> :: Stays(Run(s, actions), id)) <==> s.nodes[id].window == None
  {
    if s.nodes[id].window == None {
      forall actions: seq<(Action, int)> ensures Stays(Run(s, actions), id) { StrandedForever(s, actions, id); }
    } else {
      var now := s.nodes[id].window.value + 1;
      WindowLeadsOut(s, id, now);
      assert !Stays(Run(s, [(GcSelect({id}), now), (GcDelete(id), now)]), id);
    }
  }

  predicate Stays(s: Store, id: Id) { id in s.nodes && s.nodes[id].state == Some(TOMBSTONED) }

  /** Exactly the edges that touch none of the removed nodes are left. */
  ghost predicate EdgesLeft(s: Store, r: Store, removed: set<Id>) {
    forall e :: e in r.edges <==> e in s.edges && e.0 !in removed && e.1 !in removed
  }

  lemma CollectOne(s: Store, id: Id, now: int)
    requires Doomed(s, now) && id in s.selected && id in s.nodes
    ensures var r := Step(Step(s, GcDeleteEdges(id), now), GcDelete(id), now);
            Doomed(r, now) && r.nodes == s.nodes - {id} && r.selected == s.selected && EdgesLeft(s, r, {id})
  {
    StepKeepsDoomed(s, GcDeleteEdges(id), now, now);
    StepKeepsDoomed(Step(s, GcDeleteEdges(id), now), GcDelete(id), now, now);
  }

  class LifecycleStore {
    var s: Store

    constructor (s: Store)
      ensures this.s == s
    {
      this.s := s;
    }

    /** GET_TOMBSTONED_FOR_GC: at most `limit` collectable nodes, in any order. */
    method ListCollectable(now: int, limit: nat) returns (candidates: seq<Id>)
      ensures Distinct(candidates) && |candidates| <= limit
      ensures forall id :: id in candidates ==> id in s.nodes && Collectable(s.nodes[id], now)
      ensures |candidates| < limit ==>
                forall id :: id in s.nodes && Collectable(s.nodes[id], now) ==> id in candidates
    {
      var rest := set id | id in s.nodes && Collectable(s.nodes[id], now);
      candidates := [];
      while rest != {} && |candidates| < limit
        invariant Distinct(candidates) && |candidates| <= limit
        invariant forall id :: id in s.nodes && Collectable(s.nodes[id], now) <==> id in candidates || id in rest
        invariant forall id :: id in candidates ==> id !in rest
        decreases rest
      {
        var id :| id in rest;
        candidates, rest := candidates + [id], rest - {id};
      }
    }

    /** The collector, uninterrupted: lists at most `limit` collectable nodes and removes each with its edges. */
    method CollectGarbage(now: int, limit: nat) returns (deleted: seq<Id>)
      requires Doomed(s, now)
      modifies this
      ensures Doomed(s, now) && Distinct(deleted) && |deleted| <= limit
      ensures forall id :: id in deleted ==> id in old(s).nodes && Collectable(old(s).nodes[id], now)
      ensures s.nodes == old(s).nodes - set id | id in deleted
      ensures EdgesLeft(old(s), s, set id | id in deleted)
      ensures |deleted| < limit ==> forall id :: id in s.nodes ==> !Collectable(s.nodes[id], now)
    {
      var candidates := ListCollectable(now, limit);
      s := Step(s, GcSelect(set id | id in candidates), now);
      ghost var listed := s;
      deleted := [];
      while |deleted| < |candidates|
        invariant |deleted| <= |candidates| && deleted == candidates[..|deleted|]
        invariant Doomed(s, now) && s.selected == listed.selected
        invariant s.nodes == listed.nodes - set id | id in deleted
        invariant EdgesLeft(listed, s, set id | id in deleted)
      {
        var id := candidates[|deleted|];
        assert id in candidates && id !in deleted;
        CollectOne(s, id, now);
        s := Step(s, GcDeleteEdges(id), now);
        s := Step(s, GcDelete(id), now);
        deleted := deleted + [id];
      }
      assert deleted == candidates;
    }
  }
}
