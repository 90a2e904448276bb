/**
 * Conclusion consolidation: a multi-write protocol over a shared store that may crash between
 * any two writes.
 *
 * `Graph` is the store and its atomic queries are functions on it. `System` adds any number of
 * workers, each between two writes; `Step` is one atomic write, one read or one crash, and no lock
 * restricts it, so a run may interleave workers whose lock has expired. The classes at the end are
 * the consolidator itself, run without interruption.
 */
module Consolidation {
  import opened Prelude

  datatype Key = Key(silo: string, id: string)

  datatype Status = Active | Consolidated

  datatype Conclusion = Conclusion(hash: string, content: string, confidence: real, status: Status, born: nat)

  datatype Graph = Graph(nodes: map<Key, Conclusion>, edges: set<(Key, Key)>, clock: nat)

  datatype Row = Row(key: Key, body: Conclusion)

  // ---------------------------------------------------------------- queries

  /** UPSERT_CONCLUSION: hash and creation time are set only on creation. */
  function Upsert(g: Graph, key: Key, hash: string, content: string, confidence: real, status: Status): Graph {
    if key in g.nodes then
      g.(nodes := g.nodes[key := g.nodes[key].(content := content, confidence := confidence, status := status)])
    else
      g.(nodes := g.nodes[key := Conclusion(hash, content, confidence, status, g.clock)], clock := g.clock + 1)
  }

  /** CREATE_CONSOLIDATES_EDGE: matches both ends first. */
  function Link(g: Graph, canonical: Key, original: Key): Graph {
    if canonical in g.nodes && original in g.nodes then g.(edges := g.edges + {(canonical, original)}) else g
  }

  /** MARK_CONCLUSION_CONSOLIDATED. */
  function Mark(g: Graph, key: Key): Graph {
    if key in g.nodes then g.(nodes := g.nodes[key := g.nodes[key].(status := Consolidated)]) else g
  }

  predicate InGroup(g: Graph, key: Key, silo: string, hash: string) {
    key in g.nodes && key.silo == silo && g.nodes[key].hash == hash
  }

  /** GET_CONCLUSIONS_BY_HASH returns active conclusions only. */
  function ActiveByHash(g: Graph, silo: string, hash: string): set<Key> {
    set k | k in g.nodes && InGroup(g, k, silo, hash) && g.nodes[k].status == Active
  }

  predicate HasConsolidator(g: Graph, key: Key) {
    exists e :: e in g.edges && e.1 == key
  }

  function Orphans(g: Graph, silo: string): set<Key> {
    set k | k in g.nodes && k.silo == silo && g.nodes[k].status == Active && HasConsolidator(g, k)
  }

  function Keys(rows: seq<Row>): seq<Key> {
    seq(|rows|, i requires 0 <= i < |rows| => rows[i].key)
  }

  /** `s` lists the set `keys`, in any order. */
  ghost predicate Lists(s: seq<Key>, keys: set<Key>) {
    Distinct(s) && forall k :: k in s <==> k in keys
  }

  ghost predicate RowsOf(g: Graph, silo: string, hash: string, rows: seq<Row>) {
    Lists(Keys(rows), ActiveByHash(g, silo, hash))
    && forall r :: r in rows ==> r.key in g.nodes && r.body == g.nodes[r.key]
  }

  // ------------------------------------------------- the canonical's content

  const BOOST_PER_ORIGINAL := 0.02
  const MAX_BOOST := 0.1

  function TotalConfidence(rows: seq<Row>): real {
    if rows == [] then 0.0 else TotalConfidence(rows[..|rows| - 1]) + rows[|rows| - 1].body.confidence
  }

  function MinReal(a: real, b: real): real { if a <= b then a else b }

  function Average(rows: seq<Row>): real
    requires rows != []
  {
    TotalConfidence(rows) / |rows| as real
  }

  function MergedConfidence(rows: seq<Row>): real
    requires rows != []
  {
    MinReal(1.0, Average(rows) + MinReal(MAX_BOOST, BOOST_PER_ORIGINAL * |rows| as real))
  }

  /** The first row of highest confidence. */
  function Best(rows: seq<Row>): (i: nat)
    requires rows != []
    ensures i < |rows|
    ensures forall j :: 0 <= j < |rows| ==> rows[j].body.confidence <= rows[i].body.confidence
    ensures forall j :: 0 <= j < i ==> rows[j].body.confidence < rows[i].body.confidence
  {
    if |rows| == 1 then 0
    else
      var b := Best(rows[..|rows| - 1]);
      if rows[|rows| - 1].body.confidence > rows[b].body.confidence then |rows| - 1 else b
  }

  lemma {:induction false} AverageBounds(rows: seq<Row>, lo: real, hi: real)
    requires forall r :: r in rows ==> lo <= r.body.confidence <= hi
    ensures lo * |rows| as real <= TotalConfidence(rows) <= hi * |rows| as real
  {
    if rows == [] {
    } else {
      AverageBounds(rows[..|rows| - 1], lo, hi);
      assert rows[|rows| - 1] in rows;
    }
  }

  lemma {:induction false} TotalAdditive(a: seq<Row>, b: seq<Row>)
    ensures TotalConfidence(a + b) == TotalConfidence(a) + TotalConfidence(b)
  {
    if b == [] {
      assert a + b == a;
    } else {
      var n := |b| - 1;
      TotalAdditive(a, b[..n]);
      assert (a + b)[..|a + b| - 1] == a + b[..n];
    }
  }

  lemma TotalSingle(r: Row)
    ensures TotalConfidence([r]) == r.body.confidence
  {
    assert [r][..0] == [] && TotalConfidence([]) == 0.0;
  }

  /** Taking one row out takes its confidence off the total. */
  lemma TotalWithout(a: seq<Row>, x: Row, b: seq<Row>)
    ensures TotalConfidence(a + [x] + b) == TotalConfidence(a + b) + x.body.confidence
  {
    TotalAdditive(a + [x], b);
    TotalAdditive(a, [x]);
    TotalSingle(x);
    TotalAdditive(a, b);
  }

  /** Two listings of the same rows stay so when one row is taken from both. */
  lemma SameWithout(init: seq<Row>, x: Row, a: seq<Row>, b: seq<Row>)
    requires multiset(init + [x]) == multiset(a + [x] + b)
    ensures multiset(init) == multiset(a + b)
  {
    assert multiset(init + [x]) == multiset(init) + multiset{x};
    assert multiset(a + [x] + b) == multiset(a) + multiset{x} + multiset(b) == multiset(a + b) + multiset{x};
    assert multiset(init) == multiset(init + [x]) - multiset{x};
    assert multiset(a + b) == multiset(a + [x] + b) - multiset{x};
  }

  lemma Around(rows: seq<Row>, x: Row) returns (a: seq<Row>, b: seq<Row>)
    requires x in rows
    ensures rows == a + [x] + b
  {
    var i :| 0 <= i < |rows| && rows[i] == x;
    a, b := rows[..i], rows[i + 1..];
  }

  /** The total is each row's own confidence, added up in whatever order the rows come. */
  lemma {:induction false} TotalOfAnyOrder(a: seq<Row>, b: seq<Row>)
    requires multiset(a) == multiset(b)
    ensures TotalConfidence(a) == TotalConfidence(b)
  {
    if a == [] {
      assert |multiset(a)| == |a| && |multiset(b)| == |b|;
    } else {
      var init, x := a[..|a| - 1], a[|a| - 1];
      assert a == init + [x];
      assert x in multiset(a);
      var b1, b2 := Around(b, x);
      SameWithout(init, x, b1, b2);
      TotalOfAnyOrder(init, b1 + b2);
      TotalWithout(b1, x, b2);
    }
  }

  lemma {:induction false} OnceEach(rows: seq<Row>, r: Row)
    requires Distinct(rows)
    ensures multiset(rows)[r] == if r in rows then 1 else 0
  {
    if rows == [] {
    } else {
      var n := |rows| - 1;
      OnceEach(rows[..n], r);
      assert rows == rows[..n] + [rows[n]];
    }
  }

  lemma RowsDistinct(g: Graph, silo: string, hash: string, rows: seq<Row>)
    requires RowsOf(g, silo, hash, rows)
    ensures Distinct(rows)
    ensures forall r :: r in rows <==> r.key in ActiveByHash(g, silo, hash) && r.body == g.nodes[r.key]
  {
    forall i, j | 0 <= i < j < |rows| ensures rows[i] != rows[j] {
      assert Keys(rows)[i] != Keys(rows)[j];
    }
    forall r ensures r in rows <==> r.key in ActiveByHash(g, silo, hash) && r.body == g.nodes[r.key] {
      if r in rows {
        var i :| 0 <= i < |rows| && rows[i] == r;
        assert Keys(rows)[i] == r.key;
      }
      if r.key in ActiveByHash(g, silo, hash) && r.body == g.nodes[r.key] {
        assert r.key in Keys(rows);
        var i :| 0 <= i < |rows| && Keys(rows)[i] == r.key;
        assert rows[i] in rows && rows[i] == r;
      }
    }
  }

  /** The rows of a group add up to the same total and are as many, in whatever order the query lists them. */
  lemma ListingsAgree(g: Graph, silo: string, hash: string, a: seq<Row>, b: seq<Row>)
    requires RowsOf(g, silo, hash, a) && RowsOf(g, silo, hash, b)
    ensures |a| == |b| && TotalConfidence(a) == TotalConfidence(b)
  {
    RowsDistinct(g, silo, hash, a);
    RowsDistinct(g, silo, hash, b);
    forall r ensures multiset(a)[r] == multiset(b)[r] {
      OnceEach(a, r);
      OnceEach(b, r);
    }
    assert multiset(a) == multiset(b);
    assert |multiset(a)| == |a| && |multiset(b)| == |b|;
    TotalOfAnyOrder(a, b);
  }

  /** The average plus two hundredths for each original, a tenth from five on, cut off at one. */
  ghost predicate Rewarded(confidence: real, total: real, n: nat)
    requires n > 0
  {
    var raised := total / n as real + if n < 5 then n as real / 50.0 else 0.1;
    confidence == if raised < 1.0 then raised else 1.0
  }

  lemma MergedIsRewarded(rows: seq<Row>)
    requires rows != []
    ensures Rewarded(MergedConfidence(rows), TotalConfidence(rows), |rows|)
  {
    assert 0.02 * |rows| as real == |rows| as real / 50.0;
  }

  /** Merging genuine confidences rewards agreement: above the average, never above one, at most a tenth more. */
  lemma AgreementIsRewarded(rows: seq<Row>)
    requires rows != [] && forall r :: r in rows ==> 0.0 <= r.body.confidence <= 1.0
    ensures Average(rows) <= MergedConfidence(rows) <= 1.0
    ensures MergedConfidence(rows) == Average(rows) ==> Average(rows) == 1.0
    ensures MergedConfidence(rows) <= Average(rows) + 0.1
    ensures |rows| == 2 && Average(rows) <= 0.96 ==> MergedConfidence(rows) == Average(rows) + 0.04
    ensures |rows| >= 5 && Average(rows) <= 0.9 ==> MergedConfidence(rows) == Average(rows) + 0.1
  {
    AverageBounds(rows, 0.0, 1.0);
    assert TotalConfidence(rows) / |rows| as real <= 1.0;
    assert BOOST_PER_ORIGINAL * |rows| as real > 0.0;
  }

  // -------------------------------------------------------------- invariant

  /** Edges run from later-created to earlier-created conclusions of one group, and none is orphaned. */
  ghost predicate Sound(g: Graph) {
    && (forall k :: k in g.nodes ==> g.nodes[k].born < g.clock)
    && (forall e :: e in g.edges ==> Consolidates(g, e.0, e.1))
    && NoneStranded(g)
  }

  ghost predicate NoneStranded(g: Graph) {
    forall k :: k in g.nodes && g.nodes[k].status == Consolidated ==> HasConsolidator(g, k)
  }

  ghost predicate Consolidates(g: Graph, newer: Key, older: Key) {
    && newer in g.nodes && older in g.nodes && newer.silo == older.silo
    && g.nodes[newer].hash == g.nodes[older].hash && g.nodes[older].born < g.nodes[newer].born
  }

  /** What no write ever undoes. */
  ghost predicate Extends(g: Graph, h: Graph) {
    && g.edges <= h.edges
    && forall k :: k in g.nodes ==>
         k in h.nodes && h.nodes[k].hash == g.nodes[k].hash && h.nodes[k].born == g.nodes[k].born
  }

  lemma ConsolidatorsStay(g: Graph, h: Graph)
    requires g.edges <= h.edges
    ensures forall k :: HasConsolidator(g, k) ==> HasConsolidator(h, k)
  {
    forall k | HasConsolidator(g, k) ensures HasConsolidator(h, k) {
      var e :| e in g.edges && e.1 == k;
      assert e in h.edges;
    }
  }

  lemma UpsertKeeps(g: Graph, key: Key, hash: string, content: string, confidence: real)
    requires Sound(g)
    ensures Sound(Upsert(g, key, hash, content, confidence, Active))
    ensures Extends(g, Upsert(g, key, hash, content, confidence, Active))
  {}

  lemma LinkKeeps(g: Graph, canonical: Key, original: Key)
    requires Sound(g) && Consolidates(g, canonical, original)
    ensures Sound(Link(g, canonical, original)) && Extends(g, Link(g, canonical, original))
  {
    ConsolidatorsStay(g, Link(g, canonical, original));
  }

  lemma MarkKeeps(g: Graph, key: Key)
    requires Sound(g) && HasConsolidator(g, key)
    ensures Sound(Mark(g, key)) && Extends(g, Mark(g, key))
  {
    ConsolidatorsStay(g, Mark(g, key));
    MarkEffect(g, key);
  }

  lemma MarkEffect(g: Graph, key: Key)
    ensures var h := Mark(g, key);
            && h.edges == g.edges && h.clock == g.clock && h.nodes.Keys == g.nodes.Keys
            && forall k :: k in g.nodes ==>
                 h.nodes[k] == if k == key then g.nodes[k].(status := Consolidated) else g.nodes[k]
  {
  }

  /** Following consolidators upwards from the first key. */
  ghost predicate Climb(g: Graph, path: seq<Key>) {
    path != [] && forall i :: 0 <= i < |path| - 1 ==> (path[i + 1], path[i]) in g.edges
  }

  /** `path` leads from `k` to an active conclusion of its silo and hash. */
  ghost predicate LeadsToActive(g: Graph, k: Key, path: seq<Key>) {
    && Climb(g, path) && path[0] == k && k in g.nodes
    && var top := path[|path| - 1];
       InGroup(g, top, k.silo, g.nodes[k].hash) && g.nodes[top].status == Active
  }

  lemma {:induction false} ReachesActive(g: Graph, k: Key) returns (path: seq<Key>)
    requires Sound(g) && k in g.nodes
    ensures LeadsToActive(g, k, path)
    decreases g.clock - g.nodes[k].born
  {
    if g.nodes[k].status == Active {
      path := [k];
    } else {
      assert HasConsolidator(g, k);
      var e :| e in g.edges && e.1 == k;
      assert Consolidates(g, e.0, e.1);
      var rest := ReachesActive(g, e.0);
      path := [k] + rest;
      assert forall i :: 0 < i < |path| ==> path[i] == rest[i - 1];
    }
  }

  // ---------------------------------------------------- concurrent execution

  datatype Worker =
    | Idle
    | Snapshot(silo: string, hash: string, rows: seq<Row>)       // has read, has written nothing
    | Linking(canonical: Key, todo: seq<Key>, linked: bool)      // `linked`: the edge to todo[0] is written
    | Repairing(todo: seq<Key>)

  datatype System = System(g: Graph, workers: map<nat, Worker>)

  datatype Action =
    | AgentUpsert(key: Key, hash: string, content: string, confidence: real)
    | Begin(w: nat, silo: string, hash: string, rows: seq<Row>)
    | WriteCanonical(w: nat, id: string)
    | WriteEdge(w: nat)
    | MarkOriginal(w: nat)
    | BeginRepair(w: nat, silo: string, keys: seq<Key>)
    | RepairOne(w: nat)
    | Crash(w: nat)

  function WorkerOf(s: System, w: nat): Worker {
    if w in s.workers then s.workers[w] else Idle
  }

  function Put(s: System, w: nat, x: Worker): System {
    s.(workers := s.workers[w := x])
  }

  predicate StatusesAllow(rows: seq<Row>) {
    forall r :: r in rows ==> r.body.status != Consolidated
  }

  function AfterMark(canonical: Key, todo: seq<Key>): Worker
    requires todo != []
  {
    if |todo| == 1 then Idle else Linking(canonical, todo[1..], false)
  }

  ghost function BeginStep(s: System, w: nat, silo: string, hash: string, rows: seq<Row>): System {
    if WorkerOf(s, w).Idle? && RowsOf(s.g, silo, hash, rows) && StatusesAllow(rows) && |rows| >= 2
    then Put(s, w, Snapshot(silo, hash, rows)) else s
  }

  function CanonicalStep(s: System, w: nat, id: string): System {
    match WorkerOf(s, w)
    case Snapshot(silo, hash, rows) =>
      var key := Key(silo, id);
      if rows == [] || key in s.g.nodes then s
      else Put(s.(g := Upsert(s.g, key, hash, rows[Best(rows)].body.content, MergedConfidence(rows), Active)),
               w, Linking(key, Keys(rows), false))
    case _ => s
  }

  function EdgeStep(s: System, w: nat): System {
    match WorkerOf(s, w)
    case Linking(canonical, todo, linked) =>
      if todo == [] || linked then s
      else Put(s.(g := Link(s.g, canonical, todo[0])), w, Linking(canonical, todo, true))
    case _ => s
  }

  function MarkStep(s: System, w: nat): System {
    match WorkerOf(s, w)
    case Linking(canonical, todo, linked) =>
      if todo == [] || !linked then s
      else Put(s.(g := Mark(s.g, todo[0])), w, AfterMark(canonical, todo))
    case _ => s
  }

  ghost function BeginRepairStep(s: System, w: nat, silo: string, keys: seq<Key>): System {
    if WorkerOf(s, w).Idle? && Lists(keys, Orphans(s.g, silo)) then Put(s, w, Repairing(keys)) else s
  }

  function RepairStep(s: System, w: nat): System {
    match WorkerOf(s, w)
    case Repairing(todo) =>
      if todo == [] then Put(s, w, Idle)
      else Put(s.(g := Mark(s.g, todo[0])), w, Repairing(todo[1..]))
    case _ => s
  }

  /** One atomic action; an action that is not enabled changes nothing. */
  ghost function Step(s: System, a: Action): System {
    match a
    case AgentUpsert(key, hash, content, confidence) =>
      s.(g := Upsert(s.g, key, hash, content, confidence, Active))
    case Crash(w) => Put(s, w, Idle)
    case Begin(w, silo, hash, rows) => BeginStep(s, w, silo, hash, rows)
    case WriteCanonical(w, id) => CanonicalStep(s, w, id)
    case WriteEdge(w) => EdgeStep(s, w)
    case MarkOriginal(w) => MarkStep(s, w)
    case BeginRepair(w, silo, keys) => BeginRepairStep(s, w, silo, keys)
    case RepairOne(w) => RepairStep(s, w)
  }

  ghost function Run(s: System, actions: seq<Action>): System {
    if actions == [] then s else Step(Run(s, actions[..|actions| - 1]), actions[|actions| - 1])
  }

  const EMPTY := System(Graph(map[], {}, 0), map[])

  /** What a worker's local data promises about the store, however long ago it was read. */
  ghost predicate Honest(g: Graph, x: Worker) {
    match x
    case Idle => true
    case Snapshot(silo, hash, rows) => forall k :: k in Keys(rows) ==> InGroup(g, k, silo, hash)
    case Linking(canonical, todo, linked) =>
      (forall k :: k in todo ==> Consolidates(g, canonical, k))
      && (linked && todo != [] ==> (canonical, todo[0]) in g.edges)
    case Repairing(todo) => forall k :: k in todo ==> HasConsolidator(g, k)
  }

  ghost predicate SystemInv(s: System) {
    Sound(s.g) && forall w :: w in s.workers ==> Honest(s.g, s.workers[w])
  }

  lemma HonestSurvives(g: Graph, h: Graph, x: Worker)
    requires Honest(g, x) && Extends(g, h)
    ensures Honest(h, x)
  {
    match x
    case Idle =>
    case Snapshot(_, _, _) =>
    case Linking(canonical, todo, _) =>
    case Repairing(todo) =>
      ConsolidatorsStay(g, h);
  }

  lemma OthersSurvive(s: System, h: Graph)
    requires SystemInv(s) && Sound(h) && Extends(s.g, h)
    ensures SystemInv(s.(g := h))
  {
    forall w | w in s.workers ensures Honest(h, s.workers[w]) {
      HonestSurvives(s.g, h, s.workers[w]);
    }
  }

  /** A worker's write keeps the invariant when the store stays sound, only grows, and the worker stays honest. */
  lemma WriteKeeps(s: System, h: Graph, w: nat, x: Worker)
    requires SystemInv(s) && Sound(h) && Extends(s.g, h) && Honest(h, x)
    ensures SystemInv(Put(s.(g := h), w, x))
  {
    OthersSurvive(s, h);
  }

  lemma LinkStepKeeps(s: System, w: nat, canonical: Key, todo: seq<Key>)
    requires SystemInv(s) && WorkerOf(s, w) == Linking(canonical, todo, false) && todo != []
    ensures SystemInv(Put(s.(g := Link(s.g, canonical, todo[0])), w, Linking(canonical, todo, true)))
  {
    assert todo[0] in todo && Honest(s.g, WorkerOf(s, w));
    LinkKeeps(s.g, canonical, todo[0]);
    HonestSurvives(s.g, Link(s.g, canonical, todo[0]), Linking(canonical, todo, false));
    WriteKeeps(s, Link(s.g, canonical, todo[0]), w, Linking(canonical, todo, true));
  }

  lemma MarkStepKeeps(s: System, w: nat, canonical: Key, todo: seq<Key>)
    requires SystemInv(s) && WorkerOf(s, w) == Linking(canonical, todo, true) && todo != []
    ensures SystemInv(Put(s.(g := Mark(s.g, todo[0])), w, AfterMark(canonical, todo)))
  {
    assert Honest(s.g, WorkerOf(s, w));
    assert HasConsolidator(s.g, todo[0]) by { assert (canonical, todo[0]) in s.g.edges; }
    MarkKeeps(s.g, todo[0]);
    HonestSurvives(s.g, Mark(s.g, todo[0]), Linking(canonical, todo, true));
    WriteKeeps(s, Mark(s.g, todo[0]), w, AfterMark(canonical, todo));
  }

  lemma RepairStepKeeps(s: System, w: nat, todo: seq<Key>)
    requires SystemInv(s) && WorkerOf(s, w) == Repairing(todo) && todo != []
    ensures SystemInv(Put(s.(g := Mark(s.g, todo[0])), w, Repairing(todo[1..])))
  {
    assert todo[0] in todo && Honest(s.g, WorkerOf(s, w));
    MarkKeeps(s.g, todo[0]);
    HonestSurvives(s.g, Mark(s.g, todo[0]), Repairing(todo));
    WriteKeeps(s, Mark(s.g, todo[0]), w, Repairing(todo[1..]));
  }

  lemma CanonicalStepKeeps(s: System, w: nat, id: string, silo: string, hash: string, rows: seq<Row>)
    requires SystemInv(s) && WorkerOf(s, w) == Snapshot(silo, hash, rows)
    requires rows != [] && Key(silo, id) !in s.g.nodes
    ensures SystemInv(Step(s, WriteCanonical(w, id)))
  {
    var key, content, confidence := Key(silo, id), rows[Best(rows)].body.content, MergedConfidence(rows);
    assert Honest(s.g, WorkerOf(s, w));
    UpsertKeeps(s.g, key, hash, content, confidence);
    WriteKeeps(s, Upsert(s.g, key, hash, content, confidence, Active), w, Linking(key, Keys(rows), false));
  }

  lemma StepKeeps(s: System, a: Action)
    requires SystemInv(s)
    ensures SystemInv(Step(s, a))
  {
    match a
    case AgentUpsert(key, hash, content, confidence) =>
      UpsertKeeps(s.g, key, hash, content, confidence);
      OthersSurvive(s, Upsert(s.g, key, hash, content, confidence, Active));
    case Crash(w) =>
    case Begin(w, silo, hash, rows) =>
    case WriteCanonical(w, id) =>
      match WorkerOf(s, w) {
        case Snapshot(silo, hash, rows) =>
          if rows != [] && Key(silo, id) !in s.g.nodes { CanonicalStepKeeps(s, w, id, silo, hash, rows); }
        case _ =>
      }
    case WriteEdge(w) =>
      match WorkerOf(s, w) {
        case Linking(canonical, todo, linked) =>
          if todo != [] && !linked { LinkStepKeeps(s, w, canonical, todo); }
        case _ =>
      }
    case MarkOriginal(w) =>
      match WorkerOf(s, w) {
        case Linking(canonical, todo, linked) =>
          if todo != [] && linked { MarkStepKeeps(s, w, canonical, todo); }
        case _ =>
      }
    case BeginRepair(w, silo, keys) =>
    case RepairOne(w) =>
      match WorkerOf(s, w) {
        case Repairing(todo) =>
          if todo != [] { RepairStepKeeps(s, w, todo); }
        case _ =>
      }
  }

  lemma {:induction false} RunKeeps(s: System, actions: seq<Action>)
    requires SystemInv(s)
    ensures SystemInv(Run(s, actions))
  {
    if actions == [] {
    } else {
      RunKeeps(s, actions[..|actions| - 1]);
      StepKeeps(Run(s, actions[..|actions| - 1]), actions[|actions| - 1]);
    }
  }

  /**
   * However many workers run, crash, repair and overlap: every CONSOLIDATES edge runs from a
   * later-created to an earlier-created conclusion of one silo and hash, and from every conclusion
   * following consolidators arrives at an active one of the same silo and hash.
   */
  lemma NothingIsLost(actions: seq<Action>, k: Key) returns (path: seq<Key>)
    requires k in Run(EMPTY, actions).g.nodes
    ensures forall e :: e in Run(EMPTY, actions).g.edges ==> Consolidates(Run(EMPTY, actions).g, e.0, e.1)
    ensures LeadsToActive(Run(EMPTY, actions).g, k, path)
  {
    RunKeeps(EMPTY, actions);
    path := ReachesActive(Run(EMPTY, actions).g, k);
  }

  /** The guard against a group already being consolidated never stops a pass: what it inspects is always active. */
  lemma GuardNeverFires(g: Graph, silo: string, hash: string, rows: seq<Row>)
    requires RowsOf(g, silo, hash, rows)
    ensures StatusesAllow(rows)
  {
    forall r | r in rows ensures r.body.status != Consolidated {
      var i :| 0 <= i < |rows| && rows[i] == r;
      assert Keys(rows)[i] in Keys(rows);
    }
  }

  lemma RunAppend(s: System, actions: seq<Action>, a: Action)
    ensures Run(s, actions + [a]) == Step(Run(s, actions), a)
  {
    assert (actions + [a])[..|actions|] == actions;
  }

  const FIRST := Key("s", "a")
  const SECOND := Key("s", "b")
  const MERGED := Key("s", "c")

  /** Two agents write, and a worker reads their conclusions. */
  lemma TwoAgents() returns (actions: seq<Action>, x: Conclusion, y: Conclusion)
    ensures x == Conclusion("h", "", 1.0, Active, 0) && y == Conclusion("h", "", 1.0, Active, 1)
    ensures Run(EMPTY, actions) ==
            System(Graph(map[FIRST := x, SECOND := y], {}, 2),
                   map[0 := Snapshot("s", "h", [Row(FIRST, x), Row(SECOND, y)])])
  {
    x, y := Conclusion("h", "", 1.0, Active, 0), Conclusion("h", "", 1.0, Active, 1);
    var a, b := AgentUpsert(FIRST, "h", "", 1.0), AgentUpsert(SECOND, "h", "", 1.0);
    var rows := [Row(FIRST, x), Row(SECOND, y)];
    var g := Graph(map[FIRST := x, SECOND := y], {}, 2);
    RunAppend(EMPTY, [], a);
    RunAppend(EMPTY, [] + [a], b);
    assert Run(EMPTY, []) == EMPTY;
    var s := Run(EMPTY, [] + [a] + [b]);
    assert s == System(g, map[]);
    assert Keys(rows) == [FIRST, SECOND] && ActiveByHash(g, "s", "h") == {FIRST, SECOND};
    assert RowsOf(g, "s", "h", rows);
    actions := [] + [a] + [b] + [Begin(0, "s", "h", rows)];
    RunAppend(EMPTY, [] + [a] + [b], Begin(0, "s", "h", rows));
  }

  /** The worker has written its canonical. */
  ghost predicate CanonicalThere(s: System, x: Conclusion, y: Conclusion, z: Conclusion) {
    && x == Conclusion("h", "", 1.0, Active, 0) && y == Conclusion("h", "", 1.0, Active, 1)
    && z.hash == "h" && z.status == Active
    && s.g == Graph(map[FIRST := x, SECOND := y, MERGED := z], {}, 3)
    && WorkerOf(s, 0) == Linking(MERGED, [FIRST, SECOND], false)
  }

  lemma CanonicalWritten() returns (actions: seq<Action>, x: Conclusion, y: Conclusion, z: Conclusion)
    ensures CanonicalThere(Run(EMPTY, actions), x, y, z)
  {
    actions, x, y := TwoAgents();
    var first := [Row(FIRST, x), Row(SECOND, y)];
    z := Conclusion("h", first[Best(first)].body.content, MergedConfidence(first), Active, 2);
    assert Keys(first) == [FIRST, SECOND];
    RunAppend(EMPTY, actions, WriteCanonical(0, "c"));
    actions := actions + [WriteCanonical(0, "c")];
  }

  /** It dies after marking the first of its two originals. */
  lemma DiesBetweenMarks(s: System, x: Conclusion, y: Conclusion, z: Conclusion)
    requires CanonicalThere(s, x, y, z)
    ensures var r := Step(Step(Step(s, WriteEdge(0)), MarkOriginal(0)), Crash(0));
            && r.g == Graph(map[FIRST := x.(status := Consolidated), SECOND := y, MERGED := z], {(MERGED, FIRST)}, 3)
            && WorkerOf(r, 0).Idle?
  {
    LinkThenMark(s, 0, MERGED, [FIRST, SECOND]);
  }

  lemma TwoLeftActive(g: Graph, x: Conclusion, y: Conclusion, z: Conclusion) returns (rows: seq<Row>)
    requires g == Graph(map[FIRST := x, SECOND := y, MERGED := z], {(MERGED, FIRST)}, 3)
    requires x.status == Consolidated && y.status == z.status == Active && y.hash == z.hash == "h"
    ensures RowsOf(g, "s", "h", rows) && |rows| == 2
  {
    rows := [Row(SECOND, y), Row(MERGED, z)];
    assert Keys(rows) == [SECOND, MERGED] && ActiveByHash(g, "s", "h") == {SECOND, MERGED};
  }

  lemma BeginEnabled(s: System, rows: seq<Row>)
    requires RowsOf(s.g, "s", "h", rows) && |rows| >= 2 && WorkerOf(s, 0).Idle?
    ensures WorkerOf(Step(s, Begin(0, "s", "h", rows)), 0) == Snapshot("s", "h", rows)
  {
    GuardNeverFires(s.g, "s", "h", rows);
  }

  /**
   * A run of the system that leaves a group with a consolidated conclusion, its pass having crashed, and
   * a worker starting to merge that group all the same.
   */
  lemma ConsolidatedGroupIsMergedAgain() returns (actions: seq<Action>, rows: seq<Row>)
    ensures var s := Run(EMPTY, actions);
            && InGroup(s.g, FIRST, "s", "h") && s.g.nodes[FIRST].status == Consolidated
            && RowsOf(s.g, "s", "h", rows) && |rows| == 2 && WorkerOf(s, 0).Idle?
            && WorkerOf(Run(EMPTY, actions + [Begin(0, "s", "h", rows)]), 0) == Snapshot("s", "h", rows)
  {
    var start, x, y, z := CanonicalWritten();
    RunAppend(EMPTY, start, WriteEdge(0));
    RunAppend(EMPTY, start + [WriteEdge(0)], MarkOriginal(0));
    RunAppend(EMPTY, start + [WriteEdge(0)] + [MarkOriginal(0)], Crash(0));
    DiesBetweenMarks(Run(EMPTY, start), x, y, z);
    actions := start + [WriteEdge(0)] + [MarkOriginal(0)] + [Crash(0)];
    rows := TwoLeftActive(Run(EMPTY, actions).g, x.(status := Consolidated), y, z);
    BeginEnabled(Run(EMPTY, actions), rows);
    RunAppend(EMPTY, actions, Begin(0, "s", "h", rows));
  }

  // --------------------------------------------------- an uninterrupted pass

  /** The edge-then-mark writes for each original in turn. */
  function LinkAndMark(g: Graph, canonical: Key, todo: seq<Key>): Graph {
    if todo == [] then g
    else
      var h := LinkAndMark(g, canonical, todo[..|todo| - 1]);
      Mark(Link(h, canonical, todo[|todo| - 1]), todo[|todo| - 1])
  }

  /** `h` is `g` with the statuses of `keys` set and perhaps more edges. */
  ghost predicate StatusesSet(g: Graph, h: Graph, keys: seq<Key>) {
    && h.nodes.Keys == g.nodes.Keys && h.clock == g.clock
    && forall k :: k in g.nodes ==>
         h.nodes[k] == if k in keys then g.nodes[k].(status := Consolidated) else g.nodes[k]
  }

  lemma {:induction false} LinkAndMarkValues(g: Graph, canonical: Key, todo: seq<Key>)
    requires canonical in g.nodes && forall k :: k in todo ==> k in g.nodes
    ensures var h := LinkAndMark(g, canonical, todo);
            StatusesSet(g, h, todo) && h.edges == g.edges + (set k | k in todo :: (canonical, k))
  {
    if todo == [] {
    } else {
      var init, last := todo[..|todo| - 1], todo[|todo| - 1];
      assert forall k :: k in todo <==> k in init || k == last;
      LinkAndMarkValues(g, canonical, init);
      MarkEffect(Link(LinkAndMark(g, canonical, init), canonical, last), last);
    }
  }

  /** Marking what has a consolidator, and linking later to earlier, keeps a store sound. */
  lemma MarkedIsSound(g: Graph, h: Graph, keys: seq<Key>)
    requires Sound(g) && StatusesSet(g, h, keys) && g.edges <= h.edges
    requires forall e :: e in h.edges && e !in g.edges ==> Consolidates(g, e.0, e.1)
    requires forall k :: k in keys ==> HasConsolidator(h, k)
    ensures Sound(h) && Extends(g, h)
  {
    ConsolidatorsStay(g, h);
    forall e | e in h.edges ensures Consolidates(h, e.0, e.1) {
      assert Consolidates(g, e.0, e.1);
    }
  }

  lemma LinkAndMarkEffect(g: Graph, canonical: Key, todo: seq<Key>)
    requires Sound(g) && canonical in g.nodes && forall k :: k in todo ==> Consolidates(g, canonical, k)
    ensures var h := LinkAndMark(g, canonical, todo);
            && Sound(h) && Extends(g, h) && StatusesSet(g, h, todo)
            && h.edges == g.edges + (set k | k in todo :: (canonical, k))
  {
    assert forall k :: k in todo ==> Consolidates(g, canonical, k) && k in g.nodes;
    LinkAndMarkValues(g, canonical, todo);
    var h := LinkAndMark(g, canonical, todo);
    forall k | k in todo ensures HasConsolidator(h, k) {
      assert (canonical, k) in h.edges;
    }
    MarkedIsSound(g, h, todo);
  }

  function Canonicalised(g: Graph, canonical: Key, hash: string, rows: seq<Row>): Graph
    requires rows != []
  {
    var written := Upsert(g, canonical, hash, rows[Best(rows)].body.content, MergedConfidence(rows), Active);
    LinkAndMark(written, canonical, Keys(rows))
  }

  /** The canonical once written comes after everything it is to replace. */
  lemma CanonicalCovers(g: Graph, canonical: Key, hash: string, content: string, confidence: real, keys: seq<Key>)
    requires Sound(g) && canonical !in g.nodes
    requires forall k :: k in keys ==> k in ActiveByHash(g, canonical.silo, hash)
    ensures var h := Upsert(g, canonical, hash, content, confidence, Active);
            && Sound(h) && canonical in h.nodes && canonical !in keys
            && forall k :: k in keys ==> Consolidates(h, canonical, k)
  {
    UpsertKeeps(g, canonical, hash, content, confidence);
  }

  lemma MergeEffect(g: Graph, canonical: Key, hash: string, content: string, confidence: real, keys: seq<Key>)
    requires Sound(g) && canonical !in g.nodes && Lists(keys, ActiveByHash(g, canonical.silo, hash))
    ensures var h := LinkAndMark(Upsert(g, canonical, hash, content, confidence, Active), canonical, keys);
            && Sound(h) && Extends(g, h)
            && h.edges == g.edges + (set k | k in ActiveByHash(g, canonical.silo, hash) :: (canonical, k))
            && h.nodes.Keys == g.nodes.Keys + {canonical}
            && h.nodes[canonical] == Conclusion(hash, content, confidence, Active, g.clock)
            && forall k :: k in g.nodes ==>
                 h.nodes[k] == if k in keys then g.nodes[k].(status := Consolidated) else g.nodes[k]
  {
    var group := ActiveByHash(g, canonical.silo, hash);
    CanonicalCovers(g, canonical, hash, content, confidence, keys);
    LinkAndMarkEffect(Upsert(g, canonical, hash, content, confidence, Active), canonical, keys);
    assert (set k | k in keys :: (canonical, k)) == (set k | k in group :: (canonical, k));
  }

  /** A completed pass leaves the canonical as the group's only active conclusion, and touches no other group. */
  lemma PassEffect(g: Graph, canonical: Key, hash: string, rows: seq<Row>)
    requires Sound(g) && canonical !in g.nodes && rows != []
    requires RowsOf(g, canonical.silo, hash, rows)
    ensures var h := Canonicalised(g, canonical, hash, rows);
            && Sound(h) && Extends(g, h)
            && ActiveByHash(h, canonical.silo, hash) == {canonical}
            && h.edges == g.edges + (set k | k in ActiveByHash(g, canonical.silo, hash) :: (canonical, k))
            && (forall s, x :: (s, x) != (canonical.silo, hash) ==> ActiveByHash(h, s, x) == ActiveByHash(g, s, x))
            && h.nodes.Keys == g.nodes.Keys + {canonical}
            && h.nodes[canonical] == Conclusion(hash, rows[Best(rows)].body.content, MergedConfidence(rows),
                                                Active, g.clock)
  {
    MergeEffect(g, canonical, hash, rows[Best(rows)].body.content, MergedConfidence(rows), Keys(rows));
    GroupsAfter(g, Canonicalised(g, canonical, hash, rows), canonical, hash, Keys(rows));
  }

  lemma GroupsAfter(g: Graph, h: Graph, canonical: Key, hash: string, keys: seq<Key>)
    requires canonical !in g.nodes && h.nodes.Keys == g.nodes.Keys + {canonical}
    requires h.nodes[canonical].hash == hash && h.nodes[canonical].status == Active
    requires forall k :: k in keys <==> k in ActiveByHash(g, canonical.silo, hash)
    requires forall k :: k in g.nodes ==>
               h.nodes[k] == if k in keys then g.nodes[k].(status := Consolidated) else g.nodes[k]
    ensures ActiveByHash(h, canonical.silo, hash) == {canonical}
    ensures forall s, x :: (s, x) != (canonical.silo, hash) ==> ActiveByHash(h, s, x) == ActiveByHash(g, s, x)
  {
    forall s, x | (s, x) != (canonical.silo, hash) ensures ActiveByHash(h, s, x) == ActiveByHash(g, s, x) {
      forall k ensures k in ActiveByHash(h, s, x) <==> k in ActiveByHash(g, s, x) {}
    }
  }

  function MarkAll(g: Graph, keys: seq<Key>): Graph {
    if keys == [] then g else Mark(MarkAll(g, keys[..|keys| - 1]), keys[|keys| - 1])
  }

  lemma {:induction false} MarkAllValues(g: Graph, keys: seq<Key>)
    ensures StatusesSet(g, MarkAll(g, keys), keys) && MarkAll(g, keys).edges == g.edges
  {
    if keys == [] {
    } else {
      var init, last := keys[..|keys| - 1], keys[|keys| - 1];
      assert forall k :: k in keys <==> k in init || k == last;
      MarkAllValues(g, init);
      MarkEffect(MarkAll(g, init), last);
    }
  }

  /** In the silo exactly what has a consolidator is consolidated; elsewhere nothing has changed. */
  ghost predicate Repaired(g: Graph, h: Graph, silo: string) {
    && (forall k :: k in h.nodes && k.silo == silo ==> (h.nodes[k].status == Consolidated <==> HasConsolidator(h, k)))
    && (forall k :: k in g.nodes && k.silo != silo ==> k in h.nodes && h.nodes[k] == g.nodes[k])
    && h.nodes.Keys == g.nodes.Keys && h.edges == g.edges
  }

  /** A completed repair leaves no orphan and marks nothing else. */
  lemma RepairEffect(g: Graph, silo: string, keys: seq<Key>)
    requires Sound(g) && Lists(keys, Orphans(g, silo))
    ensures var h := MarkAll(g, keys);
            && Sound(h) && Orphans(h, silo) == {} && h.edges == g.edges && h.nodes.Keys == g.nodes.Keys
            && (forall k :: k in g.nodes ==> h.nodes[k] == if k in Orphans(g, silo)
                                                          then g.nodes[k].(status := Consolidated) else g.nodes[k])
            && Repaired(g, h, silo)
  {
    var h := MarkAll(g, keys);
    MarkAllValues(g, keys);
    ConsolidatorsStay(g, h);
    ConsolidatorsStay(h, g);
    MarkedIsSound(g, h, keys);
  }

  /** The write actions of worker `w` for `n` originals. */
  function Writes(w: nat, n: nat): seq<Action> {
    if n == 0 then [] else Writes(w, n - 1) + [WriteEdge(w)] + [MarkOriginal(w)]
  }

  lemma LinkThenMark(s: System, w: nat, canonical: Key, todo: seq<Key>)
    requires todo != [] && WorkerOf(s, w) == Linking(canonical, todo, false)
    ensures var r := Step(Step(s, WriteEdge(w)), MarkOriginal(w));
            r.g == Mark(Link(s.g, canonical, todo[0]), todo[0]) && WorkerOf(r, w) == AfterMark(canonical, todo)
  {
    assert Step(s, WriteEdge(w)) == Put(s.(g := Link(s.g, canonical, todo[0])), w, Linking(canonical, todo, true));
  }

  lemma {:induction false} LinkingRun(s: System, w: nat, canonical: Key, todo: seq<Key>, n: nat)
    requires n <= |todo| && WorkerOf(s, w) == (if todo == [] then Idle else Linking(canonical, todo, false))
    ensures var r := Run(s, Writes(w, n));
            && r.g == LinkAndMark(s.g, canonical, todo[..n])
            && WorkerOf(r, w) == (if n == |todo| then Idle else Linking(canonical, todo[n..], false))
  {
    if n == 0 {
    } else {
      LinkingRun(s, w, canonical, todo, n - 1);
      LinkThenMark(Run(s, Writes(w, n - 1)), w, canonical, todo[n - 1..]);
      RunAppend(s, Writes(w, n - 1), WriteEdge(w));
      RunAppend(s, Writes(w, n - 1) + [WriteEdge(w)], MarkOriginal(w));
      assert todo[..n][..n - 1] == todo[..n - 1] && todo[n - 1..][1..] == todo[n..];
    }
  }

  /** The uninterrupted pass is one of the runs above: read, write the canonical, then edge and mark each original. */
  lemma {:induction false} PassIsARun(s: System, w: nat, canonical: Key, hash: string, rows: seq<Row>)
    requires WorkerOf(s, w).Idle? && canonical !in s.g.nodes
    requires RowsOf(s.g, canonical.silo, hash, rows) && |rows| >= 2
    ensures var r := Run(Run(s, [Begin(w, canonical.silo, hash, rows), WriteCanonical(w, canonical.id)]),
                         Writes(w, |rows|));
            r.g == Canonicalised(s.g, canonical, hash, rows) && WorkerOf(r, w).Idle?
  {
    GuardNeverFires(s.g, canonical.silo, hash, rows);
    var a1, a2 := Begin(w, canonical.silo, hash, rows), WriteCanonical(w, canonical.id);
    var begun := Put(s, w, Snapshot(canonical.silo, hash, rows));
    assert Run(s, [a1]) == begun by {
      assert [a1][..0] == [] && Run(s, [a1]) == Step(Run(s, []), a1);
    }
    var written := Run(s, [a1, a2]);
    assert written == Step(begun, a2) by { assert [a1, a2][..1] == [a1]; }
    LinkingRun(written, w, canonical, Keys(rows), |rows|);
    assert Keys(rows)[..|rows|] == Keys(rows);
  }

  /** The repair actions of worker `w` for `n` conclusions. */
  function Repairs(w: nat, n: nat): seq<Action> {
    if n == 0 then [] else Repairs(w, n - 1) + [RepairOne(w)]
  }

  lemma {:induction false} RepairingRun(s: System, w: nat, todo: seq<Key>, n: nat)
    requires n <= |todo| && WorkerOf(s, w) == Repairing(todo)
    ensures var r := Run(s, Repairs(w, n));
            r.g == MarkAll(s.g, todo[..n]) && WorkerOf(r, w) == Repairing(todo[n..])
  {
    if n == 0 {
    } else {
      RepairingRun(s, w, todo, n - 1);
      RunAppend(s, Repairs(w, n - 1), RepairOne(w));
      RepairsOne(Run(s, Repairs(w, n - 1)), w, todo[n - 1..]);
      MarkAllNext(s.g, todo, n);
      assert todo[n - 1..][1..] == todo[n..];
    }
  }

  lemma RepairsOne(s: System, w: nat, todo: seq<Key>)
    requires todo != [] && WorkerOf(s, w) == Repairing(todo)
    ensures var r := Step(s, RepairOne(w)); r.g == Mark(s.g, todo[0]) && WorkerOf(r, w) == Repairing(todo[1..])
  {}

  lemma MarkAllNext(g: Graph, keys: seq<Key>, n: nat)
    requires 0 < n <= |keys|
    ensures MarkAll(g, keys[..n]) == Mark(MarkAll(g, keys[..n - 1]), keys[n - 1])
  {
    assert keys[..n][..n - 1] == keys[..n - 1];
  }

  /** So is the uninterrupted repair: read the orphans, mark each, finish. */
  lemma RepairIsARun(s: System, w: nat, silo: string, keys: seq<Key>)
    requires WorkerOf(s, w).Idle? && Lists(keys, Orphans(s.g, silo))
    ensures var r := Run(Step(s, BeginRepair(w, silo, keys)), Repairs(w, |keys|));
            r.g == MarkAll(s.g, keys) && WorkerOf(Step(r, RepairOne(w)), w).Idle? && Step(r, RepairOne(w)).g == r.g
  {
    var begun := Put(s, w, Repairing(keys));
    assert Step(s, BeginRepair(w, silo, keys)) == begun;
    RepairingRun(begun, w, keys, |keys|);
    assert keys[..|keys|] == keys;
    RepairsEnd(Run(begun, Repairs(w, |keys|)), w);
  }

  lemma RepairsEnd(s: System, w: nat)
    requires WorkerOf(s, w) == Repairing([])
    ensures var r := Step(s, RepairOne(w)); r.g == s.g && WorkerOf(r, w).Idle?
  {
  }

  /**
   * From any state a run can leave, a completed pass leaves one active conclusion if there was any, else
   * none; a second pass then finds too few to do anything.
   */
  lemma CrashThenConsolidate(actions: seq<Action>, canonical: Key, hash: string, rows: seq<Row>)
    requires var g := Run(EMPTY, actions).g; canonical !in g.nodes && RowsOf(g, canonical.silo, hash, rows)
    ensures var g := Run(EMPTY, actions).g;
            var h := if |rows| < 2 then g else Canonicalised(g, canonical, hash, rows);
            && |ActiveByHash(h, canonical.silo, hash)| == (if ActiveByHash(g, canonical.silo, hash) == {} then 0 else 1)
            && Sound(h) && forall again :: RowsOf(h, canonical.silo, hash, again) ==> |again| < 2
  {
    RunKeeps(EMPTY, actions);
    var g := Run(EMPTY, actions).g;
    ListedCount(Keys(rows), ActiveByHash(g, canonical.silo, hash));
    if |rows| >= 2 {
      PassEffect(g, canonical, hash, rows);
    }
    var h := if |rows| < 2 then g else Canonicalised(g, canonical, hash, rows);
    forall again | RowsOf(h, canonical.silo, hash, again) ensures |again| < 2 {
      ListedCount(Keys(again), ActiveByHash(h, canonical.silo, hash));
    }
  }

  lemma {:induction false} ListedCount(s: seq<Key>, keys: set<Key>)
    requires Lists(s, keys)
    ensures |keys| == |s|
  {
    if s == [] {
      assert keys == {};
    } else {
      var last := s[|s| - 1];
      assert last in s;
      ListedCount(s[..|s| - 1], keys - {last});
    }
  }

  // -------------------------------------------------------- the consolidator

  /** The canonical's confidence and content, told from any listing of the group. */
  lemma CanonicalFields(g: Graph, silo: string, hash: string, rows: seq<Row>, others: seq<Row>)
    requires RowsOf(g, silo, hash, rows) && RowsOf(g, silo, hash, others) && rows != [] && others != []
    ensures Rewarded(MergedConfidence(rows), TotalConfidence(others), |others|)
    ensures exists i :: 0 <= i < |others| && rows[Best(rows)].body.content == others[i].body.content
                 && forall j :: 0 <= j < |others| ==> others[j].body.confidence <= others[i].body.confidence
  {
    MergedIsRewarded(rows);
    ListingsAgree(g, silo, hash, rows, others);
    RowsDistinct(g, silo, hash, rows);
    RowsDistinct(g, silo, hash, others);
    assert rows[Best(rows)] in rows && rows[Best(rows)] in others;
    var i :| 0 <= i < |others| && others[i] == rows[Best(rows)];
    forall j | 0 <= j < |others| ensures others[j].body.confidence <= others[i].body.confidence {
      assert others[j] in others && others[j] in rows;
    }
  }

  class ConclusionStore {
    var g: Graph
    ghost var history: seq<Graph>   // every state the store has been in

    constructor (g: Graph)
      ensures this.g == g && history == [g]
    {
      this.g, history := g, [g];
    }

    /** A process dying at any moment so far would have left a sound store. */
    ghost predicate AlwaysSound()
      reads this
    {
      Sound(g) && forall h {:trigger Sound(h)} :: h in history ==> Sound(h)
    }

    method ListKeys(keys: set<Key>) returns (s: seq<Key>)
      ensures Lists(s, keys)
    {
      s := [];
      var rest := keys;
      while rest != {}
        invariant Distinct(s) && rest <= keys
        invariant forall k :: k in s <==> k in keys && k !in rest
        decreases rest
      {
        var k :| k in rest;
        s := s + [k];
        rest := rest - {k};
      }
    }

    method GetConclusionsByHash(silo: string, hash: string) returns (rows: seq<Row>)
      ensures RowsOf(g, silo, hash, rows)
      ensures forall k :: k in Keys(rows) <==>
                k in g.nodes && k.silo == silo && g.nodes[k].hash == hash && g.nodes[k].status == Active
    {
      var keys := ListKeys(ActiveByHash(g, silo, hash));
      rows := [];
      for i := 0 to |keys|
        invariant Keys(rows) == keys[..i]
        invariant forall r :: r in rows ==> r.key in g.nodes && r.body == g.nodes[r.key]
      {
        assert keys[i] in keys;
        rows := rows + [Row(keys[i], g.nodes[keys[i]])];
        assert Keys(rows) == keys[..i] + [keys[i]];
      }
      assert keys[..|keys|] == keys;
    }

    method UpsertConclusion(key: Key, hash: string, content: string, confidence: real, status: Status)
      modifies this
      ensures g == Upsert(old(g), key, hash, content, confidence, status)
      ensures key in g.nodes && g.nodes[key] == Conclusion(
                if key in old(g).nodes then old(g).nodes[key].hash else hash, content, confidence, status,
                if key in old(g).nodes then old(g).nodes[key].born else old(g).clock)
      ensures g.nodes - {key} == old(g).nodes - {key} && g.edges == old(g).edges
      ensures g.clock == if key in old(g).nodes then old(g).clock else old(g).clock + 1
      ensures Extends(old(g), g) && (Sound(old(g)) && status == Active ==> Sound(g))
      ensures history == old(history) + [g]
    {
      if status == Active && Sound(g) { UpsertKeeps(g, key, hash, content, confidence); }
      if key in g.nodes {
        var c := g.nodes[key];
        g := g.(nodes := g.nodes[key := Conclusion(c.hash, content, confidence, status, c.born)]);
      } else {
        g := Graph(g.nodes[key := Conclusion(hash, content, confidence, status, g.clock)], g.edges, g.clock + 1);
      }
      history := history + [g];
    }

    method CreateConsolidatesEdge(canonical: Key, original: Key)
      modifies this
      ensures g == Link(old(g), canonical, original)
      ensures (canonical, original) in g.edges <==>
              (canonical, original) in old(g).edges || (canonical in g.nodes && original in g.nodes)
      ensures g.nodes == old(g).nodes && g.clock == old(g).clock
      ensures g.edges - {(canonical, original)} == old(g).edges - {(canonical, original)}
      ensures Sound(old(g)) && Consolidates(old(g), canonical, original) ==> Sound(g) && Extends(old(g), g)
      ensures history == old(history) + [g]
    {
      if Sound(g) && Consolidates(g, canonical, original) { LinkKeeps(g, canonical, original); }
      if canonical in g.nodes && original in g.nodes {
        g := g.(edges := g.edges + {(canonical, original)});
      }
      history := history + [g];
    }

    method MarkConclusionConsolidated(key: Key)
      modifies this
      ensures g == Mark(old(g), key)
      ensures g.edges == old(g).edges && g.clock == old(g).clock && g.nodes.Keys == old(g).nodes.Keys
      ensures forall k :: k in g.nodes ==>
                g.nodes[k] == if k == key then old(g).nodes[k].(status := Consolidated) else old(g).nodes[k]
      ensures Sound(old(g)) && HasConsolidator(old(g), key) ==> Sound(g) && Extends(old(g), g)
      ensures history == old(history) + [g]
    {
      if Sound(g) && HasConsolidator(g, key) { MarkKeeps(g, key); }
      if key in g.nodes {
        g := g.(nodes := g.nodes[key := g.nodes[key].(status := Consolidated)]);
      }
      history := history + [g];
    }

    method FindOrphanedActiveConclusions(silo: string) returns (keys: seq<Key>)
      ensures Lists(keys, Orphans(g, silo))
      ensures forall k :: k in keys <==>
                k in g.nodes && k.silo == silo && g.nodes[k].status == Active && HasConsolidator(g, k)
    {
      keys := ListKeys(Orphans(g, silo));
    }
  }

  class ConclusionConsolidator {
    const mg: ConclusionStore

    constructor (mg: ConclusionStore)
      ensures this.mg == mg
    {
      this.mg := mg;
    }

    /** `id` is the fresh identifier drawn for the canonical. */
    method ConsolidateByHash(silo: string, hash: string, id: string) returns (r: Option<Key>)
      requires mg.AlwaysSound() && Key(silo, id) !in mg.g.nodes
      modifies mg
      ensures mg.AlwaysSound() && old(mg.history) <= mg.history && Extends(old(mg.g), mg.g)
      ensures r.None? <==> |ActiveByHash(old(mg.g), silo, hash)| < 2
      ensures r.None? ==> mg.g == old(mg.g)
      ensures r.Some? ==>
                && r.value in mg.g.nodes
                && (forall rows: seq<Row> :: RowsOf(old(mg.g), silo, hash, rows) && rows != [] ==>
                      && Rewarded(mg.g.nodes[r.value].confidence, TotalConfidence(rows), |rows|)
                      && exists i :: 0 <= i < |rows| && mg.g.nodes[r.value].content == rows[i].body.content
                           && forall j :: 0 <= j < |rows| ==> rows[j].body.confidence <= rows[i].body.confidence)
      ensures r.Some? ==>
                && r.value == Key(silo, id) && ActiveByHash(mg.g, silo, hash) == {r.value}
                && mg.g.edges == old(mg.g).edges + (set k | k in ActiveByHash(old(mg.g), silo, hash) :: (r.value, k))
                && exists rows :: RowsOf(old(mg.g), silo, hash, rows) && rows != []
                     && mg.g == Canonicalised(old(mg.g), r.value, hash, rows)
    {
      var rows := mg.GetConclusionsByHash(silo, hash);
      GuardNeverFires(mg.g, silo, hash, rows);
      ListedCount(Keys(rows), ActiveByHash(mg.g, silo, hash));
      if exists i :: 0 <= i < |rows| && rows[i].body.status == Consolidated {
        return None;
      }
      if |rows| < 2 {
        return None;
      }
      PassEffect(mg.g, Key(silo, id), hash, rows);
      forall others: seq<Row> | RowsOf(mg.g, silo, hash, others) && others != []
        ensures Rewarded(MergedConfidence(rows), TotalConfidence(others), |others|)
        ensures exists i :: 0 <= i < |others| && rows[Best(rows)].body.content == others[i].body.content
                     && forall j :: 0 <= j < |others| ==> others[j].body.confidence <= others[i].body.confidence
      {
        CanonicalFields(mg.g, silo, hash, rows, others);
      }
      var canonical := CreateCanonical(silo, hash, rows, id);
      return Some(canonical);
    }

    method CreateCanonical(silo: string, hash: string, originals: seq<Row>, id: string) returns (canonical: Key)
      requires originals != []
      modifies mg
      ensures canonical == Key(silo, id)
      ensures mg.g == Canonicalised(old(mg.g), canonical, hash, originals)
      ensures old(mg.history) <= mg.history
      ensures old(mg.AlwaysSound()) && Key(silo, id) !in old(mg.g).nodes && RowsOf(old(mg.g), silo, hash, originals) ==>
                mg.AlwaysSound()
    {
      canonical := Key(silo, id);
      ghost var sound := mg.AlwaysSound() && canonical !in mg.g.nodes && RowsOf(mg.g, silo, hash, originals);
      if sound {
        CanonicalCovers(mg.g, canonical, hash, originals[Best(originals)].body.content, MergedConfidence(originals),
                        Keys(originals));
      }
      mg.UpsertConclusion(canonical, hash, originals[Best(originals)].body.content,
                          MergedConfidence(originals), Active);
      LinkAndMarkEach(canonical, Keys(originals), sound);
    }

    /** For each original in turn the edge, then the mark. */
    method LinkAndMarkEach(canonical: Key, keys: seq<Key>, ghost sound: bool)
      requires sound ==> mg.AlwaysSound() && forall k :: k in keys ==> Consolidates(mg.g, canonical, k)
      modifies mg
      ensures mg.g == LinkAndMark(old(mg.g), canonical, keys) && old(mg.history) <= mg.history
      ensures sound ==> mg.AlwaysSound()
    {
      var i := 0;
      while i < |keys|
        invariant 0 <= i <= |keys| && mg.g == LinkAndMark(old(mg.g), canonical, keys[..i])
        invariant old(mg.history) <= mg.history
        invariant sound ==> mg.AlwaysSound() && forall k :: k in keys ==> Consolidates(mg.g, canonical, k)
      {
        assert keys[..i + 1][..i] == keys[..i];
        LinkAndMarkOne(canonical, keys[i], keys, sound);
        i := i + 1;
      }
      assert keys[..i] == keys;
    }

    /** The two writes for one original. */
    method LinkAndMarkOne(canonical: Key, original: Key, ghost keys: seq<Key>, ghost sound: bool)
      requires sound ==> mg.AlwaysSound() && forall k :: k in keys ==> Consolidates(mg.g, canonical, k)
      requires original in keys
      modifies mg
      ensures mg.g == Mark(Link(old(mg.g), canonical, original), original)
      ensures old(mg.history) <= mg.history
      ensures sound ==> mg.AlwaysSound() && forall k :: k in keys ==> Consolidates(mg.g, canonical, k)
    {
      mg.CreateConsolidatesEdge(canonical, original);
      assert sound ==> HasConsolidator(mg.g, original) by {
        if sound { assert Consolidates(old(mg.g), canonical, original) && (canonical, original) in mg.g.edges; }
      }
      mg.MarkConclusionConsolidated(original);
      assert sound ==> Extends(old(mg.g), mg.g);
      if sound {
        forall k | k in keys ensures Consolidates(mg.g, canonical, k) {
          assert Consolidates(old(mg.g), canonical, k);
        }
      }
    }

    /** Marks each of the keys in turn; had the process died in between, the store would be sound. */
    method MarkEach(keys: seq<Key>)
      requires mg.AlwaysSound() && forall k :: k in keys ==> HasConsolidator(mg.g, k)
      modifies mg
      ensures mg.AlwaysSound() && old(mg.history) <= mg.history && mg.g == MarkAll(old(mg.g), keys)
    {
      var i := 0;
      while i < |keys|
        invariant 0 <= i <= |keys| && mg.g == MarkAll(old(mg.g), keys[..i])
        invariant mg.AlwaysSound() && old(mg.history) <= mg.history && mg.g.edges == old(mg.g).edges
      {
        MarkAllNext(old(mg.g), keys, i + 1);
        assert keys[i] in keys && HasConsolidator(old(mg.g), keys[i]);
        ConsolidatorsStay(old(mg.g), mg.g);
        mg.MarkConclusionConsolidated(keys[i]);
        i := i + 1;
      }
      assert keys[..i] == keys;
    }

    method RepairOrphanedConsolidations(silo: string) returns (count: nat)
      requires mg.AlwaysSound()
      modifies mg
      ensures mg.AlwaysSound() && old(mg.history) <= mg.history
      ensures count == |Orphans(old(mg.g), silo)| && Orphans(mg.g, silo) == {}
      ensures mg.g.edges == old(mg.g).edges && mg.g.nodes.Keys == old(mg.g).nodes.Keys
      ensures forall k :: k in old(mg.g).nodes ==>
                mg.g.nodes[k] == if k in Orphans(old(mg.g), silo)
                                 then old(mg.g).nodes[k].(status := Consolidated) else old(mg.g).nodes[k]
      ensures Repaired(old(mg.g), mg.g, silo)
    {
      var keys := mg.FindOrphanedActiveConclusions(silo);
      ListedCount(keys, Orphans(mg.g, silo));
      RepairEffect(mg.g, silo, keys);
      MarkEach(keys);
      count := |keys|;
    }
  }
}
