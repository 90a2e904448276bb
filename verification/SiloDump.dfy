/**
 * Silo export and import: a paginated printer and an upserting parser over a property graph.
 *
 * `DB` is a graph database; a node's or relationship's internal id is its position. Export prints
 * one silo's nodes and then its relationships as records; import merges the records into another
 * database under a new silo id. JSON is the identity on records.
 */
module SiloDump {
  import opened Prelude

  datatype Value = Str(s: string) | Num(n: int)

  type Props = map<string, Value>

  datatype Node = Node(labels: set<string>, props: Props)

  datatype Rel = Rel(src: nat, dst: nat, kind: string, props: Props)

  datatype DB = DB(nodes: seq<Node>, rels: seq<Rel>)

  datatype Record =
    | NodeRec(id: nat, labels: set<string>, props: Props)
    | EdgeRec(src: nat, dst: nat, kind: string, props: Props)

  predicate Has(props: Props, key: string, v: Value) { key in props && props[key] == v }

  predicate InSilo(n: Node, silo: string) { Has(n.props, "silo_id", Str(silo)) }

  ghost predicate WellFormed(db: DB) {
    forall r :: r in db.rels ==> r.src < |db.nodes| && r.dst < |db.nodes|
  }

  // ----------------------------------------------------------------- export

  /** Internal ids of a silo's nodes, ascending. */
  function Eids(nodes: seq<Node>, silo: string): (r: seq<nat>)
    ensures forall k :: 0 <= k < |r| ==> r[k] < |nodes| && InSilo(nodes[r[k]], silo)
    ensures forall j, k :: 0 <= j < k < |r| ==> r[j] < r[k]
    ensures forall i :: 0 <= i < |nodes| && InSilo(nodes[i], silo) ==> i in r
  {
    if nodes == [] then []
    else
      var n := |nodes| - 1;
      var r := Eids(nodes[..n], silo);
      assert forall i :: 0 <= i < n ==> nodes[..n][i] == nodes[i];
      if InSilo(nodes[n], silo) then r + [n] else r
  }

  predicate RelInSilo(db: DB, r: Rel, silo: string) {
    r.src < |db.nodes| && r.dst < |db.nodes| && InSilo(db.nodes[r.src], silo) && InSilo(db.nodes[r.dst], silo)
  }

  /** A silo's relationships: both ends in the silo, in id order. */
  function SiloRels(db: DB, rels: seq<Rel>, silo: string): (s: seq<Rel>)
    ensures forall r :: r in s <==> r in rels && RelInSilo(db, r, silo)
  {
    if rels == [] then []
    else
      var n := |rels| - 1;
      var s := SiloRels(db, rels[..n], silo);
      assert rels == rels[..n] + [rels[n]];
      if RelInSilo(db, rels[n], silo) then s + [rels[n]] else s
  }

  /** The relationships with both ends in the silo. */
  function RelMarks(db: DB, silo: string): seq<bool> {
    seq(|db.rels|, i requires 0 <= i < |db.rels| =>
      var r := db.rels[i];
      && r.src < |db.nodes| && Has(db.nodes[r.src].props, "silo_id", Str(silo))
      && r.dst < |db.nodes| && Has(db.nodes[r.dst].props, "silo_id", Str(silo)))
  }

  lemma {:induction false} SiloRelsFilter(db: DB, rels: seq<Rel>, silo: string, marks: seq<bool>, n: nat)
    requires |marks| == |rels| && n <= |rels|
    requires forall i :: 0 <= i < |rels| ==> (marks[i] <==> RelInSilo(db, rels[i], silo))
    ensures SiloRels(db, rels[..n], silo) == Filter(rels, marks, n)
  {
    if n == 0 {
      assert rels[..0] == [];
    } else {
      SiloRelsFilter(db, rels, silo, marks, n - 1);
      SiloRelsNext(db, rels, silo, n);
    }
  }

  lemma SiloRelsNext(db: DB, rels: seq<Rel>, silo: string, n: nat)
    requires 0 < n <= |rels|
    ensures SiloRels(db, rels[..n], silo) ==
            SiloRels(db, rels[..n - 1], silo) + if RelInSilo(db, rels[n - 1], silo) then [rels[n - 1]] else []
  {
    assert rels[..n][..n - 1] == rels[..n - 1];
  }

  /** Each of the silo's relationships comes out once, in id order, and no other does. */
  lemma SiloRelsKept(db: DB, silo: string)
    ensures Kept(db.rels, RelMarks(db, silo), SiloRels(db, db.rels, silo))
  {
    var marks := RelMarks(db, silo);
    SiloRelsFilter(db, db.rels, silo, marks, |db.rels|);
    assert db.rels[..|db.rels|] == db.rels;
    FilterKeeps(db.rels, marks);
  }

  function NodeRecords(db: DB, silo: string): seq<Record> {
    var ids := Eids(db.nodes, silo);
    seq(|ids|, k requires 0 <= k < |ids| => NodeRec(ids[k], db.nodes[ids[k]].labels, db.nodes[ids[k]].props))
  }

  function EdgeRecord(r: Rel): Record { EdgeRec(r.src, r.dst, r.kind, r.props) }

  function EdgeRecords(db: DB, silo: string): seq<Record> {
    var rels := SiloRels(db, db.rels, silo);
    seq(|rels|, k requires 0 <= k < |rels| => EdgeRecord(rels[k]))
  }

  /** One page of query results: SKIP then LIMIT. */
  function Page(rows: seq<Record>, skip: nat, limit: nat): seq<Record> {
    var from := Min(skip, |rows|);
    rows[from..Min(from + limit, |rows|)]
  }

  /** The page loop; the same for nodes and for relationships. Complete exactly when pages are not empty. */
  method ExportPages(rows: seq<Record>, pageSize: nat) returns (out: seq<Record>, total: nat)
    ensures total == |out| && out == if pageSize == 0 then [] else rows
  {
    out, total := [], 0;
    var skip := 0;
    while true
      invariant total == |out| && out == rows[..Min(skip, |rows|)]
      invariant pageSize == 0 ==> skip == 0
      decreases |rows| - skip
    {
      var page := Page(rows, skip, pageSize);
      if page == [] {
        break;
      }
      for i := 0 to |page|
        invariant total == |out| && out == rows[..skip] + page[..i]
      {
        out := out + [page[i]];
        total := total + 1;
      }
      assert rows[..skip] + page == rows[..Min(skip + pageSize, |rows|)];
      skip := skip + pageSize;
      if |page| < pageSize {
        break;
      }
    }
  }

  method Export(db: DB, silo: string, pageSize: nat) returns (dump: seq<Record>)
    ensures dump == if pageSize == 0 then [] else Dump(db, silo)
  {
    var nodes, _ := ExportPages(NodeRecords(db, silo), pageSize);
    var edges, _ := ExportPages(EdgeRecords(db, silo), pageSize);
    dump := nodes + edges;
  }

  function Dump(db: DB, silo: string): seq<Record> {
    NodeRecords(db, silo) + EdgeRecords(db, silo)
  }

  // ----------------------------------------------------------------- import

  /** The target silo, and which characters count as alphanumeric. */
  datatype Target = Target(silo: string, alnum: char -> bool)

  function Sanitize(t: Target, name: string): string {
    if name == "" then ""
    else
      var rest, c := Sanitize(t, name[..|name| - 1]), name[|name| - 1];
      if t.alnum(c) || c == '_' then rest + [c] else rest
  }

  predicate Clean(t: Target, name: string) {
    forall i :: 0 <= i < |name| ==> t.alnum(name[i]) || name[i] == '_'
  }

  /** A name survives sanitising exactly when it has identifier characters only. */
  lemma {:induction false} SanitizeKeeps(t: Target, name: string)
    ensures Sanitize(t, name) == name <==> Clean(t, name)
    ensures |Sanitize(t, name)| <= |name|
  {
    if name == "" {
    } else {
      var n := |name| - 1;
      SanitizeKeeps(t, name[..n]);
      assert name == name[..n] + [name[n]];
    }
  }

  function CleanMarks(t: Target, name: string): seq<bool> {
    seq(|name|, i requires 0 <= i < |name| => t.alnum(name[i]) || name[i] == '_')
  }

  lemma {:induction false} SanitizeFilter(t: Target, name: string, marks: seq<bool>, n: nat)
    requires marks == CleanMarks(t, name) && n <= |name|
    ensures Sanitize(t, name[..n]) == Filter(name, marks, n)
  {
    if n == 0 {
    } else {
      SanitizeFilter(t, name, marks, n - 1);
      assert name[..n][..n - 1] == name[..n - 1];
    }
  }

  /** Sanitising keeps every identifier character, in order, and drops every other. */
  lemma SanitizeDropsOthers(t: Target, name: string)
    ensures Kept(name, CleanMarks(t, name), Sanitize(t, name))
  {
    SanitizeFilter(t, name, CleanMarks(t, name), |name|);
    assert name[..|name|] == name;
    FilterKeeps(name, CleanMarks(t, name));
  }

  /** A node gets each of its non-empty labels, sanitised, and no other. */
  lemma LabelsSanitized(t: Target, labels: set<string>, l: string)
    ensures l in SafeLabels(t, labels) <==> exists x :: x in labels && |x| > 0 && Sanitize(t, x) == l
  {}

  function SafeLabels(t: Target, labels: set<string>): set<string> {
    set l | l in labels && l != "" :: Sanitize(t, l)
  }

  predicate Truthy(v: Value) {
    match v
    case Str(s) => s != ""
    case Num(n) => n != 0
  }

  const EXPORT_ID := "_export_element_id"

  function RewriteSilo(t: Target, props: Props): Props {
    if "silo_id" in props then props["silo_id" := Str(t.silo)] else props
  }

  function NodeProps(t: Target, rec: Record): Props
    requires rec.NodeRec?
  {
    var props := RewriteSilo(t, rec.props);
    if "id" in props then props else props[EXPORT_ID := Num(rec.id)]
  }

  function Lookup(props: Props, key: string, default: Value): Value {
    if key in props then props[key] else default
  }

  /** `props.get("id") or props.get("_export_element_id", default)`. */
  function IdOr(props: Props, default: Value): Value {
    if "id" in props && Truthy(props["id"]) then props["id"] else Lookup(props, EXPORT_ID, default)
  }

  predicate Matches(n: Node, labels: set<string>, id: Value, silo: Value) {
    labels <= n.labels && Has(n.props, "id", id) && Has(n.props, "silo_id", silo)
  }

  /** MERGE (n:labels {id, silo_id}) SET n += sets. */
  function MergeNode(db: DB, labels: set<string>, id: Value, silo: Value, sets: Props): DB {
    if exists i :: 0 <= i < |db.nodes| && Matches(db.nodes[i], labels, id, silo) then
      db.(nodes := seq(|db.nodes|, i requires 0 <= i < |db.nodes| =>
            if Matches(db.nodes[i], labels, id, silo) then db.nodes[i].(props := db.nodes[i].props + sets)
            else db.nodes[i]))
    else db.(nodes := db.nodes + [Node(labels, map["id" := id, "silo_id" := silo] + sets)])
  }

  /** MERGE (a)-[r:kind]->(b) SET r += props, for two given nodes. */
  function MergeRel(rels: seq<Rel>, e: Rel): seq<Rel> {
    if JoinedIn(rels, e) then
      seq(|rels|, i requires 0 <= i < |rels| =>
        if Joins(rels[i], e) then rels[i].(props := rels[i].props + e.props) else rels[i])
    else rels + [e]
  }

  /** The same ends and the same type. */
  predicate Joins(r: Rel, e: Rel) {
    r.src == e.src && r.dst == e.dst && r.kind == e.kind
  }

  predicate JoinedIn(rels: seq<Rel>, e: Rel) {
    exists i :: 0 <= i < |rels| && Joins(rels[i], e)
  }

  /** MATCH (a {id, silo_id}): every node with that id and silo, whatever its labels. */
  function Hits(nodes: seq<Node>, id: Value, silo: Value): seq<nat> { HitsBelow(nodes, |nodes|, id, silo) }

  function HitsBelow(nodes: seq<Node>, n: nat, id: Value, silo: Value): seq<nat>
    requires n <= |nodes|
  {
    if n == 0 then []
    else HitsBelow(nodes, n - 1, id, silo) + if Matches(nodes[n - 1], {}, id, silo) then [n - 1] else []
  }

  function RowsTo(srcs: seq<nat>, dst: nat, kind: string, props: Props): seq<Rel> {
    if srcs == [] then []
    else RowsTo(srcs[..|srcs| - 1], dst, kind, props) + [Rel(srcs[|srcs| - 1], dst, kind, props)]
  }

  /** The rows of a query that matches two nodes: every source with every target. */
  function Rows(srcs: seq<nat>, dsts: seq<nat>, kind: string, props: Props): seq<Rel> {
    if dsts == [] then []
    else Rows(srcs, dsts[..|dsts| - 1], kind, props) + RowsTo(srcs, dsts[|dsts| - 1], kind, props)
  }

  /** One MERGE for each row in turn. */
  function MergeRels(rels: seq<Rel>, rows: seq<Rel>): seq<Rel> {
    if rows == [] then rels else MergeRel(MergeRels(rels, rows[..|rows| - 1]), rows[|rows| - 1])
  }

  /** The database and the importer's map from exported element ids to application ids. */
  datatype State = State(db: DB, appIds: map<nat, Value>)

  function MergeId(t: Target, rec: Record): Value
    requires rec.NodeRec?
  {
    IdOr(NodeProps(t, rec), Str(""))
  }

  /** The id by which the importer will look for the node's ends of relationships. */
  function AppId(t: Target, rec: Record): Value
    requires rec.NodeRec?
  {
    IdOr(NodeProps(t, rec), Num(rec.id))
  }

  function MergeSilo(t: Target, rec: Record): Value
    requires rec.NodeRec?
  {
    Lookup(NodeProps(t, rec), "silo_id", Str(""))
  }

  function SetList(t: Target, rec: Record): Props
    requires rec.NodeRec?
  {
    NodeProps(t, rec) - {"id", "silo_id"}
  }

  /** What an edge record merges; nothing when an end is unresolved. */
  function EdgeRows(t: Target, nodes: seq<Node>, ids: map<nat, Value>, rec: Record): seq<Rel>
    requires rec.EdgeRec?
  {
    if rec.src !in ids || rec.dst !in ids then []
    else Rows(Hits(nodes, ids[rec.src], Str(t.silo)), Hits(nodes, ids[rec.dst], Str(t.silo)),
              Sanitize(t, rec.kind), rec.props)
  }

  function ImportRecord(t: Target, st: State, rec: Record): State {
    match rec
    case NodeRec(id, labels, _) =>
      State(MergeNode(st.db, SafeLabels(t, labels), MergeId(t, rec), MergeSilo(t, rec), SetList(t, rec)),
            st.appIds[id := AppId(t, rec)])
    case EdgeRec(_, _, _, _) =>
      st.(db := st.db.(rels := MergeRels(st.db.rels, EdgeRows(t, st.db.nodes, st.appIds, rec))))
  }

  /** A run of a fresh importer. */
  function Import(t: Target, db: DB, recs: seq<Record>): State {
    if recs == [] then State(db, map[])
    else ImportRecord(t, Import(t, db, recs[..|recs| - 1]), recs[|recs| - 1])
  }

  /**
   * A record with an id that is not empty or zero is merged under it; one without any under its element id.
   * One whose id is empty or zero is merged under the exported id it carries, else under the empty id; and in
   * that last case only does the importer look for it under another id than it was merged under.
   */
  lemma IdOfRecord(t: Target, rec: Record)
    requires rec.NodeRec?
    ensures "id" in rec.props && rec.props["id"] !in {Str(""), Num(0)} ==> MergeId(t, rec) == rec.props["id"]
    ensures "id" !in rec.props ==> MergeId(t, rec) == Num(rec.id)
    ensures "id" in rec.props && rec.props["id"] in {Str(""), Num(0)} ==>
              MergeId(t, rec) == if EXPORT_ID in rec.props then rec.props[EXPORT_ID] else Str("")
    ensures MergeId(t, rec) != AppId(t, rec) <==>
            "id" in rec.props && rec.props["id"] in {Str(""), Num(0)} && EXPORT_ID !in rec.props
    ensures MergeId(t, rec) != AppId(t, rec) ==> AppId(t, rec) == Num(rec.id)
    ensures MergeSilo(t, rec) == if "silo_id" in rec.props then Str(t.silo) else Str("")
  {
    assert EXPORT_ID != "id" && EXPORT_ID != "silo_id" by {
      assert |EXPORT_ID| == 18 && |"silo_id"| == 7 && |"id"| == 2;
    }
  }

  /** Without --force an import into a silo that already has nodes is refused. */
  predicate Admitted(db: DB, silo: string, force: bool) {
    force || forall i :: 0 <= i < |db.nodes| ==> !InSilo(db.nodes[i], silo)
  }

  // ------------------------------------------------------- what merging leaves

  /** What the rows write on relationships joined as `r` is, later rows on top. */
  function Written(rows: seq<Rel>, r: Rel): Props {
    if rows == [] then map[]
    else
      var before, last := Written(rows[..|rows| - 1], r), rows[|rows| - 1];
      if Joins(last, r) then before + last.props else before
  }

  /**
   * `after` is `rels` with every row merged in: old relationships stay where they are and take what is
   * written on them, new ones join what no old one did and hold nothing else, and every row is joined.
   */
  ghost predicate Merged(rels: seq<Rel>, rows: seq<Rel>, after: seq<Rel>) {
    && |rels| <= |after|
    && (forall i :: 0 <= i < |rels| ==> after[i] == rels[i].(props := rels[i].props + Written(rows, rels[i])))
    && (forall i :: |rels| <= i < |after| ==> NewRel(rels, rows, after[i]))
    && (forall i :: 0 <= i < |rows| ==> JoinedIn(after, rows[i]))
  }

  ghost predicate NewRel(rels: seq<Rel>, rows: seq<Rel>, r: Rel) {
    r.props == Written(rows, r) && !JoinedIn(rels, r) && JoinedIn(rows, r)
  }

  lemma {:induction false} WrittenNothing(rows: seq<Rel>, r: Rel)
    requires !JoinedIn(rows, r)
    ensures Written(rows, r) == map[]
  {
    if rows == [] {
    } else {
      var n := |rows| - 1;
      assert !Joins(rows[n], r);
      forall i | 0 <= i < n ensures !Joins(rows[..n][i], r) { assert !Joins(rows[i], r); }
      WrittenNothing(rows[..n], r);
    }
  }

  lemma {:induction false} WrittenAlike(rows: seq<Rel>, r: Rel, s: Rel)
    requires Joins(r, s)
    ensures Written(rows, r) == Written(rows, s)
  {
    if rows == [] {
    } else {
      WrittenAlike(rows[..|rows| - 1], r, s);
    }
  }

  /** What each of `rels` joins is joined in `after`: so is what any of them joins. */
  lemma JoinedThrough(rels: seq<Rel>, after: seq<Rel>, e: Rel)
    requires forall i :: 0 <= i < |rels| ==> JoinedIn(after, rels[i])
    ensures JoinedIn(rels, e) ==> JoinedIn(after, e)
  {
    if JoinedIn(rels, e) {
      var i :| 0 <= i < |rels| && Joins(rels[i], e);
      var k :| 0 <= k < |after| && Joins(after[k], rels[i]);
      assert Joins(after[k], e);
    }
  }

  lemma JoinedAlike(rels: seq<Rel>, e: Rel, f: Rel)
    requires Joins(e, f) && JoinedIn(rels, e)
    ensures JoinedIn(rels, f)
  {
    var i :| 0 <= i < |rels| && Joins(rels[i], e);
    assert Joins(rels[i], f);
  }

  lemma JoinedStays(rels: seq<Rel>, after: seq<Rel>, e: Rel)
    requires |rels| <= |after| && forall i :: 0 <= i < |rels| ==> Joins(after[i], rels[i])
    ensures JoinedIn(rels, e) ==> JoinedIn(after, e)
  {
    forall i | 0 <= i < |rels| ensures JoinedIn(after, rels[i]) { assert Joins(after[i], rels[i]); }
    JoinedThrough(rels, after, e);
  }

  lemma MergeRelJoins(rels: seq<Rel>, e: Rel)
    ensures var after := MergeRel(rels, e);
            JoinedIn(after, e) && |rels| <= |after| && forall i :: 0 <= i < |rels| ==> Joins(after[i], rels[i])
  {
    var after := MergeRel(rels, e);
    if JoinedIn(rels, e) {
      JoinedStays(rels, after, e);
    } else {
      assert Joins(after[|rels|], e);
    }
  }

  lemma WrittenMore(rows: seq<Rel>, e: Rel, r: Rel)
    ensures Written(rows + [e], r) == if Joins(e, r) then Written(rows, r) + e.props else Written(rows, r)
    ensures JoinedIn(rows + [e], r) <==> JoinedIn(rows, r) || Joins(e, r)
  {
    var more := rows + [e];
    assert more[..|rows|] == rows && more[|rows|] == e;
    if JoinedIn(rows, r) {
      var k :| 0 <= k < |rows| && Joins(rows[k], r);
      assert Joins(more[k], r);
    }
  }

  lemma StillNew(rels: seq<Rel>, rows: seq<Rel>, e: Rel, r: Rel)
    requires NewRel(rels, rows, r)
    ensures NewRel(rels, rows + [e], if Joins(r, e) then r.(props := r.props + e.props) else r)
  {
    var s := if Joins(r, e) then r.(props := r.props + e.props) else r;
    WrittenMore(rows, e, s);
    WrittenAlike(rows, r, s);
    JoinedAlike(rows, r, s);
    if JoinedIn(rels, s) { JoinedAlike(rels, s, r); }
  }

  /** A relationship that merging appends is joined by no old one and by no earlier row. */
  lemma NewJoins(rels: seq<Rel>, rows: seq<Rel>, mid: seq<Rel>, e: Rel)
    requires Merged(rels, rows, mid) && !JoinedIn(mid, e)
    ensures NewRel(rels, rows + [e], e)
  {
    JoinedThrough(rows, mid, e);
    JoinedStays(rels, mid, e);
    WrittenNothing(rows, e);
    WrittenMore(rows, e, e);
  }

  lemma MergedStep(rels: seq<Rel>, rows: seq<Rel>, mid: seq<Rel>, e: Rel)
    requires Merged(rels, rows, mid)
    ensures Merged(rels, rows + [e], MergeRel(mid, e))
  {
    var after, more := MergeRel(mid, e), rows + [e];
    MergeRelJoins(mid, e);
    forall i | 0 <= i < |more| ensures JoinedIn(after, more[i]) {
      if i < |rows| { JoinedStays(mid, after, rows[i]); }
    }
    forall i | 0 <= i < |rels| ensures after[i] == rels[i].(props := rels[i].props + Written(more, rels[i])) {
      OldStep(rows, mid, e, rels[i], i);
    }
    forall i | |rels| <= i < |after| ensures NewRel(rels, more, after[i]) {
      NewStep(rels, rows, mid, e, i);
    }
  }

  lemma OldStep(rows: seq<Rel>, mid: seq<Rel>, e: Rel, r: Rel, i: nat)
    requires i < |mid| && mid[i] == r.(props := r.props + Written(rows, r))
    ensures i < |MergeRel(mid, e)|
    ensures MergeRel(mid, e)[i] == r.(props := r.props + Written(rows + [e], r))
  {
    WrittenMore(rows, e, r);
    MergeRelAt(mid, e, i);
    PropsAssociate(r.props, Written(rows, r), e.props);
  }

  lemma MergeRelAt(rels: seq<Rel>, e: Rel, i: nat)
    requires i < |rels|
    ensures i < |MergeRel(rels, e)|
    ensures MergeRel(rels, e)[i] == if Joins(rels[i], e) then rels[i].(props := rels[i].props + e.props) else rels[i]
  {}

  lemma PropsAssociate(a: Props, b: Props, c: Props)
    ensures (a + b) + c == a + (b + c)
  {}

  lemma NewStep(rels: seq<Rel>, rows: seq<Rel>, mid: seq<Rel>, e: Rel, i: nat)
    requires Merged(rels, rows, mid) && |rels| <= i < |MergeRel(mid, e)|
    ensures NewRel(rels, rows + [e], MergeRel(mid, e)[i])
  {
    if i < |mid| {
      assert NewRel(rels, rows, mid[i]);
      StillNew(rels, rows, e, mid[i]);
    } else {
      NewJoins(rels, rows, mid, e);
    }
  }

  lemma {:induction false} MergedByRows(rels: seq<Rel>, rows: seq<Rel>)
    ensures Merged(rels, rows, MergeRels(rels, rows))
  {
    if rows == [] {
    } else {
      var n := |rows| - 1;
      MergedByRows(rels, rows[..n]);
      MergedStep(rels, rows[..n], MergeRels(rels, rows[..n]), rows[n]);
      assert rows == rows[..n] + [rows[n]];
    }
  }

  lemma NothingNew(rels: seq<Rel>, rows: seq<Rel>, after: seq<Rel>)
    requires Merged(rels, rows, after) && forall i :: 0 <= i < |rows| ==> JoinedIn(rels, rows[i])
    ensures |after| == |rels|
  {
    if |rels| < |after| { JoinedThrough(rows, rels, after[|rels|]); }
  }

  /** Merging the same rows again changes nothing, parallel rows with conflicting properties included. */
  lemma MergeTwice(rels: seq<Rel>, rows: seq<Rel>)
    ensures MergeRels(MergeRels(rels, rows), rows) == MergeRels(rels, rows)
  {
    var once, twice := MergeRels(rels, rows), MergeRels(MergeRels(rels, rows), rows);
    MergedByRows(rels, rows);
    MergedByRows(once, rows);
    NothingNew(once, rows, twice);
    forall i | 0 <= i < |once| ensures twice[i] == once[i] {
      if i < |rels| { WrittenAlike(rows, rels[i], once[i]); } else { assert NewRel(rels, rows, once[i]); }
    }
  }

  lemma {:induction false} MergeInParts(rels: seq<Rel>, a: seq<Rel>, b: seq<Rel>)
    ensures MergeRels(rels, a + b) == MergeRels(MergeRels(rels, a), b)
  {
    if b == [] {
      assert a + b == a;
    } else {
      MergeInParts(rels, a, b[..|b| - 1]);
      assert (a + b)[..|a + b| - 1] == a + b[..|b| - 1];
    }
  }

  // ---------------------------------------------------------------- idempotence

  /** The node carries the record's labels, id and silo. */
  predicate Carries(t: Target, n: Node, rec: Record)
    requires rec.NodeRec?
  {
    Matches(n, SafeLabels(t, rec.labels), MergeId(t, rec), MergeSilo(t, rec))
  }

  /** Some node carries the record, and every node that does holds its properties. */
  ghost predicate Absorbed(t: Target, nodes: seq<Node>, rec: Record)
    requires rec.NodeRec?
  {
    && (exists i :: 0 <= i < |nodes| && Carries(t, nodes[i], rec))
    && (forall i :: 0 <= i < |nodes| && Carries(t, nodes[i], rec) ==>
          nodes[i].props + SetList(t, rec) == nodes[i].props)
  }

  /** Node records first, as an export writes them. */
  ghost predicate Ordered(ns: seq<Record>, es: seq<Record>) {
    (forall i :: 0 <= i < |ns| ==> ns[i].NodeRec?) && (forall i :: 0 <= i < |es| ==> es[i].EdgeRec?)
  }

  /** No two node records are merged under one application id of one silo. */
  ghost predicate DistinctIds(t: Target, ns: seq<Record>) {
    forall i, j :: 0 <= i < j < |ns| && ns[i].NodeRec? && ns[j].NodeRec? ==>
      (MergeId(t, ns[i]), MergeSilo(t, ns[i])) != (MergeId(t, ns[j]), MergeSilo(t, ns[j]))
  }

  function NodesWith(t: Target, nodes: seq<Node>, rec: Record): seq<Node>
    requires rec.NodeRec?
  {
    MergeNode(DB(nodes, []), SafeLabels(t, rec.labels), MergeId(t, rec), MergeSilo(t, rec), SetList(t, rec)).nodes
  }

  /** Merging a node record changes neither labels, ids nor silos; it appends a node only if none carries the record. */
  lemma NodesWithEffect(t: Target, nodes: seq<Node>, rec: Record)
    requires rec.NodeRec?
    ensures var after := NodesWith(t, nodes, rec);
            && |nodes| <= |after| <= |nodes| + 1
            && (forall i :: 0 <= i < |nodes| ==>
                  && after[i].labels == nodes[i].labels
                  && (forall k :: k in {"id", "silo_id"} ==>
                        (k in after[i].props <==> k in nodes[i].props)
                        && (k in nodes[i].props ==> after[i].props[k] == nodes[i].props[k]))
                  && after[i].props ==
                     if Carries(t, nodes[i], rec) then nodes[i].props + SetList(t, rec) else nodes[i].props)
            && (|nodes| < |after| <==> forall i :: 0 <= i < |nodes| ==> !Carries(t, nodes[i], rec))
            && (|nodes| < |after| ==>
                  after[|nodes|] == Node(SafeLabels(t, rec.labels),
                    map["id" := MergeId(t, rec), "silo_id" := MergeSilo(t, rec)] + SetList(t, rec)))
  {}

  lemma RecordAbsorbed(t: Target, nodes: seq<Node>, rec: Record)
    requires rec.NodeRec?
    ensures Absorbed(t, NodesWith(t, nodes, rec), rec)
  {
    var after := NodesWith(t, nodes, rec);
    NodesWithEffect(t, nodes, rec);
    if i :| 0 <= i < |nodes| && Carries(t, nodes[i], rec) {
      assert Carries(t, after[i], rec);
    } else {
      assert Carries(t, after[|nodes|], rec);
    }
  }

  /** The properties a record sets: all but id and silo as they are, and the element id when it has no id. */
  ghost predicate HoldsRecord(n: Node, rec: Record)
    requires rec.NodeRec?
  {
    && (forall k :: k in rec.props && k !in {"id", "silo_id", EXPORT_ID} ==> Has(n.props, k, rec.props[k]))
    && ("id" !in rec.props ==> Has(n.props, EXPORT_ID, Num(rec.id)))
    && ("id" in rec.props && EXPORT_ID in rec.props ==> Has(n.props, EXPORT_ID, rec.props[EXPORT_ID]))
  }

  /** All the record's labels, its id and its silo. */
  predicate Fits(t: Target, n: Node, rec: Record)
    requires rec.NodeRec?
  {
    && (forall l :: l in SafeLabels(t, rec.labels) ==> l in n.labels)
    && Has(n.props, "id", MergeId(t, rec)) && Has(n.props, "silo_id", MergeSilo(t, rec))
  }

  /** After a node record some node carries its labels, id and silo, and every such node holds its properties. */
  lemma NodeRecordLands(t: Target, st: State, rec: Record)
    requires rec.NodeRec?
    ensures var r := ImportRecord(t, st, rec);
            && r.db.rels == st.db.rels && r.appIds == st.appIds[rec.id := AppId(t, rec)]
            && (exists i :: 0 <= i < |r.db.nodes| && Carries(t, r.db.nodes[i], rec))
            && (forall i :: 0 <= i < |r.db.nodes| && Carries(t, r.db.nodes[i], rec) ==> HoldsRecord(r.db.nodes[i], rec))
            && (forall i :: 0 <= i < |st.db.nodes| && !Fits(t, st.db.nodes[i], rec) ==>
                  i < |r.db.nodes| && r.db.nodes[i] == st.db.nodes[i])
            && (forall i :: |st.db.nodes| <= i < |r.db.nodes| ==>
                  r.db.nodes[i].labels == SafeLabels(t, rec.labels) && Fits(t, r.db.nodes[i], rec))
  {
    NodeRecordRead(t, st, rec);
    NodesWithEffect(t, st.db.nodes, rec);
    RecordAbsorbed(t, st.db.nodes, rec);
    var nodes := NodesWith(t, st.db.nodes, rec);
    forall i | 0 <= i < |nodes| && Carries(t, nodes[i], rec) ensures HoldsRecord(nodes[i], rec) {
      AbsorbedHolds(t, nodes[i], rec);
    }
  }

  lemma AbsorbedHolds(t: Target, n: Node, rec: Record)
    requires rec.NodeRec? && n.props + SetList(t, rec) == n.props
    ensures HoldsRecord(n, rec)
  {
    var sets := SetList(t, rec);
    assert forall k :: k in sets ==> k in n.props && n.props[k] == sets[k] by {
      assert forall k :: k in sets ==> (n.props + sets)[k] == sets[k];
    }
    assert EXPORT_ID != "id" && EXPORT_ID != "silo_id" by {
      assert |EXPORT_ID| == 18 && |"silo_id"| == 7 && |"id"| == 2;
    }
    assert forall k :: k in rec.props && k !in {"id", "silo_id", EXPORT_ID} ==> k in sets && sets[k] == rec.props[k];
  }

  lemma OthersStayAbsorbed(t: Target, nodes: seq<Node>, rec: Record, other: Record)
    requires rec.NodeRec? && other.NodeRec? && Absorbed(t, nodes, rec)
    requires (MergeId(t, rec), MergeSilo(t, rec)) != (MergeId(t, other), MergeSilo(t, other))
    ensures Absorbed(t, NodesWith(t, nodes, other), rec)
  {
    var after := NodesWith(t, nodes, other);
    NodesWithEffect(t, nodes, other);
    var i :| 0 <= i < |nodes| && Carries(t, nodes[i], rec);
    assert Carries(t, after[i], rec);
    forall k | 0 <= k < |after| && Carries(t, after[k], rec)
      ensures after[k].props + SetList(t, rec) == after[k].props
    {
      if k < |nodes| { assert Carries(t, nodes[k], rec) && !Carries(t, nodes[k], other); }
    }
  }

  lemma AbsorbedAgain(t: Target, nodes: seq<Node>, rec: Record)
    requires rec.NodeRec? && Absorbed(t, nodes, rec)
    ensures NodesWith(t, nodes, rec) == nodes
  {
    NodesWithEffect(t, nodes, rec);
  }

  /** Nodes and element ids after reading node records; the relationships stay. */
  lemma NodeRecordRead(t: Target, st: State, rec: Record)
    requires rec.NodeRec?
    ensures ImportRecord(t, st, rec) == State(DB(NodesWith(t, st.db.nodes, rec), st.db.rels),
                                              st.appIds[rec.id := AppId(t, rec)])
  {
    assert MergeNode(st.db, SafeLabels(t, rec.labels), MergeId(t, rec), MergeSilo(t, rec), SetList(t, rec)).nodes ==
           NodesWith(t, st.db.nodes, rec);
  }

  lemma {:induction false} AllAbsorbed(t: Target, g: DB, ns: seq<Record>, j: nat)
    requires Ordered(ns, []) && DistinctIds(t, ns) && j < |ns|
    ensures Absorbed(t, Import(t, g, ns).db.nodes, ns[j])
  {
    var n := |ns| - 1;
    var st := Import(t, g, ns[..n]);
    NodeRecordRead(t, st, ns[n]);
    if j == n {
      RecordAbsorbed(t, st.db.nodes, ns[n]);
    } else {
      AllAbsorbed(t, g, ns[..n], j);
      OthersStayAbsorbed(t, st.db.nodes, ns[j], ns[n]);
    }
  }

  /** Reading absorbed records again changes no node; the element ids come out as in any other run. */
  lemma {:induction false} ReadAgain(t: Target, g: DB, h: DB, ns: seq<Record>)
    requires Ordered(ns, []) && forall j :: 0 <= j < |ns| ==> ns[j].NodeRec? && Absorbed(t, h.nodes, ns[j])
    ensures Import(t, h, ns) == State(h, Import(t, g, ns).appIds)
  {
    if ns == [] {
    } else {
      var n := |ns| - 1;
      ReadAgain(t, g, h, ns[..n]);
      NodeRecordRead(t, Import(t, h, ns[..n]), ns[n]);
      NodeRecordRead(t, Import(t, g, ns[..n]), ns[n]);
      AbsorbedAgain(t, h.nodes, ns[n]);
    }
  }

  /** The rows of each edge record. */
  function Batches(t: Target, nodes: seq<Node>, ids: map<nat, Value>, es: seq<Record>): seq<seq<Rel>> {
    seq(|es|, i requires 0 <= i < |es| => if es[i].EdgeRec? then EdgeRows(t, nodes, ids, es[i]) else [])
  }

  /** One more edge record, its rows read off the nodes and element ids of `st`. */
  lemma EdgeRecordRead(t: Target, st: State, before: State, rec: Record, merged: seq<Rel>, rows: seq<Rel>)
    requires before == State(DB(st.db.nodes, MergeRels(st.db.rels, merged)), st.appIds)
    requires rec.EdgeRec? && rows == EdgeRows(t, st.db.nodes, st.appIds, rec)
    ensures ImportRecord(t, before, rec) == State(DB(st.db.nodes, MergeRels(st.db.rels, merged + rows)), st.appIds)
  {
    MergeInParts(st.db.rels, merged, rows);
  }

  lemma ImportLast(t: Target, g: DB, ns: seq<Record>, es: seq<Record>, k: nat)
    requires 0 < k <= |es|
    ensures Import(t, g, ns + es[..k]) == ImportRecord(t, Import(t, g, ns + es[..k - 1]), es[k - 1])
  {
    var recs := ns + es[..k];
    assert recs[..|recs| - 1] == ns + es[..k - 1] && recs[|recs| - 1] == es[k - 1];
  }

  ghost predicate ReadAs(t: Target, st: State, rec: Record, rows: seq<Rel>) {
    rec.EdgeRec? && rows == EdgeRows(t, st.db.nodes, st.appIds, rec)
  }

  /** Edge records see all nodes and element ids; what they leave is one batch of merges. */
  lemma {:induction false} EdgesRead(t: Target, g: DB, ns: seq<Record>, es: seq<Record>, st: State,
                                     batches: seq<seq<Rel>>, k: nat)
    requires st == Import(t, g, ns) && |batches| == |es| && k <= |es|
    requires forall i {:trigger ReadAs(t, st, es[i], batches[i])} :: 0 <= i < |es| ==> ReadAs(t, st, es[i], batches[i])
    ensures Import(t, g, ns + es[..k]) ==
            State(DB(st.db.nodes, MergeRels(st.db.rels, Flatten(batches[..k]))), st.appIds)
  {
    if k == 0 {
      assert ns + es[..0] == ns;
    } else {
      EdgesRead(t, g, ns, es, st, batches, k - 1);
      ImportLast(t, g, ns, es, k);
      assert ReadAs(t, st, es[k - 1], batches[k - 1]);
      EdgeRecordRead(t, st, Import(t, g, ns + es[..k - 1]), es[k - 1], Flatten(batches[..k - 1]), batches[k - 1]);
      FlattenPrefix(batches, k);
    }
  }

  function AllRows(t: Target, nodes: seq<Node>, ids: map<nat, Value>, es: seq<Record>): seq<Rel> {
    Flatten(Batches(t, nodes, ids, es))
  }

  lemma AllEdgesRead(t: Target, g: DB, ns: seq<Record>, es: seq<Record>)
    requires Ordered(ns, es)
    ensures var st := Import(t, g, ns);
            Import(t, g, ns + es) ==
            State(DB(st.db.nodes, MergeRels(st.db.rels, AllRows(t, st.db.nodes, st.appIds, es))), st.appIds)
  {
    var st := Import(t, g, ns);
    var batches := Batches(t, st.db.nodes, st.appIds, es);
    EdgesRead(t, g, ns, es, st, batches, |es|);
    assert es[..|es|] == es && batches[..|es|] == batches;
  }

  /** Importing the same records twice is importing them once. */
  lemma ImportTwice(t: Target, g: DB, ns: seq<Record>, es: seq<Record>)
    requires Ordered(ns, es) && DistinctIds(t, ns)
    ensures Import(t, Import(t, g, ns + es).db, ns + es) == Import(t, g, ns + es)
  {
    var st, once := Import(t, g, ns), Import(t, g, ns + es);
    AllEdgesRead(t, g, ns, es);
    forall j | 0 <= j < |ns| ensures Absorbed(t, once.db.nodes, ns[j]) {
      AllAbsorbed(t, g, ns, j);
    }
    ReadAgain(t, g, once.db, ns);
    AllEdgesRead(t, once.db, ns, es);
    MergeTwice(st.db.rels, AllRows(t, st.db.nodes, st.appIds, es));
  }

  lemma {:induction false} SameFromHere(t: Target, g: DB, h: DB, recs: seq<Record>, k: nat)
    requires k <= |recs| && Import(t, g, recs[..k]) == Import(t, h, recs[..k])
    ensures Import(t, g, recs) == Import(t, h, recs)
  {
    if k == |recs| {
      assert recs[..k] == recs;
    } else {
      assert recs[..|recs| - 1][..k] == recs[..k];
      SameFromHere(t, g, h, recs[..|recs| - 1], k);
    }
  }

  /**
   * Into any database whatever, populated target silo included: importing any prefix, stopping, and
   * importing the whole dump gives what importing it once gives. With the whole dump as prefix, import
   * is idempotent. Parallel relationships and unresolved ends are no exception.
   */
  lemma ResumeIsImport(t: Target, g: DB, ns: seq<Record>, es: seq<Record>, k: nat)
    requires Ordered(ns, es) && DistinctIds(t, ns) && k <= |ns + es|
    ensures Import(t, Import(t, g, (ns + es)[..k]).db, ns + es) == Import(t, g, ns + es)
  {
    var a, b := Min(k, |ns|), Max(0, k - |ns|);
    assert (ns + es)[..k] == ns[..a] + es[..b];
    ImportTwice(t, g, ns[..a], es[..b]);
    SameFromHere(t, Import(t, g, (ns + es)[..k]).db, g, ns + es, k);
  }

  /** Node records of a silo carry its silo id. */
  ghost predicate OfSilo(ns: seq<Record>) {
    forall i :: 0 <= i < |ns| ==> ns[i].NodeRec? && "silo_id" in ns[i].props
  }

  lemma {:induction false} PopulatedStays(t: Target, g: DB, recs: seq<Record>)
    requires recs != [] && recs[0].NodeRec? && "silo_id" in recs[0].props
    ensures !Admitted(Import(t, g, recs).db, t.silo, false)
  {
    var n := |recs| - 1;
    var st := Import(t, g, recs[..n]);
    if recs[n].NodeRec? {
      NodeRecordRead(t, st, recs[n]);
    }
    if n == 0 {
      RecordAbsorbed(t, st.db.nodes, recs[0]);
      var after := NodesWith(t, st.db.nodes, recs[0]);
      var i :| 0 <= i < |after| && Carries(t, after[i], recs[0]);
      assert InSilo(after[i], t.silo);
    } else {
      PopulatedStays(t, g, recs[..n]);
      if recs[n].NodeRec? { SiloStays(t, st.db.nodes, recs[n]); }
    }
  }

  lemma SiloStays(t: Target, nodes: seq<Node>, rec: Record)
    requires rec.NodeRec? && exists i :: 0 <= i < |nodes| && InSilo(nodes[i], t.silo)
    ensures exists i :: 0 <= i < |NodesWith(t, nodes, rec)| && InSilo(NodesWith(t, nodes, rec)[i], t.silo)
  {
    NodesWithEffect(t, nodes, rec);
    var i :| 0 <= i < |nodes| && InSilo(nodes[i], t.silo);
    assert "silo_id" in {"id", "silo_id"} && InSilo(NodesWith(t, nodes, rec)[i], t.silo);
  }

  /** An interrupted import that was admitted is refused a second run, unless forced, once it has written a node. */
  lemma ResumeNeedsForce(t: Target, g: DB, ns: seq<Record>, es: seq<Record>, k: nat)
    requires Ordered(ns, es) && OfSilo(ns) && Admitted(g, t.silo, false) && k <= |ns + es|
    ensures Admitted(Import(t, g, (ns + es)[..k]).db, t.silo, false) <==> k == 0 || ns == []
  {
    if k == 0 || ns == [] {
      assert (ns + es)[..k] == [] + es[..k] by { if k == 0 {} else { assert ns + es == es; } }
      AllEdgesRead(t, g, [], es[..k]);
    } else {
      PopulatedStays(t, g, (ns + es)[..k]);
    }
  }

  // ------------------------------------------------------------ closed form

  /** Node records with distinct, truthy application ids and relationships between them, all names identifiers. */
  ghost predicate GoodDump(t: Target, ns: seq<Record>, es: seq<Record>) {
    && (forall i :: 0 <= i < |ns| ==> GoodNode(t, ns[i]))
    && (forall i, j :: 0 <= i < j < |ns| ==> ns[i].id != ns[j].id && ns[i].props["id"] != ns[j].props["id"])
    && (forall i :: 0 <= i < |es| ==> GoodEdge(t, ns, es[i]))
  }

  ghost predicate GoodNode(t: Target, rec: Record) {
    && rec.NodeRec? && "id" in rec.props && Truthy(rec.props["id"]) && "silo_id" in rec.props
    && forall l :: l in rec.labels ==> l != "" && Clean(t, l)
  }

  ghost predicate GoodEdge(t: Target, ns: seq<Record>, rec: Record) {
    rec.EdgeRec? && Clean(t, rec.kind) && HasNode(ns, rec.src) && HasNode(ns, rec.dst)
  }

  predicate Parallel(e: Record, f: Record) {
    e.EdgeRec? && f.EdgeRec? && e.src == f.src && e.dst == f.dst && e.kind == f.kind
  }

  ghost predicate NoParallels(es: seq<Record>) {
    forall i, j :: 0 <= i < j < |es| ==> !Parallel(es[i], es[j])
  }

  ghost predicate HasNode(ns: seq<Record>, id: nat) {
    exists i :: 0 <= i < |ns| && ns[i].NodeRec? && ns[i].id == id
  }

  /** Position among the node records of the one with element id `id`. */
  ghost function Pos(ns: seq<Record>, id: nat): (i: nat)
    requires HasNode(ns, id)
    ensures i < |ns| && ns[i].NodeRec? && ns[i].id == id
  {
    var i :| 0 <= i < |ns| && ns[i].NodeRec? && ns[i].id == id; i
  }

  ghost function Image(t: Target, rec: Record): Node
    requires rec.NodeRec?
  {
    Node(rec.labels, rec.props["silo_id" := Str(t.silo)])
  }

  ghost function ImageRel(ns: seq<Record>, base: nat, rec: Record): Rel
    requires rec.EdgeRec? && HasNode(ns, rec.src) && HasNode(ns, rec.dst)
  {
    Rel(base + Pos(ns, rec.src), base + Pos(ns, rec.dst), rec.kind, rec.props)
  }

  ghost function Images(t: Target, ns: seq<Record>): seq<Node>
    requires forall i :: 0 <= i < |ns| ==> GoodNode(t, ns[i])
  {
    seq(|ns|, i requires 0 <= i < |ns| && GoodNode(t, ns[i]) => Image(t, ns[i]))
  }

  ghost function ImageRels(t: Target, ns: seq<Record>, base: nat, es: seq<Record>): seq<Rel>
    requires forall i :: 0 <= i < |es| ==> GoodEdge(t, ns, es[i])
  {
    seq(|es|, i requires 0 <= i < |es| && GoodEdge(t, ns, es[i]) => ImageRel(ns, base, es[i]))
  }

  /** The importer's map once it has read these node records. */
  function IdsRead(ns: seq<Record>): map<nat, Value> {
    if ns == [] then map[]
    else
      var last := ns[|ns| - 1];
      var ids := IdsRead(ns[..|ns| - 1]);
      if last.NodeRec? && "id" in last.props then ids[last.id := last.props["id"]] else ids
  }

  /** The target database has no node of the target silo yet. */
  ghost predicate Fresh(t: Target, g: DB) {
    WellFormed(g) && Admitted(g, t.silo, false)
  }

  lemma NodeFields(t: Target, rec: Record)
    requires GoodNode(t, rec)
    ensures && SafeLabels(t, rec.labels) == rec.labels && MergeId(t, rec) == rec.props["id"]
            && AppId(t, rec) == rec.props["id"] && MergeSilo(t, rec) == Str(t.silo)
            && NodeProps(t, rec) == Image(t, rec).props
  {
    forall l | l in rec.labels ensures Sanitize(t, l) == l {
      SanitizeKeeps(t, l);
    }
    forall l ensures l in SafeLabels(t, rec.labels) <==> l in rec.labels {
      if l in rec.labels { assert Sanitize(t, l) in SafeLabels(t, rec.labels); }
    }
  }

  /** Of the first `a` nodes imported only the `k`-th carries the `k`-th application id in the target silo. */
  lemma OnlyOwnImage(t: Target, g: DB, ns: seq<Record>, a: nat, k: nat, labels: set<string>, i: nat)
    requires GoodDump(t, ns, []) && Fresh(t, g) && a <= |ns| && k < |ns| && i < |g.nodes| + a
    requires labels <= ns[k].labels
    ensures Matches((g.nodes + Images(t, ns[..a]))[i], labels, ns[k].props["id"], Str(t.silo)) <==>
            i == |g.nodes| + k
  {
    if i < |g.nodes| {
      assert !InSilo(g.nodes[i], t.silo);
    } else {
      var j := i - |g.nodes|;
      assert (g.nodes + Images(t, ns[..a]))[i] == Image(t, ns[j]);
      assert GoodNode(t, ns[j]) && GoodNode(t, ns[k]);
    }
  }

  /** Reading node record `k` appends its image. */
  lemma NodeStep(t: Target, g: DB, ns: seq<Record>, k: nat)
    requires GoodDump(t, ns, []) && Fresh(t, g) && k < |ns|
    ensures ImportRecord(t, State(DB(g.nodes + Images(t, ns[..k]), g.rels), IdsRead(ns[..k])), ns[k]) ==
            State(DB(g.nodes + Images(t, ns[..k + 1]), g.rels), IdsRead(ns[..k + 1]))
  {
    var nodes, rec := g.nodes + Images(t, ns[..k]), ns[k];
    assert GoodNode(t, rec);
    NodeFields(t, rec);
    forall i | 0 <= i < |nodes| ensures !Carries(t, nodes[i], rec) {
      OnlyOwnImage(t, g, ns, k, k, rec.labels, i);
    }
    NodeRecordRead(t, State(DB(nodes, g.rels), IdsRead(ns[..k])), rec);
    NodesWithEffect(t, nodes, rec);
    assert map["id" := rec.props["id"], "silo_id" := Str(t.silo)] + SetList(t, rec) == Image(t, rec).props;
    assert ns[..k + 1][..k] == ns[..k];
    assert g.nodes + Images(t, ns[..k + 1]) == nodes + [Image(t, rec)];
  }

  lemma {:induction false} NodesRun(t: Target, g: DB, ns: seq<Record>, k: nat)
    requires GoodDump(t, ns, []) && Fresh(t, g) && k <= |ns|
    ensures Import(t, g, ns[..k]) == State(DB(g.nodes + Images(t, ns[..k]), g.rels), IdsRead(ns[..k]))
  {
    if k == 0 {
      assert g.nodes + Images(t, ns[..0]) == g.nodes;
    } else {
      NodesRun(t, g, ns, k - 1);
      NodeStep(t, g, ns, k - 1);
      assert ns[..k][..k - 1] == ns[..k - 1];
    }
  }

  lemma {:induction false} HitsUnique(nodes: seq<Node>, n: nat, id: Value, silo: Value, p: nat)
    requires n <= |nodes| && forall i :: 0 <= i < n ==> (Matches(nodes[i], {}, id, silo) <==> i == p)
    ensures HitsBelow(nodes, n, id, silo) == if p < n then [p] else []
  {
    if n == 0 {
    } else {
      HitsUnique(nodes, n - 1, id, silo, p);
    }
  }

  lemma {:induction false} IdsReadHas(t: Target, ns: seq<Record>, k: nat)
    requires GoodDump(t, ns, []) && k < |ns|
    ensures ns[k].id in IdsRead(ns) && IdsRead(ns)[ns[k].id] == ns[k].props["id"]
  {
    var n := |ns| - 1;
    assert GoodNode(t, ns[n]);
    if k < n {
      var init := ns[..n];
      assert forall i :: 0 <= i < n ==> init[i] == ns[i];
      IdsReadHas(t, init, k);
    }
  }

  lemma EndpointHits(t: Target, g: DB, ns: seq<Record>, id: nat)
    requires GoodDump(t, ns, []) && Fresh(t, g) && HasNode(ns, id)
    ensures id in IdsRead(ns)
    ensures Hits(g.nodes + Images(t, ns), IdsRead(ns)[id], Str(t.silo)) == [|g.nodes| + Pos(ns, id)]
  {
    IdsReadHas(t, ns, Pos(ns, id));
    OneHit(t, g, ns, Pos(ns, id));
  }

  lemma OneHit(t: Target, g: DB, ns: seq<Record>, p: nat)
    requires GoodDump(t, ns, []) && Fresh(t, g) && p < |ns|
    ensures "id" in ns[p].props
    ensures Hits(g.nodes + Images(t, ns), ns[p].props["id"], Str(t.silo)) == [|g.nodes| + p]
  {
    var nodes := g.nodes + Images(t, ns);
    assert ns[..|ns|] == ns && GoodNode(t, ns[p]);
    forall i | 0 <= i < |nodes|
      ensures Matches(nodes[i], {}, ns[p].props["id"], Str(t.silo)) <==> i == |g.nodes| + p
    {
      OnlyOwnImage(t, g, ns, |ns|, p, {}, i);
    }
    HitsUnique(nodes, |nodes|, ns[p].props["id"], Str(t.silo), |g.nodes| + p);
  }

  lemma OneRow(a: nat, b: nat, kind: string, props: Props)
    ensures Rows([a], [b], kind, props) == [Rel(a, b, kind, props)]
  {
    assert [a][..0] == [] && [b][..0] == [];
    assert RowsTo([], b, kind, props) == [] && Rows([a], [], kind, props) == [];
    assert RowsTo([a], b, kind, props) == [Rel(a, b, kind, props)];
  }

  lemma OneMatchEach(t: Target, nodes: seq<Node>, ids: map<nat, Value>, rec: Record, a: nat, b: nat)
    requires rec.EdgeRec? && rec.src in ids && rec.dst in ids && Clean(t, rec.kind)
    requires Hits(nodes, ids[rec.src], Str(t.silo)) == [a] && Hits(nodes, ids[rec.dst], Str(t.silo)) == [b]
    ensures EdgeRows(t, nodes, ids, rec) == [Rel(a, b, rec.kind, rec.props)]
  {
    SanitizeKeeps(t, rec.kind);
    OneRow(a, b, rec.kind, rec.props);
  }

  /** In a fresh silo an edge record is one relationship between the copies of its ends. */
  lemma EdgeRowsOfGood(t: Target, g: DB, ns: seq<Record>, rec: Record)
    requires GoodDump(t, ns, []) && Fresh(t, g) && GoodEdge(t, ns, rec)
    ensures EdgeRows(t, g.nodes + Images(t, ns), IdsRead(ns), rec) == [ImageRel(ns, |g.nodes|, rec)]
  {
    var nodes, e := g.nodes + Images(t, ns), ImageRel(ns, |g.nodes|, rec);
    EndpointHits(t, g, ns, rec.src);
    EndpointHits(t, g, ns, rec.dst);
    OneMatchEach(t, nodes, IdsRead(ns), rec, e.src, e.dst);
  }

  lemma {:induction false} FlattenSingles(batches: seq<seq<Rel>>, rels: seq<Rel>)
    requires |batches| == |rels| && forall i :: 0 <= i < |rels| ==> batches[i] == [rels[i]]
    ensures Flatten(batches) == rels
  {
    if rels == [] {
    } else {
      FlattenSingles(batches[..|rels| - 1], rels[..|rels| - 1]);
    }
  }

  lemma GoodRows(t: Target, g: DB, ns: seq<Record>, es: seq<Record>)
    requires GoodDump(t, ns, es) && Fresh(t, g)
    ensures AllRows(t, g.nodes + Images(t, ns), IdsRead(ns), es) == ImageRels(t, ns, |g.nodes|, es)
  {
    var nodes, rels := g.nodes + Images(t, ns), ImageRels(t, ns, |g.nodes|, es);
    var batches := Batches(t, nodes, IdsRead(ns), es);
    forall i | 0 <= i < |es| ensures batches[i] == [rels[i]] {
      EdgeRowsOfGood(t, g, ns, es[i]);
    }
    FlattenSingles(batches, rels);
  }

  /** What a good dump leaves in a fresh silo. */
  lemma ImportWhole(t: Target, g: DB, ns: seq<Record>, es: seq<Record>)
    requires GoodDump(t, ns, es) && Fresh(t, g)
    ensures Import(t, g, ns + es).db ==
            DB(g.nodes + Images(t, ns), MergeRels(g.rels, ImageRels(t, ns, |g.nodes|, es)))
  {
    assert ns[..|ns|] == ns;
    NodesRun(t, g, ns, |ns|);
    AllEdgesRead(t, g, ns, es);
    GoodRows(t, g, ns, es);
  }

  /** Images of edges join the same nodes with the same type only when the edges are parallel. */
  lemma SameEnds(t: Target, ns: seq<Record>, base: nat, e: Record, f: Record)
    requires GoodEdge(t, ns, e) && GoodEdge(t, ns, f)
    ensures Joins(ImageRel(ns, base, e), ImageRel(ns, base, f)) <==> Parallel(e, f)
  {}

  /** No row is joined by an old relationship. */
  ghost predicate NewRows(rels: seq<Rel>, rows: seq<Rel>) {
    forall i :: 0 <= i < |rows| ==> !JoinedIn(rels, rows[i])
  }

  ghost predicate NoneAlike(rows: seq<Rel>) {
    forall i, j :: 0 <= i < j < |rows| ==> !Joins(rows[i], rows[j])
  }

  lemma ImagesAreNew(t: Target, g: DB, ns: seq<Record>, es: seq<Record>)
    requires GoodDump(t, ns, es) && WellFormed(g)
    ensures var rows := ImageRels(t, ns, |g.nodes|, es);
            NewRows(g.rels, rows) && (NoneAlike(rows) <==> NoParallels(es))
  {
    var rows := ImageRels(t, ns, |g.nodes|, es);
    forall i | 0 <= i < |rows| ensures !JoinedIn(g.rels, rows[i]) {
      assert GoodEdge(t, ns, es[i]);
      forall k | 0 <= k < |g.rels| ensures !Joins(g.rels[k], rows[i]) { assert g.rels[k] in g.rels; }
    }
    forall i, j | 0 <= i < j < |es| ensures Joins(rows[i], rows[j]) <==> Parallel(es[i], es[j]) {
      assert GoodEdge(t, ns, es[i]) && GoodEdge(t, ns, es[j]);
      SameEnds(t, ns, |g.nodes|, es[i], es[j]);
    }
  }

  lemma NoneAlikeLast(rows: seq<Rel>)
    requires rows != []
    ensures var init, last := rows[..|rows| - 1], rows[|rows| - 1];
            NoneAlike(rows) <==> NoneAlike(init) && !JoinedIn(init, last)
  {}

  /** After merging, a relationship no old one joins is joined exactly when a row joins it. */
  lemma JoinedByRows(rels: seq<Rel>, rows: seq<Rel>, e: Rel)
    requires !JoinedIn(rels, e)
    ensures JoinedIn(MergeRels(rels, rows), e) <==> JoinedIn(rows, e)
  {
    var after := MergeRels(rels, rows);
    MergedByRows(rels, rows);
    JoinedThrough(rows, after, e);
    if JoinedIn(after, e) {
      var i :| 0 <= i < |after| && Joins(after[i], e);
      assert i < |rels| ==> !Joins(rels[i], e);
      assert NewRel(rels, rows, after[i]);
      JoinedAlike(rows, after[i], e);
    }
  }

  /** Merging new rows appends each of them exactly when no two are alike; otherwise some collapse. */
  lemma {:induction false} RowsAppended(rels: seq<Rel>, rows: seq<Rel>)
    requires NewRows(rels, rows)
    ensures var after := MergeRels(rels, rows);
            && |after| <= |rels| + |rows| && (|after| == |rels| + |rows| <==> NoneAlike(rows))
            && (NoneAlike(rows) ==> after == rels + rows)
  {
    if rows == [] {
    } else {
      var init, last := rows[..|rows| - 1], rows[|rows| - 1];
      RowsAppended(rels, init);
      JoinedByRows(rels, init, last);
      NoneAlikeLast(rows);
      assert rows == init + [last];
    }
  }

  /** Every relationship of the dump gets a copy of its own exactly when no two are parallel; parallel ones collapse. */
  lemma ParallelsCollapse(t: Target, g: DB, ns: seq<Record>, es: seq<Record>)
    requires GoodDump(t, ns, es) && Fresh(t, g)
    ensures |Import(t, g, ns + es).db.rels| <= |g.rels| + |es|
    ensures |Import(t, g, ns + es).db.rels| == |g.rels| + |es| <==> NoParallels(es)
  {
    ImportWhole(t, g, ns, es);
    ImagesAreNew(t, g, ns, es);
    RowsAppended(g.rels, ImageRels(t, ns, |g.nodes|, es));
  }

  // ------------------------------------------------------------- round trip

  /** A silo that exports to a good dump. */
  ghost predicate GoodSilo(t: Target, db: DB, silo: string) {
    && (forall i :: 0 <= i < |db.nodes| && InSilo(db.nodes[i], silo) ==> GoodSource(t, db.nodes[i]))
    && (forall i, j :: 0 <= i < j < |db.nodes| && InSilo(db.nodes[i], silo) && InSilo(db.nodes[j], silo) ==>
          !SameId(db.nodes[i], db.nodes[j]))
    && (forall r :: r in db.rels && RelInSilo(db, r, silo) ==> Clean(t, r.kind))
    && (forall i, j :: 0 <= i < j < |db.rels| && RelInSilo(db, db.rels[i], silo) && RelInSilo(db, db.rels[j], silo) ==>
          !Joins(db.rels[i], db.rels[j]))
  }

  lemma SiloRelsApart(t: Target, db: DB, silo: string, i: nat, j: nat)
    requires GoodSilo(t, db, silo) && i < j < |SiloRels(db, db.rels, silo)|
    ensures var rels := SiloRels(db, db.rels, silo); !Joins(rels[i], rels[j])
  {
    SiloRelsKept(db, silo);
    var a, b := KeptPair(db.rels, RelMarks(db, silo), SiloRels(db, db.rels, silo), i, j);
    assert RelInSilo(db, db.rels[a], silo) && RelInSilo(db, db.rels[b], silo) && !Joins(db.rels[a], db.rels[b]);
  }

  ghost predicate SameId(m: Node, n: Node) { "id" in m.props && Has(n.props, "id", m.props["id"]) }

  ghost predicate GoodSource(t: Target, n: Node) {
    "id" in n.props && Truthy(n.props["id"]) && forall l :: l in n.labels ==> l != "" && Clean(t, l)
  }

  lemma NodeRecordAt(db: DB, silo: string, id: nat)
    requires id in Eids(db.nodes, silo)
    ensures HasNode(NodeRecords(db, silo), id)
  {
    var ids, ns := Eids(db.nodes, silo), NodeRecords(db, silo);
    var i :| 0 <= i < |ids| && ids[i] == id;
    assert ns[i].id == id;
  }

  lemma NodeRecordsAreGood(t: Target, db: DB, silo: string)
    requires GoodSilo(t, db, silo)
    ensures GoodDump(t, NodeRecords(db, silo), [])
  {
    var ids, ns := Eids(db.nodes, silo), NodeRecords(db, silo);
    forall i | 0 <= i < |ns| ensures GoodNode(t, ns[i]) {
      assert InSilo(db.nodes[ids[i]], silo) && GoodSource(t, db.nodes[ids[i]]);
    }
    forall i, j | 0 <= i < j < |ns| ensures ns[i].id != ns[j].id && ns[i].props["id"] != ns[j].props["id"] {
      assert ids[i] < ids[j] && !SameId(db.nodes[ids[i]], db.nodes[ids[j]]);
      assert GoodNode(t, ns[i]) && GoodNode(t, ns[j]);
    }
  }

  lemma EdgeRecordIsGood(t: Target, db: DB, silo: string, i: nat)
    requires GoodSilo(t, db, silo) && i < |EdgeRecords(db, silo)|
    ensures GoodEdge(t, NodeRecords(db, silo), EdgeRecords(db, silo)[i])
  {
    var rels := SiloRels(db, db.rels, silo);
    assert rels[i] in rels && EdgeRecords(db, silo)[i] == EdgeRecord(rels[i]);
    NodeRecordAt(db, silo, rels[i].src);
    NodeRecordAt(db, silo, rels[i].dst);
  }

  lemma EdgeRecordsApart(t: Target, db: DB, silo: string)
    requires GoodSilo(t, db, silo)
    ensures NoParallels(EdgeRecords(db, silo))
  {
    var rels, es := SiloRels(db, db.rels, silo), EdgeRecords(db, silo);
    forall i, j | 0 <= i < j < |es| ensures !Parallel(es[i], es[j]) {
      SiloRelsApart(t, db, silo, i, j);
      assert es[i] == EdgeRecord(rels[i]) && es[j] == EdgeRecord(rels[j]) && !Joins(rels[i], rels[j]);
    }
  }

  lemma DumpIsGood(t: Target, db: DB, silo: string)
    requires GoodSilo(t, db, silo)
    ensures GoodDump(t, NodeRecords(db, silo), EdgeRecords(db, silo)) && NoParallels(EdgeRecords(db, silo))
  {
    NodeRecordsAreGood(t, db, silo);
    EdgeRecordsApart(t, db, silo);
    forall i | 0 <= i < |EdgeRecords(db, silo)|
      ensures GoodEdge(t, NodeRecords(db, silo), EdgeRecords(db, silo)[i])
    {
      EdgeRecordIsGood(t, db, silo, i);
    }
  }

  /** `node`, copied into the target silo. */
  function CopyOf(t: Target, node: Node): Node {
    Node(node.labels, node.props["silo_id" := Str(t.silo)])
  }

  /** `to` sends the exported nodes one-to-one onto copies added to `g`. */
  ghost predicate NodesCopied(t: Target, db: DB, ids: seq<nat>, g: DB, h: DB, to: map<nat, nat>) {
    && g.nodes <= h.nodes && |h.nodes| == |g.nodes| + |ids| && (forall i :: i in to <==> i in ids)
    && (forall i :: i in to ==> |g.nodes| <= to[i] < |h.nodes| && i < |db.nodes|)
    && (forall i :: i in to ==> h.nodes[to[i]] == CopyOf(t, db.nodes[i]))
    && (forall i, j :: i in to && j in to && to[i] == to[j] ==> i == j)
  }

  ghost predicate RelsCopied(rels: seq<Rel>, g: DB, h: DB, to: map<nat, nat>) {
    && g.rels <= h.rels && |h.rels| == |g.rels| + |rels|
    && (forall k :: 0 <= k < |rels| ==> rels[k].src in to && rels[k].dst in to)
    && (forall k :: 0 <= k < |rels| ==>
          h.rels[|g.rels| + k] == Rel(to[rels[k].src], to[rels[k].dst], rels[k].kind, rels[k].props))
  }

  ghost predicate Mirrors(t: Target, db: DB, ids: seq<nat>, ns: seq<Record>) {
    |ns| == |ids| && forall i :: 0 <= i < |ns| ==> GoodNode(t, ns[i]) && RecordsNode(db, ids[i], ns[i])
  }

  /** `to` sends a node to where the import puts the record made of it. */
  ghost predicate Renumbers(ids: seq<nat>, ns: seq<Record>, base: nat, to: map<nat, nat>) {
    && (forall i :: i in to <==> i in ids) && (forall i :: i in to <==> HasNode(ns, i))
    && (forall i :: i in to ==> to[i] == base + Pos(ns, i))
  }

  lemma NodeArrives(t: Target, db: DB, ids: seq<nat>, ns: seq<Record>, g: seq<Node>, i: nat)
    requires Mirrors(t, db, ids, ns) && HasNode(ns, i)
    ensures i < |db.nodes| && (g + Images(t, ns))[|g| + Pos(ns, i)] == CopyOf(t, db.nodes[i])
  {
    var p := Pos(ns, i);
    assert RecordsNode(db, ids[p], ns[p]);
    assert (g + Images(t, ns))[|g| + p] == Images(t, ns)[p];
  }

  lemma NodesArrive(t: Target, db: DB, ids: seq<nat>, ns: seq<Record>, g: DB, h: DB, to: map<nat, nat>)
    requires Mirrors(t, db, ids, ns) && h.nodes == g.nodes + Images(t, ns) && Renumbers(ids, ns, |g.nodes|, to)
    ensures NodesCopied(t, db, ids, g, h, to)
  {
    RenumberingOneToOne(ids, ns, |g.nodes|, to);
    forall i | i in to
      ensures |g.nodes| <= to[i] < |h.nodes| && i < |db.nodes| && h.nodes[to[i]] == CopyOf(t, db.nodes[i])
    {
      NodeArrives(t, db, ids, ns, g.nodes, i);
    }
  }

  lemma RenumberingOneToOne(ids: seq<nat>, ns: seq<Record>, base: nat, to: map<nat, nat>)
    requires Renumbers(ids, ns, base, to)
    ensures forall i, j :: i in to && j in to && to[i] == to[j] ==> i == j
  {
    forall i, j | i in to && j in to && to[i] == to[j] ensures i == j {
      assert Pos(ns, i) == Pos(ns, j);
    }
  }

  predicate RecordsNode(db: DB, id: nat, rec: Record) {
    id < |db.nodes| && rec == NodeRec(id, db.nodes[id].labels, db.nodes[id].props)
  }

  lemma RelsArrive(t: Target, rels: seq<Rel>, ns: seq<Record>, es: seq<Record>, g: DB, h: DB, to: map<nat, nat>)
    requires MirrorsRels(t, rels, ns, es)
    requires h.rels == g.rels + ImageRels(t, ns, |g.nodes|, es)
    requires exists ids :: Renumbers(ids, ns, |g.nodes|, to)
    ensures RelsCopied(rels, g, h, to)
  {
    var added := ImageRels(t, ns, |g.nodes|, es);
    forall k | 0 <= k < |rels|
      ensures rels[k].src in to && rels[k].dst in to
      ensures h.rels[|g.rels| + k] == Rel(to[rels[k].src], to[rels[k].dst], rels[k].kind, rels[k].props)
    {
      assert es[k] == EdgeRecord(rels[k]);
      assert h.rels[|g.rels| + k] == added[k] == ImageRel(ns, |g.nodes|, es[k]);
    }
  }

  /**
   * Exporting a silo and importing the records into a database with no node of the target silo adds an
   * isomorphic copy: same labels, relationships and properties, only `silo_id` rewritten, nothing else touched.
   */
  lemma RoundTrip(t: Target, db: DB, silo: string, g: DB) returns (to: map<nat, nat>)
    requires GoodSilo(t, db, silo) && Fresh(t, g)
    ensures var h := Import(t, g, Dump(db, silo)).db;
            && NodesCopied(t, db, Eids(db.nodes, silo), g, h, to)
            && RelsCopied(SiloRels(db, db.rels, silo), g, h, to)
            && Kept(db.rels, RelMarks(db, silo), SiloRels(db, db.rels, silo))
            && forall i: nat :: i in to <==> i < |db.nodes| && Has(db.nodes[i].props, "silo_id", Str(silo))
  {
    SiloRelsKept(db, silo);
    var ns, es, ids := NodeRecords(db, silo), EdgeRecords(db, silo), Eids(db.nodes, silo);
    DumpIsGood(t, db, silo);
    ImportWhole(t, g, ns, es);
    ImagesAreNew(t, g, ns, es);
    RowsAppended(g.rels, ImageRels(t, ns, |g.nodes|, es));
    to := Renumbering(db, silo, |g.nodes|);
    DumpMirrors(t, db, silo);
    var h := Import(t, g, Dump(db, silo)).db;
    Arrive(t, db, ids, SiloRels(db, db.rels, silo), ns, es, g, h, to);
  }

  ghost predicate MirrorsRels(t: Target, rels: seq<Rel>, ns: seq<Record>, es: seq<Record>) {
    |es| == |rels| && forall k :: 0 <= k < |rels| ==> es[k] == EdgeRecord(rels[k]) && GoodEdge(t, ns, es[k])
  }

  lemma DumpMirrors(t: Target, db: DB, silo: string)
    requires GoodDump(t, NodeRecords(db, silo), EdgeRecords(db, silo))
    ensures Mirrors(t, db, Eids(db.nodes, silo), NodeRecords(db, silo))
    ensures MirrorsRels(t, SiloRels(db, db.rels, silo), NodeRecords(db, silo), EdgeRecords(db, silo))
  {}

  lemma Arrive(t: Target, db: DB, ids: seq<nat>, rels: seq<Rel>, ns: seq<Record>, es: seq<Record>,
               g: DB, h: DB, to: map<nat, nat>)
    requires Mirrors(t, db, ids, ns) && MirrorsRels(t, rels, ns, es) && Renumbers(ids, ns, |g.nodes|, to)
    requires h == DB(g.nodes + Images(t, ns), g.rels + ImageRels(t, ns, |g.nodes|, es))
    ensures NodesCopied(t, db, ids, g, h, to) && RelsCopied(rels, g, h, to)
  {
    NodesArrive(t, db, ids, ns, g, h, to);
    RelsArrive(t, rels, ns, es, g, h, to);
  }

  /** Where each exported node goes. */
  ghost function Renumbering(db: DB, silo: string, base: nat): (to: map<nat, nat>)
    ensures Renumbers(Eids(db.nodes, silo), NodeRecords(db, silo), base, to)
  {
    var ids, ns := Eids(db.nodes, silo), NodeRecords(db, silo);
    assert forall i :: i in ids ==> HasNode(ns, i) by {
      forall i | i in ids ensures HasNode(ns, i) { NodeRecordAt(db, silo, i); }
    }
    assert forall i :: HasNode(ns, i) ==> i in ids;
    map i | i in ids :: base + Pos(ns, i)
  }

  // --------------------------------------------------------------- importer

  predicate Between(r: Rel, srcs: seq<nat>, dsts: seq<nat>, kind: string) {
    r.src in srcs && r.dst in dsts && r.kind == kind
  }

  ghost predicate Upserted(rels: seq<Rel>, after: seq<Rel>, srcs: seq<nat>, dsts: seq<nat>, kind: string,
                           props: Props) {
    && |rels| <= |after|
    && (forall i :: 0 <= i < |rels| ==>
          after[i] == if Between(rels[i], srcs, dsts, kind) then rels[i].(props := rels[i].props + props) else rels[i])
    && (forall i :: |rels| <= i < |after| ==>
          Between(after[i], srcs, dsts, kind) && after[i].props == props && !JoinedIn(rels, after[i]))
    && (forall a, b :: a in srcs && b in dsts ==> JoinedIn(after, Rel(a, b, kind, props)))
  }

  lemma {:induction false} WrittenAlways(rows: seq<Rel>, r: Rel, props: Props)
    requires forall x :: x in rows ==> x.props == props
    ensures Written(rows, r) == if JoinedIn(rows, r) then props else map[]
  {
    if rows == [] {
    } else {
      var n := |rows| - 1;
      WrittenAlways(rows[..n], r, props);
      assert rows[n] in rows;
      WrittenMore(rows[..n], rows[n], r);
      assert rows[..n] + [rows[n]] == rows;
    }
  }

  /** `rows` is every source with every target. */
  ghost predicate AreRows(rows: seq<Rel>, srcs: seq<nat>, dsts: seq<nat>, kind: string, props: Props) {
    forall r :: r in rows <==> Between(r, srcs, dsts, kind) && r.props == props
  }

  lemma WrittenBetween(rows: seq<Rel>, srcs: seq<nat>, dsts: seq<nat>, kind: string, props: Props, r: Rel)
    requires AreRows(rows, srcs, dsts, kind, props)
    ensures JoinedIn(rows, r) <==> Between(r, srcs, dsts, kind)
    ensures Written(rows, r) == if Between(r, srcs, dsts, kind) then props else map[]
  {
    if Between(r, srcs, dsts, kind) {
      assert r.(props := props) in rows;
      var i :| 0 <= i < |rows| && rows[i] == r.(props := props);
      assert Joins(rows[i], r);
    }
    assert forall i :: 0 <= i < |rows| ==> rows[i] in rows;
    WrittenAlways(rows, r, props);
  }

  lemma MergedUpserts(rels: seq<Rel>, rows: seq<Rel>, after: seq<Rel>, srcs: seq<nat>, dsts: seq<nat>,
                      kind: string, props: Props)
    requires Merged(rels, rows, after) && AreRows(rows, srcs, dsts, kind, props)
    ensures Upserted(rels, after, srcs, dsts, kind, props)
  {
    forall i | 0 <= i < |rels|
      ensures after[i] == if Between(rels[i], srcs, dsts, kind) then rels[i].(props := rels[i].props + props)
                          else rels[i]
    {
      WrittenBetween(rows, srcs, dsts, kind, props, rels[i]);
    }
    forall i | |rels| <= i < |after|
      ensures Between(after[i], srcs, dsts, kind) && after[i].props == props && !JoinedIn(rels, after[i])
    {
      assert NewRel(rels, rows, after[i]);
      WrittenBetween(rows, srcs, dsts, kind, props, after[i]);
    }
    forall a, b | a in srcs && b in dsts ensures JoinedIn(after, Rel(a, b, kind, props)) {
      assert Rel(a, b, kind, props) in rows;
      var i :| 0 <= i < |rows| && rows[i] == Rel(a, b, kind, props);
    }
  }

  lemma RowsUpsert(rels: seq<Rel>, srcs: seq<nat>, dsts: seq<nat>, kind: string, props: Props)
    ensures Upserted(rels, MergeRels(rels, Rows(srcs, dsts, kind, props)), srcs, dsts, kind, props)
  {
    var rows := Rows(srcs, dsts, kind, props);
    RowsMeaning(srcs, dsts, kind, props);
    MergedByRows(rels, rows);
    MergedUpserts(rels, rows, MergeRels(rels, rows), srcs, dsts, kind, props);
  }

  lemma {:induction false} RowsToMeaning(srcs: seq<nat>, dst: nat, kind: string, props: Props)
    ensures forall r :: r in RowsTo(srcs, dst, kind, props) <==>
                        r.src in srcs && r.dst == dst && r.kind == kind && r.props == props
  {
    if srcs == [] {
    } else {
      var n := |srcs| - 1;
      RowsToMeaning(srcs[..n], dst, kind, props);
      assert srcs == srcs[..n] + [srcs[n]];
    }
  }

  lemma {:induction false} RowsMeaning(srcs: seq<nat>, dsts: seq<nat>, kind: string, props: Props)
    ensures AreRows(Rows(srcs, dsts, kind, props), srcs, dsts, kind, props)
  {
    if dsts == [] {
    } else {
      var n := |dsts| - 1;
      RowsMeaning(srcs, dsts[..n], kind, props);
      RowsToMeaning(srcs, dsts[n], kind, props);
      assert dsts == dsts[..n] + [dsts[n]];
    }
  }

  class SiloImporter {
    const target: Target
    var db: DB
    var appIds: map<nat, Value>

    constructor (target: Target, db: DB)
      ensures this.target == target && this.db == db && appIds == map[]
    {
      this.target, this.db, appIds := target, db, map[];
    }

    /** Splits a node's properties into the MERGE key and the SET list. */
    method BuildNodeMerge(labels: set<string>, props: Props)
      returns (safe: set<string>, id: Value, silo: Value, sets: Props)
      ensures safe == SafeLabels(target, labels) && id == IdOr(props, Str(""))
      ensures silo == Lookup(props, "silo_id", Str("")) && sets == props - {"id", "silo_id"}
    {
      safe := SafeLabels(target, labels);
      id := IdOr(props, Str(""));
      silo := Lookup(props, "silo_id", Str(""));
      sets := map[];
      var rest := props.Keys;
      while rest != {}
        invariant rest <= props.Keys
        invariant sets == map k | k in props && k !in rest && k !in {"id", "silo_id"} :: props[k]
        decreases rest
      {
        var k :| k in rest;
        if k != "id" && k != "silo_id" {
          sets := sets[k := props[k]];
        }
        rest := rest - {k};
      }
    }

    method ImportNode(rec: Record)
      requires rec.NodeRec?
      modifies this
      ensures State(db, appIds) == ImportRecord(target, old(State(db, appIds)), rec)
    {
      var props := RewriteSilo(target, rec.props);
      if "id" !in props {
        props := props[EXPORT_ID := Num(rec.id)];
      }
      appIds := appIds[rec.id := IdOr(props, Num(rec.id))];
      var safe, id, silo, sets := BuildNodeMerge(rec.labels, props);
      db := MergeNode(db, safe, id, silo, sets);
    }

    /**
     * Skipped when an end is unresolved. Otherwise every relationship of the type between nodes matching the
     * ends takes the properties, pairs without one get one, and nothing else changes.
     */
    method ImportEdge(rec: Record)
      requires rec.EdgeRec?
      modifies this`db
      ensures State(db, appIds) == ImportRecord(target, old(State(db, appIds)), rec)
      ensures db.nodes == old(db).nodes
      ensures rec.src !in appIds || rec.dst !in appIds ==> db == old(db)
      ensures rec.src in appIds && rec.dst in appIds ==>
                Upserted(old(db).rels, db.rels, Hits(db.nodes, appIds[rec.src], Str(target.silo)),
                         Hits(db.nodes, appIds[rec.dst], Str(target.silo)), Sanitize(target, rec.kind), rec.props)
    {
      if rec.src !in appIds || rec.dst !in appIds {
        return;
      }
      var silo := Str(target.silo);
      var srcs, dsts := Hits(db.nodes, appIds[rec.src], silo), Hits(db.nodes, appIds[rec.dst], silo);
      var kind := Sanitize(target, rec.kind);
      RowsUpsert(db.rels, srcs, dsts, kind, rec.props);
      db := db.(rels := MergeRels(db.rels, Rows(srcs, dsts, kind, rec.props)));
    }

    /** One invocation of the script: the guard, then the records in file order. */
    method ImportDump(recs: seq<Record>, force: bool) returns (admitted: bool)
      requires appIds == map[]
      modifies this
      ensures force ==> admitted
      ensures !force ==> (admitted <==> forall i :: 0 <= i < |old(db).nodes| ==>
                                          !Has(old(db).nodes[i].props, "silo_id", Str(target.silo)))
      ensures db == if admitted then Import(target, old(db), recs).db else old(db)
    {
      admitted := Admitted(db, target.silo, force);
      if !admitted {
        return;
      }
      var i := 0;
      while i < |recs|
        invariant 0 <= i <= |recs| && State(db, appIds) == Import(target, old(db), recs[..i])
      {
        ImportNext(recs, i, old(db));
        i := i + 1;
      }
      assert recs[..i] == recs;
    }

    /** Dispatch on the kind of record. `start` is the database the run began with. */
    method ImportNext(recs: seq<Record>, i: nat, ghost start: DB)
      requires i < |recs| && State(db, appIds) == Import(target, start, recs[..i])
      modifies this
      ensures State(db, appIds) == Import(target, start, recs[..i + 1])
    {
      assert recs[..i + 1][..i] == recs[..i];
      if recs[i].NodeRec? {
        ImportNode(recs[i]);
      } else {
        ImportEdge(recs[i]);
      }
    }
  }
}
