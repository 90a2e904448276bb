/**
 * The Custodian's per-visit write: validated, versioned, with capped history, all or nothing.
 *
 * `Store` holds what a visit writes. A visit carries the graph its citations were checked against and
 * the graph as it is when the transaction runs, and whether the transaction commits.
 */
module CustodianWritePath {
  import opened Prelude
  import opened Citations

  const HISTORY_KEEP_COUNT := 20

  datatype Target = Target(scope: Scope, silo: string)

  datatype Body = Body(passId: string, summary: string, claims: seq<Claim>, edges: seq<Edge>)

  datatype Snapshot = Snapshot(passId: string, summary: string, claims: seq<Claim>)

  /** `history` lists the snapshots kept, oldest first. */
  datatype FindingNode = FindingNode(id: string, version: nat, body: Body, history: seq<Snapshot>)

  datatype Cite = Cite(findingId: string, silo: string, nodeId: Id, kind: string)

  datatype EdgeKey = EdgeKey(source: Id, target: Id, kind: string, passId: string)

  datatype Store = Store(
    findings: map<Target, FindingNode>,
    cites: set<Cite>,
    proposed: map<EdgeKey, Edge>,
    lastPass: map<Target, string>,       // last_custodian_pass_id of the clusters there are
    claimed: set<(string, string)>)      // (pass, cluster)

  datatype Visit = Visit(finding: Finding, passId: string, seen: set<Id>, freshId: string,
                         looked: Graph, atWrite: Graph, commits: bool)

  function TargetOf(f: Finding): Target { Target(f.scope, f.silo) }

  function ClaimsOf(v: Visit): seq<Claim> {
    SurvivingClaims(v.finding.claims, v.finding.silo, v.seen, v.looked)
  }

  function EdgesOf(rules: Rules, v: Visit): seq<Edge> {
    SurvivingEdges(rules, v.finding.edges, v.finding.silo, v.seen, v.looked)
  }

  /** Cluster-scope visits with no surviving claim are skipped. */
  predicate Skipped(v: Visit) { ClaimsOf(v) == [] && v.finding.scope != Silo }

  predicate Written(v: Visit) { !Skipped(v) && v.commits }

  function BodyOf(rules: Rules, v: Visit): Body {
    Body(v.passId, v.finding.summary, ClaimsOf(v), EdgesOf(rules, v))
  }

  /** The prior body as history keeps it; a missing pass id is replaced by the current one. */
  function SnapshotOf(prior: Body, passId: string): Snapshot {
    Snapshot(if prior.passId != "" then prior.passId else passId, prior.summary, prior.claims)
  }

  function LastOf<T>(s: seq<T>, keep: nat): seq<T> { if |s| <= keep then s else s[|s| - keep..] }

  function Upserted(prior: Option<FindingNode>, body: Body, freshId: string): FindingNode {
    match prior
    case None => FindingNode(freshId, 1, body, [])
    case Some(p) => FindingNode(p.id, p.version + 1, body,
                                LastOf(p.history + [SnapshotOf(p.body, body.passId)], HISTORY_KEEP_COUNT))
  }

  function Pairs(claims: seq<Claim>): seq<(Id, string)> {
    if claims == [] then []
    else AddPairs(Pairs(claims[..|claims| - 1]), claims[|claims| - 1].citations)
  }

  /** Citation pairs not yet listed, in order. */
  function AddPairs(batch: seq<(Id, string)>, citations: seq<Citation>): seq<(Id, string)> {
    if citations == [] then batch
    else
      var b, c := AddPairs(batch, citations[..|citations| - 1]), citations[|citations| - 1];
      if (c.nodeId, c.kind) in b then b else b + [(c.nodeId, c.kind)]
  }

  /** CITES edges reach only nodes that are in the silo when the query runs. */
  function CitesFor(id: string, silo: string, pairs: seq<(Id, string)>, graph: Graph): set<Cite> {
    set p | p in pairs && p.0 in graph && graph[p.0] == silo :: Cite(id, silo, p.0, p.1)
  }

  /** The first proposal of an edge in a pass stays; later ones only touch its timestamp. */
  function MergeProposed(m: map<EdgeKey, Edge>, edges: seq<Edge>, passId: string): map<EdgeKey, Edge> {
    if edges == [] then m
    else
      var r, e := MergeProposed(m, edges[..|edges| - 1], passId), edges[|edges| - 1];
      var key := EdgeKey(e.source, e.target, e.kind, passId);
      if key in r then r else r[key := e]
  }

  function PriorOf(s: Store, t: Target): Option<FindingNode> {
    if t in s.findings then Some(s.findings[t]) else None
  }

  function Committed(rules: Rules, s: Store, v: Visit): Store {
    var t := TargetOf(v.finding);
    var node := Upserted(PriorOf(s, t), BodyOf(rules, v), v.freshId);
    Store(s.findings[t := node],
          s.cites + CitesFor(node.id, t.silo, Pairs(ClaimsOf(v)), v.atWrite),
          MergeProposed(s.proposed, EdgesOf(rules, v), v.passId),
          if t.scope.Cluster? && t in s.lastPass then s.lastPass[t := v.passId] else s.lastPass,
          if t.scope.Cluster? then s.claimed + {(v.passId, t.scope.id)} else s.claimed)
  }

  function Write(rules: Rules, s: Store, v: Visit): Store {
    if Written(v) then Committed(rules, s, v) else s
  }

  function Run(rules: Rules, s: Store, visits: seq<Visit>): Store {
    if visits == [] then s else Write(rules, Run(rules, s, visits[..|visits| - 1]), visits[|visits| - 1])
  }

  const EMPTY := Store(map[], {}, map[], map[], {})

  // ----------------------------------------------------------- whole runs

  /** The bodies written for a target, in order. */
  function Bodies(rules: Rules, visits: seq<Visit>, t: Target): seq<Body> {
    if visits == [] then []
    else
      var v := visits[|visits| - 1];
      Bodies(rules, visits[..|visits| - 1], t)
      + if Written(v) && TargetOf(v.finding) == t then [BodyOf(rules, v)] else []
  }

  /** The snapshots those bodies leave: all but the last, each as its successor found it. */
  function Snapshots(bodies: seq<Body>): seq<Snapshot> {
    if |bodies| < 2 then []
    else Snapshots(bodies[..|bodies| - 1]) + [SnapshotOf(bodies[|bodies| - 2], bodies[|bodies| - 1].passId)]
  }

  lemma {:induction false} SnapshotCount(bodies: seq<Body>)
    ensures |Snapshots(bodies)| == Max(0, |bodies| - 1)
  {
    if |bodies| >= 2 { SnapshotCount(bodies[..|bodies| - 1]); }
  }

  lemma LastOfExtends<T>(s: seq<T>, x: T, keep: nat)
    ensures LastOf(LastOf(s, keep) + [x], keep) == LastOf(s + [x], keep)
  {}

  /** What a target's finding is after a run. */
  ghost predicate Faithful(s: Store, t: Target, bodies: seq<Body>) {
    && (t in s.findings <==> bodies != [])
    && (bodies != [] ==>
          var f := s.findings[t];
          && f.version == |bodies| && f.body == bodies[|bodies| - 1]
          && f.history == LastOf(Snapshots(bodies), HISTORY_KEEP_COUNT))
  }

  lemma WriteExtends(rules: Rules, s: Store, v: Visit, t: Target, bodies: seq<Body>)
    requires Faithful(s, t, bodies) && Written(v) && TargetOf(v.finding) == t
    ensures Faithful(Write(rules, s, v), t, bodies + [BodyOf(rules, v)])
  {
    var longer := bodies + [BodyOf(rules, v)];
    assert longer[..|bodies|] == bodies;
    if bodies != [] {
      var x := SnapshotOf(bodies[|bodies| - 1], v.passId);
      assert Snapshots(longer) == Snapshots(bodies) + [x];
      LastOfExtends(Snapshots(bodies), x, HISTORY_KEEP_COUNT);
    }
  }

  lemma OtherTargetsKept(rules: Rules, s: Store, v: Visit, t: Target, bodies: seq<Body>)
    requires Faithful(s, t, bodies) && !(Written(v) && TargetOf(v.finding) == t)
    ensures Faithful(Write(rules, s, v), t, bodies)
  {}

  lemma BodiesLast(rules: Rules, visits: seq<Visit>, t: Target)
    requires visits != []
    ensures var v, before := visits[|visits| - 1], Bodies(rules, visits[..|visits| - 1], t);
            Bodies(rules, visits, t) ==
            if Written(v) && TargetOf(v.finding) == t then before + [BodyOf(rules, v)] else before
  {}

  lemma {:induction false} FaithfulRun(rules: Rules, visits: seq<Visit>, t: Target)
    ensures Faithful(Run(rules, EMPTY, visits), t, Bodies(rules, visits, t))
  {
    if visits == [] {
    } else {
      var before, v := visits[..|visits| - 1], visits[|visits| - 1];
      FaithfulRun(rules, before, t);
      var s, bodies := Run(rules, EMPTY, before), Bodies(rules, before, t);
      BodiesLast(rules, visits, t);
      if Written(v) && TargetOf(v.finding) == t {
        WriteExtends(rules, s, v, t, bodies);
      } else {
        OtherTargetsKept(rules, s, v, t, bodies);
      }
    }
  }

  /** The visit writes the finding of this scope and silo: it commits, and it is silo-scoped or has a citable claim. */
  predicate WritesTo(v: Visit, t: Target) {
    && v.commits && v.finding.scope == t.scope && v.finding.silo == t.silo
    && (v.finding.scope == Silo || HasCitableClaim(v))
  }

  predicate HasCitableClaim(v: Visit) {
    exists c :: c in v.finding.claims && ClaimOk(c, v.finding.silo, v.seen, v.looked)
  }

  lemma SomeClaimSurvives(v: Visit)
    ensures ClaimsOf(v) != [] <==> HasCitableClaim(v)
  {
    var kept := ClaimsOf(v);
    SurvivingClaimsKept(v.finding.claims, v.finding.silo, v.seen, v.looked);
    var marks := ClaimMarks(v.finding.claims, v.finding.silo, v.seen, v.looked);
    if kept != [] {
      var i := Locate(marks, |v.finding.claims|, 0);
      assert v.finding.claims[i] in v.finding.claims;
    }
    if HasCitableClaim(v) {
      var c :| c in v.finding.claims && ClaimOk(c, v.finding.silo, v.seen, v.looked);
      var i :| 0 <= i < |v.finding.claims| && v.finding.claims[i] == c;
      assert marks[i];
    }
  }

  lemma WritesToMeaning(v: Visit, t: Target)
    ensures WritesTo(v, t) <==> Written(v) && TargetOf(v.finding) == t
  {
    SomeClaimSurvives(v);
  }

  function WriterMarks(visits: seq<Visit>, t: Target): seq<bool> {
    seq(|visits|, i requires 0 <= i < |visits| => WritesTo(visits[i], t))
  }

  /** What a visit leaves in the finding's body. */
  ghost predicate Stored(rules: Rules, b: Body, v: Visit) {
    && b.passId == v.passId && b.summary == v.finding.summary
    && ClaimsKept(v.finding.claims, b.claims, v.finding.silo, v.seen, v.looked)
    && EdgesKept(rules, v.finding.edges, b.edges, v.finding.silo, v.seen, v.looked)
  }

  /** And in a history snapshot, once a later visit has replaced it. */
  ghost predicate Remembered(h: Snapshot, v: Visit, next: Visit) {
    && h.passId == (if v.passId != "" then v.passId else next.passId) && h.summary == v.finding.summary
    && ClaimsKept(v.finding.claims, h.claims, v.finding.silo, v.seen, v.looked)
  }

  lemma BodyIsStored(rules: Rules, v: Visit)
    ensures Stored(rules, BodyOf(rules, v), v)
  {
    SurvivingClaimsKept(v.finding.claims, v.finding.silo, v.seen, v.looked);
    SurvivingEdgesKept(rules, v.finding.edges, v.finding.silo, v.seen, v.looked);
  }

  function AllBodies(rules: Rules, visits: seq<Visit>): seq<Body> {
    seq(|visits|, i requires 0 <= i < |visits| => BodyOf(rules, visits[i]))
  }

  ghost predicate Wrote(rules: Rules, v: Visit, t: Target, body: Body, mark: bool) {
    body == BodyOf(rules, v) && (mark <==> Written(v) && TargetOf(v.finding) == t)
  }

  ghost predicate AllWrote(rules: Rules, visits: seq<Visit>, t: Target, all: seq<Body>, marks: seq<bool>) {
    && |all| == |marks| == |visits|
    && forall i {:trigger Wrote(rules, visits[i], t, all[i], marks[i])} :: 0 <= i < |visits| ==>
         Wrote(rules, visits[i], t, all[i], marks[i])
  }

  lemma BodiesNext(rules: Rules, visits: seq<Visit>, t: Target, all: seq<Body>, marks: seq<bool>, n: nat)
    requires AllWrote(rules, visits, t, all, marks) && 0 < n <= |visits|
    ensures Bodies(rules, visits[..n], t) ==
            Bodies(rules, visits[..n - 1], t) + if marks[n - 1] then [all[n - 1]] else []
  {
    assert Wrote(rules, visits[n - 1], t, all[n - 1], marks[n - 1]);
    assert visits[..n][..n - 1] == visits[..n - 1];
    BodiesLast(rules, visits[..n], t);
  }

  lemma BodiesOfNone(rules: Rules, visits: seq<Visit>, t: Target)
    ensures Bodies(rules, visits[..0], t) == []
  {}

  lemma {:induction false} BodiesAreFilter(rules: Rules, visits: seq<Visit>, t: Target, all: seq<Body>,
                                            marks: seq<bool>, n: nat)
    requires AllWrote(rules, visits, t, all, marks) && n <= |visits|
    ensures Bodies(rules, visits[..n], t) == Filter(all, marks, n)
  {
    if n == 0 {
      BodiesOfNone(rules, visits, t);
    } else {
      BodiesAreFilter(rules, visits, t, all, marks, n - 1);
      BodiesNext(rules, visits, t, all, marks, n);
    }
  }

  lemma BodiesKept(rules: Rules, visits: seq<Visit>, t: Target)
    ensures Kept(AllBodies(rules, visits), WriterMarks(visits, t), Bodies(rules, visits, t))
  {
    var all, marks := AllBodies(rules, visits), WriterMarks(visits, t);
    forall i | 0 <= i < |visits| ensures Wrote(rules, visits[i], t, all[i], marks[i]) {
      WritesToMeaning(visits[i], t);
    }
    BodiesAreFilter(rules, visits, t, all, marks, |visits|);
    assert visits[..|visits|] == visits;
    FilterKeeps(all, marks);
  }

  lemma {:induction false} SnapshotAt(bodies: seq<Body>, k: nat)
    requires k + 1 < |bodies|
    ensures k < |Snapshots(bodies)| && Snapshots(bodies)[k] == SnapshotOf(bodies[k], bodies[k + 1].passId)
  {
    SnapshotCount(bodies);
    SnapshotCount(bodies[..|bodies| - 1]);
    if k + 2 < |bodies| { SnapshotAt(bodies[..|bodies| - 1], k); }
  }

  /**
   * Over any visits, skipped, aborted or committed: a finding's version is the number of visits that wrote
   * it, and it keeps the most recent min(version - 1, 20) snapshots.
   */
  lemma VersionsAndHistory(rules: Rules, visits: seq<Visit>, t: Target)
    ensures var f, writes := Run(rules, EMPTY, visits).findings, Count(WriterMarks(visits, t), |visits|);
            && (t in f <==> writes > 0)
            && (t in f ==> f[t].version == writes && |f[t].history| == Min(writes - 1, 20))
  {
    var marks := WriterMarks(visits, t);
    FaithfulRun(rules, visits, t);
    BodiesKept(rules, visits, t);
    SnapshotCount(Bodies(rules, visits, t));
  }

  /** The body is what the last of those visits left. */
  lemma BodyOfLastWriter(rules: Rules, visits: seq<Visit>, t: Target, i: nat)
    requires var marks := WriterMarks(visits, t);
             i < |visits| && WritesTo(visits[i], t) && Count(marks, i) + 1 == Count(marks, |visits|)
    ensures t in Run(rules, EMPTY, visits).findings
    ensures Stored(rules, Run(rules, EMPTY, visits).findings[t].body, visits[i])
  {
    var marks := WriterMarks(visits, t);
    FaithfulRun(rules, visits, t);
    BodiesKept(rules, visits, t);
    assert marks[i] && AllBodies(rules, visits)[i] == BodyOf(rules, visits[i]);
    BodyIsStored(rules, visits[i]);
  }

  lemma SnapshotKept(s: Store, t: Target, bodies: seq<Body>, k: nat)
    requires Faithful(s, t, bodies) && k + 1 < |bodies|
    ensures t in s.findings && |s.findings[t].history| < s.findings[t].version
    ensures var f := s.findings[t];
            var dropped := f.version - 1 - |f.history|;
            dropped <= k ==> k - dropped < |f.history|
                             && f.history[k - dropped] == SnapshotOf(bodies[k], bodies[k + 1].passId)
  {
    SnapshotCount(bodies);
    SnapshotAt(bodies, k);
  }

  /** The `k`-th write is the one of visit `i`. */
  lemma WriteNumber(rules: Rules, visits: seq<Visit>, t: Target, i: nat)
    requires i < |visits| && WritesTo(visits[i], t)
    ensures var k, bodies := Count(WriterMarks(visits, t), i), Bodies(rules, visits, t);
            k < |bodies| && bodies[k] == BodyOf(rules, visits[i])
  {
    BodiesKept(rules, visits, t);
    assert WriterMarks(visits, t)[i] && AllBodies(rules, visits)[i] == BodyOf(rules, visits[i]);
  }

  /** How many of the earliest snapshots are gone. */
  function Dropped(f: FindingNode): int { f.version - 1 - |f.history| }

  ghost predicate InHistory(f: FindingNode, k: nat, v: Visit, next: Visit) {
    0 <= k - Dropped(f) < |f.history| && Remembered(f.history[k - Dropped(f)], v, next)
  }

  /** Each snapshot kept is what the writer of its turn left, in the order of the writes. */
  lemma HistoryOfEarlierWriters(rules: Rules, visits: seq<Visit>, t: Target, i: nat, next: nat)
    requires i < |visits| && next < |visits| && WritesTo(visits[i], t) && WritesTo(visits[next], t)
    requires var marks := WriterMarks(visits, t); Count(marks, next) == Count(marks, i) + 1
    ensures var k, f := Count(WriterMarks(visits, t), i), Run(rules, EMPTY, visits).findings;
            t in f && (Dropped(f[t]) <= k ==> InHistory(f[t], k, visits[i], visits[next]))
  {
    WriteNumber(rules, visits, t, i);
    WriteNumber(rules, visits, t, next);
    RunHistory(rules, visits, t, Count(WriterMarks(visits, t), i), visits[i], visits[next]);
  }

  lemma RunHistory(rules: Rules, visits: seq<Visit>, t: Target, k: nat, v: Visit, next: Visit)
    requires var bodies := Bodies(rules, visits, t);
             k + 1 < |bodies| && bodies[k] == BodyOf(rules, v) && bodies[k + 1] == BodyOf(rules, next)
    ensures var f := Run(rules, EMPTY, visits).findings;
            t in f && (Dropped(f[t]) <= k ==> InHistory(f[t], k, v, next))
  {
    FaithfulRun(rules, visits, t);
    SnapshotKept(Run(rules, EMPTY, visits), t, Bodies(rules, visits, t), k);
    EntryIsRemembered(rules, Run(rules, EMPTY, visits).findings[t], k, v, next);
  }

  lemma EntryIsRemembered(rules: Rules, f: FindingNode, k: nat, v: Visit, next: Visit)
    requires |f.history| < f.version
    requires Dropped(f) <= k ==> k - Dropped(f) < |f.history|
                                 && f.history[k - Dropped(f)] ==
                                    SnapshotOf(BodyOf(rules, v), BodyOf(rules, next).passId)
    ensures Dropped(f) <= k ==> InHistory(f, k, v, next)
  {
    BodyIsRemembered(rules, v, next);
  }

  lemma BodyIsRemembered(rules: Rules, v: Visit, next: Visit)
    ensures Remembered(SnapshotOf(BodyOf(rules, v), BodyOf(rules, next).passId), v, next)
  {
    BodyIsStored(rules, v);
  }

  lemma {:induction false} AddPairsMeaning(batch: seq<(Id, string)>, citations: seq<Citation>)
    requires Distinct(batch)
    ensures Distinct(AddPairs(batch, citations))
    ensures forall p :: p in AddPairs(batch, citations) <==>
                        p in batch || exists c :: c in citations && p == (c.nodeId, c.kind)
  {
    if citations == [] {
    } else {
      var init, last := citations[..|citations| - 1], citations[|citations| - 1];
      assert citations == init + [last];
      AddPairsMeaning(batch, init);
    }
  }

  predicate Cited(claims: seq<Claim>, p: (Id, string)) {
    exists c, x :: c in claims && x in c.citations && p == (x.nodeId, x.kind)
  }

  lemma {:induction false} PairsMeaning(claims: seq<Claim>)
    ensures Distinct(Pairs(claims)) && forall p :: p in Pairs(claims) <==> Cited(claims, p)
  {
    if claims == [] {
    } else {
      var init, last := claims[..|claims| - 1], claims[|claims| - 1];
      assert claims == init + [last];
      PairsMeaning(init);
      AddPairsMeaning(Pairs(init), last.citations);
      forall p ensures p in Pairs(claims) <==> Cited(claims, p) {
        if Cited(init, p) {
          var c, x :| c in init && x in c.citations && p == (x.nodeId, x.kind);
          assert c in claims;
        }
        if x :| x in last.citations && p == (x.nodeId, x.kind) {
          assert last in claims;
        }
      }
    }
  }

  /** The claim is one of the visit's, all its citations are citable, and one of them is this. */
  predicate CitedBy(v: Visit, p: (Id, string)) {
    exists c, x :: c in v.finding.claims && ClaimOk(c, v.finding.silo, v.seen, v.looked)
                   && x in c.citations && p == (x.nodeId, x.kind)
  }

  lemma CitedBySurvivor(v: Visit, p: (Id, string))
    ensures Cited(ClaimsOf(v), p) <==> CitedBy(v, p)
  {
    forall c ensures c in ClaimsOf(v) <==> c in v.finding.claims && ClaimOk(c, v.finding.silo, v.seen, v.looked) {
      SurvivorsAreCitable(v.finding.claims, v.finding.silo, v.seen, v.looked, c);
      ClaimVerdictMeaning(c, v.finding.silo, v.seen, v.looked);
      VerdictMeaning(CitationIds(c), v.finding.silo, v.seen, v.looked);
    }
  }

  /**
   * The edge is one the visit writes: it leaves the visit's finding, a claim that survived cites the node, so
   * the visit saw it and found it in that finding's silo, and it still was there when writing.
   */
  ghost predicate CiteOf(s: Store, v: Visit, e: Cite) {
    var t := Target(v.finding.scope, v.finding.silo);
    && t in s.findings && s.findings[t].id == e.findingId && t.silo == e.silo
    && CitedBy(v, (e.nodeId, e.kind)) && e.nodeId in v.atWrite && v.atWrite[e.nodeId] == t.silo
  }

  /** A visit that wrote accounts for it. */
  ghost predicate Accounts(s: Store, v: Visit, e: Cite) { Writes(v) && CiteOf(s, v, e) }

  /** The visit writes its finding. */
  predicate Writes(v: Visit) { WritesTo(v, Target(v.finding.scope, v.finding.silo)) }

  lemma CitesOfCommit(rules: Rules, s: Store, v: Visit, e: Cite)
    ensures e in Committed(rules, s, v).cites <==> e in s.cites || CiteOf(Committed(rules, s, v), v, e)
  {
    PairsMeaning(ClaimsOf(v));
    CitedBySurvivor(v, (e.nodeId, e.kind));
    var id := Upserted(PriorOf(s, TargetOf(v.finding)), BodyOf(rules, v), v.freshId).id;
    var added := CitesFor(id, v.finding.silo, Pairs(ClaimsOf(v)), v.atWrite);
    assert e in added <==> (e.nodeId, e.kind) in Pairs(ClaimsOf(v)) && e.nodeId in v.atWrite
                           && v.atWrite[e.nodeId] == v.finding.silo && e.findingId == id && e.silo == v.finding.silo;
  }

  /** What one visit adds to the edges. */
  lemma CitesOfVisit(rules: Rules, s: Store, v: Visit, e: Cite)
    ensures e in Write(rules, s, v).cites <==> e in s.cites || Accounts(Write(rules, s, v), v, e)
  {
    WritesToMeaning(v, Target(v.finding.scope, v.finding.silo));
    CitesOfCommit(rules, s, v, e);
  }

  /** A cited node was seen, and belonged to the finding's silo when the citation was validated. */
  lemma CitedWasSeen(v: Visit, p: (Id, string))
    requires CitedBy(v, p)
    ensures p.0 in v.seen && p.0 in v.looked && v.looked[p.0] == v.finding.silo
  {}

  /** A finding keeps its id through every visit. */
  lemma IdsStay(rules: Rules, s: Store, v: Visit, t: Target)
    requires t in s.findings
    ensures t in Write(rules, s, v).findings && Write(rules, s, v).findings[t].id == s.findings[t].id
  {}

  lemma AccountsStay(rules: Rules, s: Store, v: Visit, w: Visit, e: Cite)
    requires Target(v.finding.scope, v.finding.silo) in s.findings
    ensures Accounts(Write(rules, s, w), v, e) <==> Accounts(s, v, e)
  {
    IdsStay(rules, s, w, Target(v.finding.scope, v.finding.silo));
  }

  lemma WrittenIsStored(rules: Rules, visits: seq<Visit>, i: nat)
    requires i < |visits| && WritesTo(visits[i], Target(visits[i].finding.scope, visits[i].finding.silo))
    ensures Target(visits[i].finding.scope, visits[i].finding.silo) in Run(rules, EMPTY, visits).findings
  {
    var t := Target(visits[i].finding.scope, visits[i].finding.silo);
    VersionsAndHistory(rules, visits, t);
    assert WriterMarks(visits, t)[i];
    CountGrows(WriterMarks(visits, t), i, |visits|);
  }

  ghost predicate Accounted(s: Store, visits: seq<Visit>, e: Cite) {
    exists i :: 0 <= i < |visits| && Accounts(s, visits[i], e)
  }

  lemma AccountedNext(s: Store, r: Store, before: seq<Visit>, v: Visit, e: Cite)
    requires forall i :: 0 <= i < |before| ==> (Accounts(r, before[i], e) <==> Accounts(s, before[i], e))
    ensures Accounted(r, before + [v], e) <==> Accounted(s, before, e) || Accounts(r, v, e)
  {
    var visits := before + [v];
    if Accounted(s, before, e) {
      var i :| 0 <= i < |before| && Accounts(s, before[i], e);
      assert Accounts(r, visits[i], e);
    }
    if Accounts(r, v, e) {
      assert Accounts(r, visits[|before|], e);
    }
    if Accounted(r, visits, e) {
      var i :| 0 <= i < |visits| && Accounts(r, visits[i], e);
      if i < |before| { assert Accounts(s, before[i], e); }
    }
  }

  lemma EarlierAccountsStay(rules: Rules, before: seq<Visit>, v: Visit, e: Cite, i: nat)
    requires i < |before|
    ensures var s := Run(rules, EMPTY, before);
            Accounts(Write(rules, s, v), before[i], e) <==> Accounts(s, before[i], e)
  {
    if WritesTo(before[i], Target(before[i].finding.scope, before[i].finding.silo)) {
      WrittenIsStored(rules, before, i);
      AccountsStay(rules, Run(rules, EMPTY, before), before[i], v, e);
    }
  }

  /** A CITES edge is there exactly when some visit accounts for it. */
  lemma {:induction false} CitesAreSound(rules: Rules, visits: seq<Visit>, e: Cite)
    ensures e in Run(rules, EMPTY, visits).cites <==> Accounted(Run(rules, EMPTY, visits), visits, e)
  {
    if visits == [] {
    } else {
      var before, v := visits[..|visits| - 1], visits[|visits| - 1];
      var s := Run(rules, EMPTY, before);
      CitesAreSound(rules, before, e);
      CitesOfVisit(rules, s, v, e);
      forall i | 0 <= i < |before| ensures Accounts(Write(rules, s, v), before[i], e) <==> Accounts(s, before[i], e) {
        EarlierAccountsStay(rules, before, v, e, i);
      }
      AccountedNext(s, Write(rules, s, v), before, v, e);
      assert visits == before + [v];
    }
  }

  ghost predicate FreshIdsDiffer(visits: seq<Visit>) {
    forall i, j :: 0 <= i < j < |visits| ==> visits[i].freshId != visits[j].freshId
  }

  lemma {:induction false} IdsWereFresh(rules: Rules, visits: seq<Visit>, t: Target)
    requires t in Run(rules, EMPTY, visits).findings
    ensures exists i :: 0 <= i < |visits| && Run(rules, EMPTY, visits).findings[t].id == visits[i].freshId
  {
    var before, n := visits[..|visits| - 1], |visits| - 1;
    if t in Run(rules, EMPTY, before).findings {
      IdsWereFresh(rules, before, t);
      var i :| 0 <= i < n && Run(rules, EMPTY, before).findings[t].id == before[i].freshId;
      IdsStay(rules, Run(rules, EMPTY, before), visits[n], t);
      assert Run(rules, EMPTY, visits).findings[t].id == visits[i].freshId;
    } else {
      assert Run(rules, EMPTY, visits).findings[t].id == visits[n].freshId;
    }
  }

  /** So an edge's finding id names one finding: no two scopes ever share an id. */
  lemma {:induction false} FindingIdsUnique(rules: Rules, visits: seq<Visit>, t: Target, u: Target)
    requires FreshIdsDiffer(visits)
    requires var f := Run(rules, EMPTY, visits).findings; t in f && u in f && f[t].id == f[u].id
    ensures t == u
  {
    var before, n := visits[..|visits| - 1], |visits| - 1;
    var f := Run(rules, EMPTY, before).findings;
    if t in f { IdsWereFresh(rules, before, t); IdsStay(rules, Run(rules, EMPTY, before), visits[n], t); }
    if u in f { IdsWereFresh(rules, before, u); IdsStay(rules, Run(rules, EMPTY, before), visits[n], u); }
    if t in f && u in f {
      FindingIdsUnique(rules, before, t, u);
    }
  }

  // ------------------------------------------------------- proposed edges

  predicate Names(e: Edge, key: EdgeKey) { e.source == key.source && e.target == key.target && e.kind == key.kind }

  /** The first edge of the list that is proposed under this key. */
  ghost predicate FirstNamed(edges: seq<Edge>, key: EdgeKey, i: nat) {
    i < |edges| && Names(edges[i], key) && forall j :: 0 <= j < i ==> !Names(edges[j], key)
  }

  ghost predicate SomeNamed(edges: seq<Edge>, key: EdgeKey) { exists i :: 0 <= i < |edges| && Names(edges[i], key) }

  /** One row of a merge, for one key: as it was, or the first edge of this pass that names it. */
  ghost predicate RowMerged(m: map<EdgeKey, Edge>, edges: seq<Edge>, passId: string, key: EdgeKey,
                            r: map<EdgeKey, Edge>) {
    && (key in m ==> key in r && r[key] == m[key])
    && (key !in m ==> (key in r <==> key.passId == passId && SomeNamed(edges, key)))
    && (key !in m && key in r ==> exists i :: 0 <= i < |edges| && FirstNamed(edges, key, i) && r[key] == edges[i])
  }

  lemma NamedNext(init: seq<Edge>, e: Edge, key: EdgeKey)
    ensures SomeNamed(init + [e], key) <==> SomeNamed(init, key) || Names(e, key)
    ensures forall i: nat :: i < |init| ==> (FirstNamed(init + [e], key, i) <==> FirstNamed(init, key, i))
    ensures Names(e, key) && !SomeNamed(init, key) ==> FirstNamed(init + [e], key, |init|)
  {
    var edges := init + [e];
    assert edges[|init|] == e && forall i :: 0 <= i < |init| ==> edges[i] == init[i];
    if SomeNamed(init, key) {
      var i :| 0 <= i < |init| && Names(init[i], key);
      assert Names(edges[i], key);
    }
  }

  lemma RowMergedNext(m: map<EdgeKey, Edge>, init: seq<Edge>, e: Edge, passId: string, key: EdgeKey,
                      before: map<EdgeKey, Edge>)
    requires RowMerged(m, init, passId, key, before)
    ensures var own := EdgeKey(e.source, e.target, e.kind, passId);
            RowMerged(m, init + [e], passId, key, if own in before then before else before[own := e])
  {
    NamedNext(init, e, key);
    var own, edges := EdgeKey(e.source, e.target, e.kind, passId), init + [e];
    var r := if own in before then before else before[own := e];
    if key !in m && key in before {
      var i :| 0 <= i < |init| && FirstNamed(init, key, i) && before[key] == init[i];
      assert FirstNamed(edges, key, i) && r[key] == edges[i];
    } else if key !in m && key in r {
      assert key == own && FirstNamed(edges, key, |init|) && r[key] == edges[|init|];
    }
  }

  /** What merging leaves: old rows as they were, and for each new key of this pass the first edge that names it. */
  lemma {:induction false} MergedProposals(m: map<EdgeKey, Edge>, edges: seq<Edge>, passId: string, key: EdgeKey)
    ensures RowMerged(m, edges, passId, key, MergeProposed(m, edges, passId))
  {
    if edges == [] {
    } else {
      var init, e := edges[..|edges| - 1], edges[|edges| - 1];
      MergedProposals(m, init, passId, key);
      RowMergedNext(m, init, e, passId, key, MergeProposed(m, init, passId));
      assert edges == init + [e];
    }
  }

  /** The visit proposes an acceptable edge under this key. */
  predicate Proposes(rules: Rules, v: Visit, key: EdgeKey) {
    && v.passId == key.passId
    && exists e :: e in v.finding.edges && Names(e, key) && EdgeOk(rules, e, v.finding.silo, v.seen, v.looked)
  }

  /** `i` is the first acceptable edge the visit proposes under this key. */
  ghost predicate FirstProposed(rules: Rules, v: Visit, key: EdgeKey, i: nat) {
    var f := v.finding;
    && i < |f.edges| && Names(f.edges[i], key) && EdgeOk(rules, f.edges[i], f.silo, v.seen, v.looked)
    && forall j :: 0 <= j < i ==> !(Names(f.edges[j], key) && EdgeOk(rules, f.edges[j], f.silo, v.seen, v.looked))
  }

  lemma FirstSurvivorIsFirst(rules: Rules, v: Visit, key: EdgeKey, k: nat) returns (i: nat)
    requires FirstNamed(EdgesOf(rules, v), key, k)
    ensures FirstProposed(rules, v, key, i) && v.finding.edges[i] == EdgesOf(rules, v)[k]
  {
    var f, kept := v.finding, EdgesOf(rules, v);
    SurvivingEdgesKept(rules, f.edges, f.silo, v.seen, v.looked);
    var marks := EdgeMarks(rules, f.edges, f.silo, v.seen, v.looked);
    i := Locate(marks, |f.edges|, k);
    forall j | 0 <= j < i ensures !(Names(f.edges[j], key) && EdgeOk(rules, f.edges[j], f.silo, v.seen, v.looked)) {
      if marks[j] {
        CountGrows(marks, j, i);
        assert kept[Count(marks, j)] == f.edges[j];
      }
    }
  }

  /** What a committed visit does to the proposals, for each key. */
  ghost predicate ProposalsMerged(rules: Rules, m: map<EdgeKey, Edge>, v: Visit, r: map<EdgeKey, Edge>) {
    forall key ::
      && (key in m ==> key in r && r[key] == m[key])
      && (key !in m ==> (key in r <==> Proposes(rules, v, key)))
      && (key !in m && key in r ==> exists i :: 0 <= i < |v.finding.edges| && FirstProposed(rules, v, key, i)
                                                && r[key] == v.finding.edges[i])
  }

  lemma VisitProposals(rules: Rules, m: map<EdgeKey, Edge>, v: Visit)
    ensures ProposalsMerged(rules, m, v, MergeProposed(m, EdgesOf(rules, v), v.passId))
  {
    var r, f, kept := MergeProposed(m, EdgesOf(rules, v), v.passId), v.finding, EdgesOf(rules, v);
    forall key
      ensures key in m ==> key in r && r[key] == m[key]
      ensures key !in m ==> (key in r <==> Proposes(rules, v, key))
      ensures key !in m && key in r ==> exists i :: 0 <= i < |f.edges| && FirstProposed(rules, v, key, i)
                                                   && r[key] == f.edges[i]
    {
      MergedProposals(m, kept, v.passId, key);
      forall e ensures e in kept <==> e in f.edges && EdgeOk(rules, e, f.silo, v.seen, v.looked) {
        SurvivingEdgesAreCitable(rules, f.edges, f.silo, v.seen, v.looked, e);
      }
      assert SomeNamed(kept, key) <==> exists e :: e in kept && Names(e, key) by {
        if e :| e in kept && Names(e, key) {
          var k :| 0 <= k < |kept| && kept[k] == e;
        }
        assert forall k :: 0 <= k < |kept| ==> kept[k] in kept;
      }
      if key !in m && key in r {
        var k :| 0 <= k < |kept| && FirstNamed(kept, key, k) && r[key] == kept[k];
        var i := FirstSurvivorIsFirst(rules, v, key, k);
        assert FirstProposed(rules, v, key, i) && r[key] == f.edges[i];
      }
    }
  }

  ghost predicate ProposedBy(rules: Rules, visits: seq<Visit>, key: EdgeKey) {
    exists i :: 0 <= i < |visits| && Writes(visits[i]) && Proposes(rules, visits[i], key)
  }

  /** A proposal is stored exactly when a visit of its pass that wrote had an acceptable edge of that key. */
  lemma {:induction false} ProposedExactly(rules: Rules, visits: seq<Visit>, key: EdgeKey)
    ensures key in Run(rules, EMPTY, visits).proposed <==> ProposedBy(rules, visits, key)
  {
    if visits == [] {
    } else {
      var before, v := visits[..|visits| - 1], visits[|visits| - 1];
      var s := Run(rules, EMPTY, before);
      ProposedExactly(rules, before, key);
      WritesToMeaning(v, Target(v.finding.scope, v.finding.silo));
      VisitProposals(rules, s.proposed, v);
      assert visits == before + [v];
      ProposedByNext(rules, before, v, key);
    }
  }

  lemma ProposedByNext(rules: Rules, before: seq<Visit>, v: Visit, key: EdgeKey)
    ensures ProposedBy(rules, before + [v], key) <==>
            ProposedBy(rules, before, key) || (Writes(v) && Proposes(rules, v, key))
  {
    var visits := before + [v];
    if ProposedBy(rules, before, key) {
      var i :| 0 <= i < |before| && Writes(before[i]) && Proposes(rules, before[i], key);
      assert visits[i] == before[i];
    }
    assert visits[|before|] == v;
  }

  // --------------------------------------------------------------- clusters

  predicate Claims(v: Visit, p: (string, string)) {
    Writes(v) && v.finding.scope == Cluster(p.1) && v.passId == p.0
  }

  ghost predicate ClaimedBy(visits: seq<Visit>, p: (string, string)) {
    exists i :: 0 <= i < |visits| && Claims(visits[i], p)
  }

  lemma ClaimedByNext(before: seq<Visit>, v: Visit, p: (string, string))
    ensures ClaimedBy(before + [v], p) <==> ClaimedBy(before, p) || Claims(v, p)
  {
    var visits := before + [v];
    if ClaimedBy(before, p) {
      var i :| 0 <= i < |before| && Claims(before[i], p);
      assert visits[i] == before[i];
    }
    assert visits[|before|] == v;
  }

  /** A pass claims a cluster exactly when a visit of that pass wrote the cluster's finding. */
  lemma {:induction false} ClaimedExactly(rules: Rules, s: Store, visits: seq<Visit>, p: (string, string))
    ensures p in Run(rules, s, visits).claimed <==> p in s.claimed || ClaimedBy(visits, p)
  {
    if visits == [] {
    } else {
      var before, v := visits[..|visits| - 1], visits[|visits| - 1];
      ClaimedExactly(rules, s, before, p);
      WritesToMeaning(v, Target(v.finding.scope, v.finding.silo));
      ClaimedByNext(before, v, p);
      assert visits == before + [v];
    }
  }

  lemma {:induction false} LastPassKept(rules: Rules, s: Store, visits: seq<Visit>, t: Target, from: nat, n: nat)
    requires from <= n <= |visits| && t.scope.Cluster?
    requires forall j :: from <= j < n ==> !WritesTo(visits[j], t)
    ensures var a, b := Run(rules, s, visits[..from]), Run(rules, s, visits[..n]);
            (t in b.lastPass <==> t in a.lastPass) && (t in a.lastPass ==> b.lastPass[t] == a.lastPass[t])
  {
    if n > from {
      LastPassKept(rules, s, visits, t, from, n - 1);
      RunNext(rules, s, visits, n);
      LastPassStep(rules, Run(rules, s, visits[..n - 1]), visits[n - 1], t);
    }
  }

  lemma {:induction false} ClustersStay(rules: Rules, s: Store, visits: seq<Visit>, t: Target, n: nat)
    requires n <= |visits| && t.scope.Cluster?
    ensures t in Run(rules, s, visits[..n]).lastPass <==> t in s.lastPass
  {
    if n > 0 {
      ClustersStay(rules, s, visits, t, n - 1);
      RunNext(rules, s, visits, n);
      LastPassStep(rules, Run(rules, s, visits[..n - 1]), visits[n - 1], t);
    }
  }

  /** Each cluster there is remembers the pass of the last visit that wrote its finding. */
  lemma LastPassOfClusters(rules: Rules, s: Store, visits: seq<Visit>, t: Target, i: nat)
    requires t.scope.Cluster? && t in s.lastPass && i < |visits| && WritesTo(visits[i], t)
    requires forall j :: i < j < |visits| ==> !WritesTo(visits[j], t)
    ensures t in Run(rules, s, visits).lastPass && Run(rules, s, visits).lastPass[t] == visits[i].passId
  {
    ClustersStay(rules, s, visits, t, i);
    RunNext(rules, s, visits, i + 1);
    LastPassStep(rules, Run(rules, s, visits[..i]), visits[i], t);
    LastPassKept(rules, s, visits, t, i + 1, |visits|);
    assert visits[..|visits|] == visits;
  }

  lemma RunNext(rules: Rules, s: Store, visits: seq<Visit>, n: nat)
    requires 0 < n <= |visits|
    ensures Run(rules, s, visits[..n]) == Write(rules, Run(rules, s, visits[..n - 1]), visits[n - 1])
  {
    assert visits[..n][..n - 1] == visits[..n - 1];
  }

  lemma LastPassStep(rules: Rules, s: Store, v: Visit, t: Target)
    requires t.scope.Cluster?
    ensures var r := Write(rules, s, v);
            && (t in r.lastPass <==> t in s.lastPass)
            && (t in s.lastPass ==> r.lastPass[t] == if WritesTo(v, t) then v.passId else s.lastPass[t])
  {
    WritesToMeaning(v, t);
  }

  // --------------------------------------------------------------- one visit

  /** Everything a visit's transaction does to the store. */
  ghost predicate WriteEffect(rules: Rules, s: Store, v: Visit, r: Store) {
    var t := Target(v.finding.scope, v.finding.silo);
    && r.findings.Keys == s.findings.Keys + {t} && r.findings - {t} == s.findings - {t}
    && Stored(rules, r.findings[t].body, v)
    && (t in s.findings ==> r.findings[t].id == s.findings[t].id && r.findings[t].version == s.findings[t].version + 1)
    && (t !in s.findings ==> r.findings[t].id == v.freshId && r.findings[t].version == 1)
    && ProposalsMerged(rules, s.proposed, v, r.proposed)
    && r.lastPass == (if t.scope.Cluster? && t in s.lastPass then s.lastPass[t := v.passId] else s.lastPass)
    && r.claimed == s.claimed + (if t.scope.Cluster? then {(v.passId, t.scope.id)} else {})
    && (forall e :: e in r.cites <==> e in s.cites || CiteOf(r, v, e))
  }

  lemma CommitHasEffect(rules: Rules, s: Store, v: Visit)
    ensures WriteEffect(rules, s, v, Committed(rules, s, v))
  {
    var r := Committed(rules, s, v);
    BodyIsStored(rules, v);
    VisitProposals(rules, s.proposed, v);
    forall e ensures e in r.cites <==> e in s.cites || CiteOf(r, v, e) {
      CitesOfCommit(rules, s, v, e);
    }
  }

  /** A visit does all of that or nothing. */
  lemma VisitEffect(rules: Rules, s: Store, v: Visit)
    ensures if Writes(v) then WriteEffect(rules, s, v, Write(rules, s, v)) else Write(rules, s, v) == s
  {
    WritesToMeaning(v, Target(v.finding.scope, v.finding.silo));
    CommitHasEffect(rules, s, v);
  }

  /** A visit all of whose claims are rejected writes nothing exactly when it is cluster-scoped. */
  lemma RejectedVisitSkipped(rules: Rules, s: Store, v: Visit)
    requires ClaimsOf(v) == [] && v.commits
    ensures Write(rules, s, v) == s <==> v.finding.scope != Silo
    ensures v.finding.scope == Silo ==>
              var t := TargetOf(v.finding);
              t in Write(rules, s, v).findings
              && Write(rules, s, v).findings[t].version == (if t in s.findings then s.findings[t].version + 1 else 1)
              && Write(rules, s, v).findings[t].body.claims == []
  {
    var t := TargetOf(v.finding);
    if v.finding.scope == Silo && t in s.findings {
      assert Write(rules, s, v).findings[t].version != s.findings[t].version;
    }
  }

  /** Such a silo-scoped visit: one claim, citing a node it never saw. */
  lemma RejectedSiloVisitWrites(rules: Rules) returns (v: Visit)
    ensures |v.finding.claims| == 1 && ClaimsOf(v) == [] && v.commits && v.finding.scope == Silo
    ensures TargetOf(v.finding) in Write(rules, EMPTY, v).findings
  {
    var claim := Claim("", [Citation("n", "primary")]);
    v := Visit(Finding(Silo, "s", [claim], [], ""), "p", {}, "f", map[], map[], true);
    assert CitationIds(claim)[0] == "n" && "n" in CitationIds(claim);
    VerdictMeaning(CitationIds(claim), "s", {}, map[]);
    assert [claim][..0] == [] && SurvivingClaims([], "s", {}, map[]) == [];
    RejectedVisitSkipped(rules, EMPTY, v);
  }

  // ---------------------------------------------------------------- the class

  datatype VisitResult = VisitResult(
    findingId: string, version: nat, claimsCommitted: nat, claimsRejected: nat, edgesCommitted: nat,
    edgesRejected: nat, references: nat, historyCreated: bool, skipped: bool)

  class WritePath {
    const validator: CitationValidator
    var store: Store

    constructor (validator: CitationValidator, store: Store)
      ensures this.validator == validator && this.store == store
    {
      this.validator, this.store := validator, store;
    }

    static method CitesBatch(claims: seq<Claim>) returns (batch: seq<(Id, string)>)
      ensures batch == Pairs(claims)
    {
      batch := [];
      var citedPairs := {};
      for i := 0 to |claims|
        invariant batch == Pairs(claims[..i]) && citedPairs == set p | p in batch
      {
        assert claims[..i + 1][..i] == claims[..i];
        var citations := claims[i].citations;
        for j := 0 to |citations|
          invariant batch == AddPairs(Pairs(claims[..i]), citations[..j]) && citedPairs == set p | p in batch
        {
          assert citations[..j + 1][..j] == citations[..j];
          var pair := (citations[j].nodeId, citations[j].kind);
          if pair !in citedPairs {
            citedPairs, batch := citedPairs + {pair}, batch + [pair];
          }
        }
        assert citations[..|citations|] == citations;
      }
      assert claims[..|claims|] == claims;
    }

    static method MergeEdgeBatch(proposed: map<EdgeKey, Edge>, edges: seq<Edge>, passId: string)
      returns (m: map<EdgeKey, Edge>)
      ensures m == MergeProposed(proposed, edges, passId)
    {
      m := proposed;
      for i := 0 to |edges|
        invariant m == MergeProposed(proposed, edges[..i], passId)
      {
        assert edges[..i + 1][..i] == edges[..i];
        var key := EdgeKey(edges[i].source, edges[i].target, edges[i].kind, passId);
        if key !in m {
          m := m[key := edges[i]];
        }
      }
      assert edges[..|edges|] == edges;
    }

    /** None when the transaction aborts; nothing of it remains then. */
    method WriteVisit(v: Visit) returns (r: Option<VisitResult>)
      modifies this, validator
      ensures store == Write(validator.rules, old(store), v)
      ensures if Writes(v) then WriteEffect(validator.rules, old(store), v, store) else store == old(store)
      ensures r.None? <==> !Skipped(v) && !v.commits
      ensures r.Some? && r.value.skipped <==> Skipped(v)
      ensures Written(v) ==> r.Some? && r.value.claimsCommitted == |ClaimsOf(v)|
                             && r.value.edgesCommitted == |EdgesOf(validator.rules, v)|
                             && r.value.claimsCommitted + r.value.claimsRejected == |v.finding.claims|
                             && r.value.edgesCommitted + r.value.edgesRejected == |v.finding.edges|
      ensures Skipped(v) ==> r.Some? && r.value.claimsRejected == |v.finding.claims| && r.value.findingId == ""
                             && r.value.version == 0 && store == old(store)
      ensures Written(v) ==>
                var t := TargetOf(v.finding);
                && r.Some? && t in store.findings && r.value.findingId == store.findings[t].id
                && r.value.version == store.findings[t].version
                && (r.value.historyCreated <==> t in old(store).findings)
                && r.value.references == |Pairs(ClaimsOf(v))|
    {
      VisitEffect(validator.rules, store, v);
      var claims, edges, claimsRejected, edgesRejected, accepted :=
        validator.RunValidation(v.finding, v.seen, v.looked);
      if !accepted {
        return Some(VisitResult("", 0, 0, claimsRejected, 0, edgesRejected, 0, false, true));
      }
      var tx, node, references := Transact(v, claims, edges);
      if !v.commits {
        return None;
      }
      var historyCreated := TargetOf(v.finding) in store.findings;
      store := tx;
      return Some(VisitResult(node.id, node.version, |claims|, claimsRejected, |edges|, edgesRejected,
                              references, historyCreated, false));
    }

    /** The writes of the transaction, in order, on a copy that becomes visible only when it commits. */
    method Transact(v: Visit, claims: seq<Claim>, edges: seq<Edge>)
      returns (tx: Store, node: FindingNode, references: nat)
      requires claims == ClaimsOf(v) && edges == EdgesOf(validator.rules, v)
      ensures tx == Committed(validator.rules, store, v) && WriteEffect(validator.rules, store, v, tx)
      ensures node == Upserted(PriorOf(store, TargetOf(v.finding)), BodyOf(validator.rules, v), v.freshId)
      ensures references == |Pairs(claims)|
    {
      CommitHasEffect(validator.rules, store, v);
      var t := TargetOf(v.finding);
      tx := store;
      node := UpsertFinding(PriorOf(tx, t), Body(v.passId, v.finding.summary, claims, edges), v.freshId);
      tx := tx.(findings := tx.findings[t := node]);
      var batch := CitesBatch(claims);
      references := |batch|;
      tx := tx.(cites := tx.cites + CitesFor(node.id, t.silo, batch, v.atWrite));
      var proposed := MergeEdgeBatch(tx.proposed, edges, v.passId);
      tx := tx.(proposed := proposed);
      if t.scope.Cluster? {
        if t in tx.lastPass {
          tx := tx.(lastPass := tx.lastPass[t := v.passId]);
        }
        tx := tx.(claimed := tx.claimed + {(v.passId, t.scope.id)});
      }
    }

    /** Snapshot the prior body, overwrite it, trim the history. */
    static method UpsertFinding(prior: Option<FindingNode>, body: Body, freshId: string) returns (node: FindingNode)
      ensures node == Upserted(prior, body, freshId)
    {
      if prior.Some? {
        var history := prior.value.history + [SnapshotOf(prior.value.body, body.passId)];
        node := FindingNode(prior.value.id, prior.value.version + 1, body, history);
        if |history| > HISTORY_KEEP_COUNT {
          node := node.(history := history[|history| - HISTORY_KEEP_COUNT..]);
        }
      } else {
        node := FindingNode(freshId, 1, body, []);
      }
    }
  }
}
