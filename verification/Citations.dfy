/**
 * Citation validation: a batched validator that must agree with validating items one at a time.
 *
 * `Graph` maps each content node to its silo. What a list of ids deserves is `Verdict`, a function of
 * the graph itself; both ways of looking nodes up are proved to compute it.
 */
module Citations {
  import opened Prelude

  type Id = string

  type Graph = map<Id, string>

  datatype Citation = Citation(nodeId: Id, kind: string)

  datatype Claim = Claim(text: string, citations: seq<Citation>)

  datatype Edge = Edge(source: Id, target: Id, kind: string, sourceType: string, targetType: string,
                       supporting: seq<Id>, confidence: real)

  datatype Scope = Cluster(id: string) | Silo

  datatype Finding = Finding(scope: Scope, silo: string, claims: seq<Claim>, edges: seq<Edge>, summary: string)

  datatype Reason = Hallucinated | InvalidCitation | CrossSilo | LowConfidence | SchemaViolation

  datatype Result = Result(accepted: bool, reason: Option<Reason>, offenders: seq<Id>)

  const ACCEPTED := Result(true, None, [])

  /** The closed extraction schema and the confidence floor. */
  datatype Rules = Rules(minConfidence: real, valid: (string, string, string) -> bool)

  // --------------------------------------------------------------- verdicts

  /** What is wrong with one id; the checks in order of priority. */
  function Fault(id: Id, silo: string, seen: set<Id>, graph: Graph): Option<Reason> {
    if id !in seen then Some(Hallucinated)
    else if id !in graph then Some(InvalidCitation)
    else if graph[id] != silo then Some(CrossSilo)
    else None
  }

  /** The ids with one fault, in order, repetitions kept. */
  function With(ids: seq<Id>, silo: string, seen: set<Id>, graph: Graph, reason: Reason): seq<Id> {
    WithFirst(ids, |ids|, silo, seen, graph, reason)
  }

  function WithFirst(ids: seq<Id>, n: nat, silo: string, seen: set<Id>, graph: Graph, reason: Reason): seq<Id>
    requires n <= |ids|
  {
    if n == 0 then []
    else
      WithFirst(ids, n - 1, silo, seen, graph, reason)
      + if Fault(ids[n - 1], silo, seen, graph) == Some(reason) then [ids[n - 1]] else []
  }

  /** First occurrences only. */
  function Dedup(ids: seq<Id>): seq<Id> {
    if ids == [] then []
    else
      var d, last := Dedup(ids[..|ids| - 1]), ids[|ids| - 1];
      if last in d then d else d + [last]
  }

  function Verdict(ids: seq<Id>, silo: string, seen: set<Id>, graph: Graph): Result {
    var h, m, x := With(ids, silo, seen, graph, Hallucinated), With(ids, silo, seen, graph, InvalidCitation),
                   With(ids, silo, seen, graph, CrossSilo);
    if h + m + x == [] then ACCEPTED
    else Result(false, Some(if h != [] then Hallucinated else if m != [] then InvalidCitation else CrossSilo),
                Dedup(h + m + x))
  }

  function CitationIds(c: Claim): seq<Id> {
    seq(|c.citations|, i requires 0 <= i < |c.citations| => c.citations[i].nodeId)
  }

  function EdgeIds(e: Edge): seq<Id> { Dedup([e.source, e.target] + e.supporting) }

  function PreCheck(rules: Rules, e: Edge): Option<Result> {
    if e.confidence < rules.minConfidence then Some(Result(false, Some(LowConfidence), []))
    else if !rules.valid(e.sourceType, e.kind, e.targetType) then Some(Result(false, Some(SchemaViolation), []))
    else None
  }

  function ClaimVerdict(c: Claim, silo: string, seen: set<Id>, graph: Graph): Result {
    Verdict(CitationIds(c), silo, seen, graph)
  }

  function EdgeVerdict(rules: Rules, e: Edge, silo: string, seen: set<Id>, graph: Graph): Result {
    PreCheck(rules, e).GetOr(Verdict(EdgeIds(e), silo, seen, graph))
  }

  /** Item by item: what the one-at-a-time validator returns for each. */
  function ClaimVerdicts(claims: seq<Claim>, silo: string, seen: set<Id>, graph: Graph): seq<Result> {
    seq(|claims|, i requires 0 <= i < |claims| => ClaimVerdict(claims[i], silo, seen, graph))
  }

  function EdgeVerdicts(rules: Rules, edges: seq<Edge>, silo: string, seen: set<Id>, graph: Graph): seq<Result> {
    seq(|edges|, i requires 0 <= i < |edges| => EdgeVerdict(rules, edges[i], silo, seen, graph))
  }

  lemma ClaimVerdictsNext(claims: seq<Claim>, i: nat, silo: string, seen: set<Id>, graph: Graph)
    requires i < |claims|
    ensures ClaimVerdicts(claims[..i + 1], silo, seen, graph) ==
            ClaimVerdicts(claims[..i], silo, seen, graph) + [ClaimVerdict(claims[i], silo, seen, graph)]
  {}

  lemma EdgeVerdictsNext(rules: Rules, edges: seq<Edge>, i: nat, silo: string, seen: set<Id>, graph: Graph)
    requires i < |edges|
    ensures EdgeVerdicts(rules, edges[..i + 1], silo, seen, graph) ==
            EdgeVerdicts(rules, edges[..i], silo, seen, graph) + [EdgeVerdict(rules, edges[i], silo, seen, graph)]
  {}

  lemma {:induction false} DedupMeaning(ids: seq<Id>)
    ensures Distinct(Dedup(ids)) && forall id :: id in Dedup(ids) <==> id in ids
  {
    if ids == [] {
    } else {
      DedupMeaning(ids[..|ids| - 1]);
      assert ids == ids[..|ids| - 1] + [ids[|ids| - 1]];
    }
  }

  lemma {:induction false} WithFirstMeaning(ids: seq<Id>, n: nat, silo: string, seen: set<Id>, graph: Graph,
                                            reason: Reason)
    requires n <= |ids|
    ensures forall id :: id in WithFirst(ids, n, silo, seen, graph, reason) <==>
                         id in ids[..n] && Fault(id, silo, seen, graph) == Some(reason)
  {
    if n > 0 {
      WithFirstMeaning(ids, n - 1, silo, seen, graph, reason);
      assert ids[..n] == ids[..n - 1] + [ids[n - 1]];
    }
  }

  lemma WithMeaning(ids: seq<Id>, silo: string, seen: set<Id>, graph: Graph, reason: Reason)
    ensures forall id :: id in With(ids, silo, seen, graph, reason) <==>
                         id in ids && Fault(id, silo, seen, graph) == Some(reason)
  {
    WithFirstMeaning(ids, |ids|, silo, seen, graph, reason);
    assert ids[..|ids|] == ids;
  }

  function FirstMarks(ids: seq<Id>): seq<bool> { seq(|ids|, i requires 0 <= i < |ids| => ids[i] !in ids[..i]) }

  /** `all` is the first occurrences in `ids`, in order. */
  ghost predicate FirstOccurrences(ids: seq<Id>, all: seq<Id>) { Kept(ids, FirstMarks(ids), all) }

  lemma {:induction false} DedupIsFilter(ids: seq<Id>, marks: seq<bool>, n: nat)
    requires marks == FirstMarks(ids) && n <= |ids|
    ensures Dedup(ids[..n]) == Filter(ids, marks, n)
  {
    if n == 0 {
    } else {
      DedupIsFilter(ids, marks, n - 1);
      assert ids[..n][..n - 1] == ids[..n - 1];
      DedupMeaning(ids[..n - 1]);
    }
  }

  lemma DedupInOrder(ids: seq<Id>)
    ensures FirstOccurrences(ids, Dedup(ids))
  {
    DedupIsFilter(ids, FirstMarks(ids), |ids|);
    assert ids[..|ids|] == ids;
    FilterKeeps(ids, FirstMarks(ids));
  }

  predicate AnyWith(ids: seq<Id>, silo: string, seen: set<Id>, graph: Graph, reason: Reason) {
    exists id :: id in ids && Fault(id, silo, seen, graph) == Some(reason)
  }

  lemma WithEmpty(ids: seq<Id>, silo: string, seen: set<Id>, graph: Graph, reason: Reason)
    ensures With(ids, silo, seen, graph, reason) != [] <==> AnyWith(ids, silo, seen, graph, reason)
  {
    WithMeaning(ids, silo, seen, graph, reason);
    var w := With(ids, silo, seen, graph, reason);
    if w != [] { assert w[0] in w; }
  }

  /**
   * Accepted exactly when every id was seen, exists and shares the silo; otherwise the offenders are
   * exactly the failing ids, once each, and the reason is the highest-priority one among them.
   */
  lemma VerdictMeaning(ids: seq<Id>, silo: string, seen: set<Id>, graph: Graph)
    ensures var r := Verdict(ids, silo, seen, graph);
            && (r.accepted <==> forall id :: id in ids ==> id in seen && id in graph && graph[id] == silo)
            && Distinct(r.offenders)
            && (forall id :: id in r.offenders <==> id in ids && Fault(id, silo, seen, graph).Some?)
            && r.reason == if AnyWith(ids, silo, seen, graph, Hallucinated) then Some(Hallucinated)
                           else if AnyWith(ids, silo, seen, graph, InvalidCitation) then Some(InvalidCitation)
                           else if AnyWith(ids, silo, seen, graph, CrossSilo) then Some(CrossSilo) else None
  {
    var h, m, x := With(ids, silo, seen, graph, Hallucinated), With(ids, silo, seen, graph, InvalidCitation),
                   With(ids, silo, seen, graph, CrossSilo);
    WithMeaning(ids, silo, seen, graph, Hallucinated);
    WithMeaning(ids, silo, seen, graph, InvalidCitation);
    WithMeaning(ids, silo, seen, graph, CrossSilo);
    WithEmpty(ids, silo, seen, graph, Hallucinated);
    WithEmpty(ids, silo, seen, graph, InvalidCitation);
    WithEmpty(ids, silo, seen, graph, CrossSilo);
    DedupMeaning(h + m + x);
    assert forall id :: id in h + m + x <==> id in ids && Fault(id, silo, seen, graph).Some?;
    if h + m + x != [] { assert (h + m + x)[0] in h + m + x; }
  }

  predicate Citable(id: Id, silo: string, seen: set<Id>, graph: Graph) {
    id in seen && id in graph && graph[id] == silo
  }

  /** 0 for an id never seen, 1 for one that does not exist, 2 for one of another silo. */
  function Priority(id: Id, silo: string, seen: set<Id>, graph: Graph): nat {
    if id !in seen then 0 else if id !in graph then 1 else 2
  }

  /** Two kept ids, in the order of their first occurrences. */
  lemma DedupFrom(all: seq<Id>, i: nat, j: nat) returns (a: nat, b: nat)
    requires i < j < |Dedup(all)|
    ensures a < b < |all| && all[a] == Dedup(all)[i] && all[b] == Dedup(all)[j]
  {
    DedupInOrder(all);
    a, b := KeptPair(all, FirstMarks(all), Dedup(all), i, j);
  }

  lemma WithPriority(ids: seq<Id>, silo: string, seen: set<Id>, graph: Graph, i: nat)
    requires i < |With(ids, silo, seen, graph, Hallucinated)| + |With(ids, silo, seen, graph, InvalidCitation)|
                 + |With(ids, silo, seen, graph, CrossSilo)|
    ensures var h, m := With(ids, silo, seen, graph, Hallucinated), With(ids, silo, seen, graph, InvalidCitation);
            var x := With(ids, silo, seen, graph, CrossSilo);
            Priority((h + m + x)[i], silo, seen, graph) == if i < |h| then 0 else if i < |h| + |m| then 1 else 2
  {
    var h, m := With(ids, silo, seen, graph, Hallucinated), With(ids, silo, seen, graph, InvalidCitation);
    var x := With(ids, silo, seen, graph, CrossSilo);
    if i < |h| {
      WithMeaning(ids, silo, seen, graph, Hallucinated);
      assert h[i] in h;
    } else if i < |h| + |m| {
      WithMeaning(ids, silo, seen, graph, InvalidCitation);
      assert m[i - |h|] in m;
    } else {
      WithMeaning(ids, silo, seen, graph, CrossSilo);
      assert x[i - |h| - |m|] in x;
    }
  }

  /** Offenders come by priority: never seen, then missing, then of another silo. */
  lemma OffendersByPriority(ids: seq<Id>, silo: string, seen: set<Id>, graph: Graph, i: nat, j: nat)
    requires i < j < |Verdict(ids, silo, seen, graph).offenders|
    ensures var o := Verdict(ids, silo, seen, graph).offenders;
            Priority(o[i], silo, seen, graph) <= Priority(o[j], silo, seen, graph)
  {
    var h, m := With(ids, silo, seen, graph, Hallucinated), With(ids, silo, seen, graph, InvalidCitation);
    var x := With(ids, silo, seen, graph, CrossSilo);
    var a, b := DedupFrom(h + m + x, i, j);
    WithPriority(ids, silo, seen, graph, a);
    WithPriority(ids, silo, seen, graph, b);
  }

  /** An edge passes exactly when it is confident, in the schema, and every id it names is citable. */
  predicate EdgeOk(rules: Rules, e: Edge, silo: string, seen: set<Id>, graph: Graph) {
    && e.confidence >= rules.minConfidence && rules.valid(e.sourceType, e.kind, e.targetType)
    && forall id :: id in [e.source, e.target] + e.supporting ==> Citable(id, silo, seen, graph)
  }

  predicate ClaimOk(c: Claim, silo: string, seen: set<Id>, graph: Graph) {
    forall x :: x in c.citations ==> Citable(x.nodeId, silo, seen, graph)
  }

  /**
   * The edge's verdict: low confidence first, then the schema, both without offenders; then exactly the ids
   * that are not citable, once each.
   */
  lemma EdgeVerdictMeaning(rules: Rules, e: Edge, silo: string, seen: set<Id>, graph: Graph)
    ensures var r, named := EdgeVerdict(rules, e, silo, seen, graph), [e.source, e.target] + e.supporting;
            && (r.accepted <==> EdgeOk(rules, e, silo, seen, graph)) && (r.accepted <==> r.reason.None?)
            && (e.confidence < rules.minConfidence ==> r.reason == Some(LowConfidence) && r.offenders == [])
            && (e.confidence >= rules.minConfidence && !rules.valid(e.sourceType, e.kind, e.targetType) ==>
                  r.reason == Some(SchemaViolation) && r.offenders == [])
            && (e.confidence >= rules.minConfidence && rules.valid(e.sourceType, e.kind, e.targetType) ==>
                  && Distinct(r.offenders)
                  && (forall id :: id in r.offenders <==> id in named && !Citable(id, silo, seen, graph))
                  && (r.offenders != [] ==>
                        r.reason == Some(ReasonFor(Priority(r.offenders[0], silo, seen, graph)))))
  {
    var named := [e.source, e.target] + e.supporting;
    DedupMeaning(named);
    VerdictMeaning(EdgeIds(e), silo, seen, graph);
    FirstDecides(EdgeIds(e), silo, seen, graph);
  }

  function ReasonFor(priority: nat): Reason {
    if priority == 0 then Hallucinated else if priority == 1 then InvalidCitation else CrossSilo
  }

  /** The reason is the first offender's. */
  lemma FirstDecides(ids: seq<Id>, silo: string, seen: set<Id>, graph: Graph)
    ensures var r := Verdict(ids, silo, seen, graph);
            r.offenders != [] ==> r.reason == Some(ReasonFor(Priority(r.offenders[0], silo, seen, graph)))
  {
    VerdictMeaning(ids, silo, seen, graph);
    var r := Verdict(ids, silo, seen, graph);
    if r.offenders != [] {
      var first := r.offenders[0];
      assert first in r.offenders && first in ids;
      assert AnyWith(ids, silo, seen, graph, Fault(first, silo, seen, graph).value);
      forall id | id in ids && Fault(id, silo, seen, graph).Some?
        ensures Priority(first, silo, seen, graph) <= Priority(id, silo, seen, graph)
      {
        var j :| 0 <= j < |r.offenders| && r.offenders[j] == id;
        if j > 0 { OffendersByPriority(ids, silo, seen, graph, 0, j); }
      }
    }
  }

  lemma ClaimVerdictMeaning(c: Claim, silo: string, seen: set<Id>, graph: Graph)
    ensures ClaimVerdict(c, silo, seen, graph).accepted <==> ClaimOk(c, silo, seen, graph)
  {
    VerdictMeaning(CitationIds(c), silo, seen, graph);
    var ids := CitationIds(c);
    forall x | x in c.citations ensures x.nodeId in ids {
      var i :| 0 <= i < |c.citations| && c.citations[i] == x;
      assert ids[i] == x.nodeId;
    }
    forall id | id in ids ensures exists x :: x in c.citations && x.nodeId == id {
      var i :| 0 <= i < |ids| && ids[i] == id;
      assert c.citations[i] in c.citations;
    }
  }

  function ClaimMarks(claims: seq<Claim>, silo: string, seen: set<Id>, graph: Graph): seq<bool> {
    seq(|claims|, i requires 0 <= i < |claims| => ClaimOk(claims[i], silo, seen, graph))
  }

  function EdgeMarks(rules: Rules, edges: seq<Edge>, silo: string, seen: set<Id>, graph: Graph): seq<bool> {
    seq(|edges|, i requires 0 <= i < |edges| => EdgeOk(rules, edges[i], silo, seen, graph))
  }

  /** `kept` is the claims all of whose citations are citable, in order, repetitions and all. */
  ghost predicate ClaimsKept(claims: seq<Claim>, kept: seq<Claim>, silo: string, seen: set<Id>, graph: Graph) {
    Kept(claims, ClaimMarks(claims, silo, seen, graph), kept)
  }

  ghost predicate EdgesKept(rules: Rules, edges: seq<Edge>, kept: seq<Edge>, silo: string, seen: set<Id>,
                            graph: Graph) {
    Kept(edges, EdgeMarks(rules, edges, silo, seen, graph), kept)
  }

  // --------------------------------------------------------------- validator

  /** The lookup map answers for these ids as the graph does. */
  ghost predicate AnswersFor(found: Graph, graph: Graph, ids: set<Id>) {
    forall id :: id in ids ==> (id in found <==> id in graph) && (id in found ==> found[id] == graph[id])
  }

  function Reasons(results: seq<Result>): seq<Reason> {
    if results == [] then []
    else
      var last := results[|results| - 1];
      Reasons(results[..|results| - 1]) + if last.reason.Some? then [last.reason.value] else []
  }

  class CitationValidator {
    const rules: Rules
    var recorded: seq<Reason>   // rejection metrics, in order
    var queries: nat            // lookups sent to the graph

    constructor (rules: Rules)
      ensures this.rules == rules && recorded == [] && queries == 0
    {
      this.rules, recorded, queries := rules, [], 0;
    }

    method LookupNodes(graph: Graph, ids: set<Id>) returns (found: Graph)
      modifies this`queries
      ensures AnswersFor(found, graph, ids) && queries == old(queries) + if ids == {} then 0 else 1
    {
      if ids == {} {
        return map[];
      }
      queries := queries + 1;
      found := map id | id in graph && id in ids :: graph[id];
    }

    static method EdgeNodeIds(e: Edge) returns (all: seq<Id>)
      ensures all == EdgeIds(e) && FirstOccurrences([e.source, e.target] + e.supporting, all)
    {
      all := DedupIds([e.source, e.target] + e.supporting);
      DedupInOrder([e.source, e.target] + e.supporting);
    }

    static method DedupIds(ids: seq<Id>) returns (all: seq<Id>)
      ensures all == Dedup(ids)
    {
      all := [];
      var local := {};
      var i := 0;
      while i < |ids|
        invariant 0 <= i <= |ids| && all == Dedup(ids[..i]) && local == set id | id in all
      {
        assert ids[..i + 1][..i] == ids[..i];
        if ids[i] !in local {
          local, all := local + {ids[i]}, all + [ids[i]];
        }
        i := i + 1;
      }
      assert ids[..i] == ids;
    }

    static method CheckNodeIds(ids: seq<Id>, silo: string, seen: set<Id>, found: Graph, ghost graph: Graph)
      returns (r: Result)
      requires AnswersFor(found, graph, (set id | id in ids) * seen)
      ensures r == Verdict(ids, silo, seen, graph)
    {
      var hallucinated: seq<Id>, missing: seq<Id>, cross: seq<Id> := [], [], [];
      var i := 0;
      while i < |ids|
        invariant 0 <= i <= |ids|
        invariant hallucinated == WithFirst(ids, i, silo, seen, graph, Hallucinated)
        invariant missing == WithFirst(ids, i, silo, seen, graph, InvalidCitation)
        invariant cross == WithFirst(ids, i, silo, seen, graph, CrossSilo)
      {
        assert ids[i] in ids;
        var id := ids[i];
        if id !in seen {
          hallucinated := hallucinated + [id];
        } else if id !in found {
          missing := missing + [id];
        } else if found[id] != silo {
          cross := cross + [id];
        }
        i := i + 1;
      }
      var reason: Option<Reason> := None;
      if hallucinated != [] {
        reason := Some(Hallucinated);
      }
      if missing != [] && reason.None? {
        reason := Some(InvalidCitation);
      }
      if cross != [] && reason.None? {
        reason := Some(CrossSilo);
      }
      if reason.None? {
        return ACCEPTED;
      }
      var offenders := DedupIds(hallucinated + missing + cross);
      r := Result(false, reason, offenders);
    }

    method Record(r: Result)
      modifies this`recorded
      ensures recorded == old(recorded) + if r.reason.Some? then [r.reason.value] else []
    {
      if r.reason.Some? {
        recorded := recorded + [r.reason.value];
      }
    }

    method ValidateClaim(c: Claim, silo: string, seen: set<Id>, graph: Graph) returns (r: Result)
      modifies this
      ensures r == ClaimVerdict(c, silo, seen, graph) && recorded == old(recorded) + Reasons([r])
    {
      var ids := CitationIds(c);
      var found := LookupNodes(graph, set id | id in ids && id in seen);
      r := CheckNodeIds(ids, silo, seen, found, graph);
      Record(r);
      assert [r][..0] == [] && Reasons([r]) == Reasons([]) + if r.reason.Some? then [r.reason.value] else [];
    }

    method ValidateProposedEdge(e: Edge, silo: string, seen: set<Id>, graph: Graph) returns (r: Result)
      modifies this
      ensures r == EdgeVerdict(rules, e, silo, seen, graph) && recorded == old(recorded) + Reasons([r])
    {
      assert forall x: Result :: [x][..0] == [];
      var pre := PreCheck(rules, e);
      if pre.Some? {
        r := pre.value;
      } else {
        var ids := EdgeNodeIds(e);
        var found := LookupNodes(graph, set id | id in ids && id in seen);
        r := CheckNodeIds(ids, silo, seen, found, graph);
      }
      Record(r);
      assert Reasons([r]) == Reasons([]) + if r.reason.Some? then [r.reason.value] else [];
    }

    /** Every seen id of every claim and of every edge that passed its pre-check. */
    method Survivors(f: Finding, seen: set<Id>) returns (ids: set<Id>)
      ensures CoversClaims(ids, f.claims, seen) && CoversEdges(rules, ids, f.edges, seen)
    {
      ids := {};
      for i := 0 to |f.claims|
        invariant CoversClaims(ids, f.claims[..i], seen)
      {
        var cited := CitationIds(f.claims[i]);
        CoverageGrows(rules, ids, ids + Seen(cited, seen), f, i, 0, seen);
        ids := ids + Seen(cited, seen);
        assert f.claims[..i + 1] == f.claims[..i] + [f.claims[i]];
      }
      for i := 0 to |f.edges|
        invariant CoversClaims(ids, f.claims[..|f.claims|], seen) && CoversEdges(rules, ids, f.edges[..i], seen)
      {
        if PreCheck(rules, f.edges[i]).None? {
          var named := EdgeNodeIds(f.edges[i]);
          CoverageGrows(rules, ids, ids + Seen(named, seen), f, |f.claims|, i, seen);
          ids := ids + Seen(named, seen);
        }
        assert f.edges[..i + 1] == f.edges[..i] + [f.edges[i]];
      }
      assert f.claims[..|f.claims|] == f.claims && f.edges[..|f.edges|] == f.edges;
    }

    method EvaluateClaim(c: Claim, silo: string, seen: set<Id>, found: Graph, ghost graph: Graph, ghost ids: set<Id>)
      returns (r: Result)
      requires AnswersFor(found, graph, ids) && Covered(ids, CitationIds(c), seen)
      modifies this`recorded
      ensures r == ClaimVerdict(c, silo, seen, graph)
      ensures recorded == old(recorded) + if r.reason.Some? then [r.reason.value] else []
    {
      r := CheckNodeIds(CitationIds(c), silo, seen, found, graph);
      Record(r);
    }

    method EvaluateClaims(f: Finding, seen: set<Id>, found: Graph, ghost graph: Graph, ghost ids: set<Id>)
      returns (results: seq<Result>)
      requires AnswersFor(found, graph, ids) && CoversClaims(ids, f.claims, seen)
      modifies this`recorded
      ensures results == ClaimVerdicts(f.claims, f.silo, seen, graph)
      ensures recorded == old(recorded) + Reasons(results)
    {
      results := [];
      for i := 0 to |f.claims|
        invariant results == ClaimVerdicts(f.claims[..i], f.silo, seen, graph)
        invariant recorded == old(recorded) + Reasons(results)
      {
        results := EvaluateNextClaim(f, i, results, seen, found, graph, ids, old(recorded));
      }
      assert f.claims[..|f.claims|] == f.claims;
    }

    method EvaluateNextClaim(f: Finding, i: nat, results: seq<Result>, seen: set<Id>, found: Graph, ghost graph: Graph,
                             ghost ids: set<Id>, ghost before: seq<Reason>) returns (more: seq<Result>)
      requires i < |f.claims| && AnswersFor(found, graph, ids) && Covered(ids, CitationIds(f.claims[i]), seen)
      requires results == ClaimVerdicts(f.claims[..i], f.silo, seen, graph)
      requires recorded == before + Reasons(results)
      modifies this`recorded
      ensures more == ClaimVerdicts(f.claims[..i + 1], f.silo, seen, graph)
      ensures recorded == before + Reasons(more)
    {
      var r := EvaluateClaim(f.claims[i], f.silo, seen, found, graph, ids);
      ClaimVerdictsNext(f.claims, i, f.silo, seen, graph);
      ReasonsAppend(results, r);
      more := results + [r];
    }

    method EvaluateEdge(e: Edge, silo: string, seen: set<Id>, found: Graph, ghost graph: Graph, ghost ids: set<Id>)
      returns (r: Result)
      requires AnswersFor(found, graph, ids) && EdgeCovered(rules, ids, e, seen)
      modifies this`recorded
      ensures r == EdgeVerdict(rules, e, silo, seen, graph)
      ensures recorded == old(recorded) + if r.reason.Some? then [r.reason.value] else []
    {
      var pre := PreCheck(rules, e);
      if pre.Some? {
        r := pre.value;
      } else {
        var named := EdgeNodeIds(e);
        r := CheckNodeIds(named, silo, seen, found, graph);
      }
      Record(r);
    }

    method EvaluateEdges(f: Finding, seen: set<Id>, found: Graph, ghost graph: Graph, ghost ids: set<Id>)
      returns (results: seq<Result>)
      requires AnswersFor(found, graph, ids) && CoversEdges(rules, ids, f.edges, seen)
      modifies this`recorded
      ensures results == EdgeVerdicts(rules, f.edges, f.silo, seen, graph)
      ensures recorded == old(recorded) + Reasons(results)
    {
      results := [];
      for i := 0 to |f.edges|
        invariant results == EdgeVerdicts(rules, f.edges[..i], f.silo, seen, graph)
        invariant recorded == old(recorded) + Reasons(results)
      {
        results := EvaluateNextEdge(f, i, results, seen, found, graph, ids, old(recorded));
      }
      assert f.edges[..|f.edges|] == f.edges;
    }

    method EvaluateNextEdge(f: Finding, i: nat, results: seq<Result>, seen: set<Id>, found: Graph, ghost graph: Graph,
                            ghost ids: set<Id>, ghost before: seq<Reason>) returns (more: seq<Result>)
      requires i < |f.edges| && AnswersFor(found, graph, ids) && EdgeCovered(rules, ids, f.edges[i], seen)
      requires results == EdgeVerdicts(rules, f.edges[..i], f.silo, seen, graph)
      requires recorded == before + Reasons(results)
      modifies this`recorded
      ensures more == EdgeVerdicts(rules, f.edges[..i + 1], f.silo, seen, graph)
      ensures recorded == before + Reasons(more)
    {
      var r := EvaluateEdge(f.edges[i], f.silo, seen, found, graph, ids);
      EdgeVerdictsNext(rules, f.edges, i, f.silo, seen, graph);
      ReasonsAppend(results, r);
      more := results + [r];
    }

    /** One lookup for the whole finding, the same results and the same metrics as item by item. */
    method ValidateFinding(f: Finding, seen: set<Id>, graph: Graph) returns (claims: seq<Result>, edges: seq<Result>)
      modifies this
      ensures claims == ClaimVerdicts(f.claims, f.silo, seen, graph)
      ensures edges == EdgeVerdicts(rules, f.edges, f.silo, seen, graph)
      ensures recorded == old(recorded) + Reasons(claims) + Reasons(edges)
      ensures queries <= old(queries) + 1
    {
      var ids := Survivors(f, seen);
      var found := LookupNodes(graph, ids);
      claims := EvaluateClaims(f, seen, found, graph, ids);
      edges := EvaluateEdges(f, seen, found, graph, ids);
    }

    static method KeepClaims(claims: seq<Claim>, results: seq<Result>, ghost silo: string, ghost seen: set<Id>,
                             ghost graph: Graph) returns (kept: seq<Claim>, rejected: nat)
      requires results == ClaimVerdicts(claims, silo, seen, graph)
      ensures kept == SurvivingClaims(claims, silo, seen, graph) && |kept| + rejected == |claims|
    {
      kept, rejected := [], 0;
      for i := 0 to |claims|
        invariant kept == SurvivingClaims(claims[..i], silo, seen, graph) && |kept| + rejected == i
      {
        assert claims[..i + 1][..i] == claims[..i] && results[i] == ClaimVerdict(claims[i], silo, seen, graph);
        if results[i].accepted {
          kept := kept + [claims[i]];
        } else {
          rejected := rejected + 1;
        }
      }
      assert claims[..|claims|] == claims;
    }

    static method KeepEdges(ghost rules: Rules, edges: seq<Edge>, results: seq<Result>, ghost silo: string,
                            ghost seen: set<Id>, ghost graph: Graph) returns (kept: seq<Edge>, rejected: nat)
      requires results == EdgeVerdicts(rules, edges, silo, seen, graph)
      ensures kept == SurvivingEdges(rules, edges, silo, seen, graph) && |kept| + rejected == |edges|
    {
      kept, rejected := [], 0;
      for i := 0 to |edges|
        invariant kept == SurvivingEdges(rules, edges[..i], silo, seen, graph) && |kept| + rejected == i
      {
        assert edges[..i + 1][..i] == edges[..i] && results[i] == EdgeVerdict(rules, edges[i], silo, seen, graph);
        if results[i].accepted {
          kept := kept + [edges[i]];
        } else {
          rejected := rejected + 1;
        }
      }
      assert edges[..|edges|] == edges;
    }

    /** The citation stage and the business gate: what survives, in order, how many did not, and whether to write. */
    method RunValidation(f: Finding, seen: set<Id>, graph: Graph)
      returns (claims: seq<Claim>, edges: seq<Edge>, claimsRejected: nat, edgesRejected: nat, accepted: bool)
      modifies this
      ensures claims == SurvivingClaims(f.claims, f.silo, seen, graph)
      ensures edges == SurvivingEdges(rules, f.edges, f.silo, seen, graph)
      ensures ClaimsKept(f.claims, claims, f.silo, seen, graph)
      ensures EdgesKept(rules, f.edges, edges, f.silo, seen, graph)
      ensures |claims| + claimsRejected == |f.claims| && |edges| + edgesRejected == |f.edges|
      ensures accepted <==> claims != [] || f.scope == Silo
    {
      var cr, er := ValidateFinding(f, seen, graph);
      claims, claimsRejected := KeepClaims(f.claims, cr, f.silo, seen, graph);
      edges, edgesRejected := KeepEdges(rules, f.edges, er, f.silo, seen, graph);
      accepted := claims != [] || f.scope == Silo;
      SurvivingClaimsKept(f.claims, f.silo, seen, graph);
      SurvivingEdgesKept(rules, f.edges, f.silo, seen, graph);
    }
  }

  ghost predicate Covered(ids: set<Id>, named: seq<Id>, seen: set<Id>) {
    forall id :: id in named && id in seen ==> id in ids
  }

  ghost predicate CoversClaims(ids: set<Id>, claims: seq<Claim>, seen: set<Id>) {
    forall i :: 0 <= i < |claims| ==> Covered(ids, CitationIds(claims[i]), seen)
  }

  ghost predicate EdgeCovered(rules: Rules, ids: set<Id>, e: Edge, seen: set<Id>) {
    PreCheck(rules, e).None? ==> Covered(ids, EdgeIds(e), seen)
  }

  ghost predicate CoversEdges(rules: Rules, ids: set<Id>, edges: seq<Edge>, seen: set<Id>) {
    forall i :: 0 <= i < |edges| ==> EdgeCovered(rules, ids, edges[i], seen)
  }

  function Seen(named: seq<Id>, seen: set<Id>): set<Id> { set id | id in named && id in seen }

  lemma CoverageGrows(rules: Rules, ids: set<Id>, more: set<Id>, f: Finding, i: nat, j: nat, seen: set<Id>)
    requires ids <= more && i <= |f.claims| && j <= |f.edges|
    requires CoversClaims(ids, f.claims[..i], seen) && CoversEdges(rules, ids, f.edges[..j], seen)
    ensures CoversClaims(more, f.claims[..i], seen) && CoversEdges(rules, more, f.edges[..j], seen)
  {
    forall k | 0 <= k < i ensures Covered(more, CitationIds(f.claims[..i][k]), seen) {
      assert Covered(ids, CitationIds(f.claims[..i][k]), seen);
    }
    forall k | 0 <= k < j ensures EdgeCovered(rules, more, f.edges[..j][k], seen) {
      assert EdgeCovered(rules, ids, f.edges[..j][k], seen);
    }
  }

  lemma ReasonsAppend(results: seq<Result>, r: Result)
    ensures Reasons(results + [r]) == Reasons(results) + if r.reason.Some? then [r.reason.value] else []
  {
    assert (results + [r])[..|results|] == results;
  }

  function SurvivingClaims(claims: seq<Claim>, silo: string, seen: set<Id>, graph: Graph): seq<Claim> {
    if claims == [] then []
    else
      var last := claims[|claims| - 1];
      SurvivingClaims(claims[..|claims| - 1], silo, seen, graph)
      + if ClaimVerdict(last, silo, seen, graph).accepted then [last] else []
  }

  function SurvivingEdges(rules: Rules, edges: seq<Edge>, silo: string, seen: set<Id>, graph: Graph): seq<Edge> {
    if edges == [] then []
    else
      var last := edges[|edges| - 1];
      SurvivingEdges(rules, edges[..|edges| - 1], silo, seen, graph)
      + if EdgeVerdict(rules, last, silo, seen, graph).accepted then [last] else []
  }

  lemma {:induction false} SurvivingClaimsFilter(claims: seq<Claim>, marks: seq<bool>, silo: string, seen: set<Id>,
                                                  graph: Graph, n: nat)
    requires |marks| == |claims| && n <= |claims|
    requires forall i :: 0 <= i < |claims| ==> (marks[i] <==> ClaimVerdict(claims[i], silo, seen, graph).accepted)
    ensures SurvivingClaims(claims[..n], silo, seen, graph) == Filter(claims, marks, n)
  {
    if n == 0 {
    } else {
      SurvivingClaimsFilter(claims, marks, silo, seen, graph, n - 1);
      assert claims[..n][..n - 1] == claims[..n - 1];
    }
  }

  lemma SurvivingClaimsKept(claims: seq<Claim>, silo: string, seen: set<Id>, graph: Graph)
    ensures ClaimsKept(claims, SurvivingClaims(claims, silo, seen, graph), silo, seen, graph)
  {
    var marks := ClaimMarks(claims, silo, seen, graph);
    forall i | 0 <= i < |claims| ensures marks[i] <==> ClaimVerdict(claims[i], silo, seen, graph).accepted {
      ClaimVerdictMeaning(claims[i], silo, seen, graph);
    }
    SurvivingClaimsFilter(claims, marks, silo, seen, graph, |claims|);
    assert claims[..|claims|] == claims;
    FilterKeeps(claims, marks);
  }

  lemma {:induction false} SurvivingEdgesFilter(rules: Rules, edges: seq<Edge>, marks: seq<bool>, silo: string,
                                                 seen: set<Id>, graph: Graph, n: nat)
    requires |marks| == |edges| && n <= |edges|
    requires forall i :: 0 <= i < |edges| ==> (marks[i] <==> EdgeVerdict(rules, edges[i], silo, seen, graph).accepted)
    ensures SurvivingEdges(rules, edges[..n], silo, seen, graph) == Filter(edges, marks, n)
  {
    if n == 0 {
    } else {
      SurvivingEdgesFilter(rules, edges, marks, silo, seen, graph, n - 1);
      assert edges[..n][..n - 1] == edges[..n - 1];
    }
  }

  lemma SurvivingEdgesKept(rules: Rules, edges: seq<Edge>, silo: string, seen: set<Id>, graph: Graph)
    ensures EdgesKept(rules, edges, SurvivingEdges(rules, edges, silo, seen, graph), silo, seen, graph)
  {
    var marks := EdgeMarks(rules, edges, silo, seen, graph);
    forall i | 0 <= i < |edges| ensures marks[i] <==> EdgeVerdict(rules, edges[i], silo, seen, graph).accepted {
      EdgeVerdictMeaning(rules, edges[i], silo, seen, graph);
    }
    SurvivingEdgesFilter(rules, edges, marks, silo, seen, graph, |edges|);
    assert edges[..|edges|] == edges;
    FilterKeeps(edges, marks);
  }

  /** A proposed edge survives exactly when it is confident, in the schema and fully citable. */
  lemma SurvivingEdgesAreCitable(rules: Rules, edges: seq<Edge>, silo: string, seen: set<Id>, graph: Graph, e: Edge)
    ensures e in SurvivingEdges(rules, edges, silo, seen, graph) <==>
            e in edges && EdgeOk(rules, e, silo, seen, graph)
  {
    SurvivingEdgesKept(rules, edges, silo, seen, graph);
    var kept := SurvivingEdges(rules, edges, silo, seen, graph);
    var marks := EdgeMarks(rules, edges, silo, seen, graph);
    if e in kept {
      var k :| 0 <= k < |kept| && kept[k] == e;
      var i := Locate(marks, |edges|, k);
      assert edges[i] == e;
    }
    if e in edges && EdgeOk(rules, e, silo, seen, graph) {
      var i :| 0 <= i < |edges| && edges[i] == e;
      assert marks[i] && kept[Count(marks, i)] == e;
    }
  }

  function RejectedMarks(results: seq<Result>): seq<bool> {
    seq(|results|, i requires 0 <= i < |results| => results[i].reason.Some?)
  }

  lemma {:induction false} ReasonsUpTo(results: seq<Result>, marks: seq<bool>, n: nat)
    requires marks == RejectedMarks(results) && n <= |results|
    ensures |Reasons(results[..n])| == Count(marks, n)
    ensures forall i :: 0 <= i < n && marks[i] ==>
              Count(marks, i) < Count(marks, n) && Reasons(results[..n])[Count(marks, i)] == results[i].reason.value
  {
    if n == 0 {
    } else {
      ReasonsUpTo(results, marks, n - 1);
      assert results[..n][..n - 1] == results[..n - 1];
      forall i | 0 <= i < n && marks[i]
        ensures Count(marks, i) < Count(marks, n) && Reasons(results[..n])[Count(marks, i)] == results[i].reason.value
      {
        CountGrows(marks, i, n);
      }
    }
  }

  /** The metrics recorded are the reasons of the rejected results, one each, in order. */
  lemma ReasonsMeaning(results: seq<Result>)
    ensures var marks := RejectedMarks(results);
            && |Reasons(results)| == Count(marks, |results|)
            && forall i :: 0 <= i < |results| && results[i].reason.Some? ==>
                 Count(marks, i) < |Reasons(results)| && Reasons(results)[Count(marks, i)] == results[i].reason.value
  {
    ReasonsUpTo(results, RejectedMarks(results), |results|);
    assert results[..|results|] == results;
    assert forall i :: 0 <= i < |results| ==> (RejectedMarks(results)[i] <==> results[i].reason.Some?);
  }

  /** Every citation of a surviving claim was seen and belongs to the silo; no other claim survives. */
  lemma {:induction false} SurvivorsAreCitable(claims: seq<Claim>, silo: string, seen: set<Id>, graph: Graph, c: Claim)
    ensures c in SurvivingClaims(claims, silo, seen, graph) <==>
            c in claims && forall id :: id in CitationIds(c) ==> id in seen && id in graph && graph[id] == silo
  {
    if claims == [] {
    } else {
      var last := claims[|claims| - 1];
      assert claims == claims[..|claims| - 1] + [last];
      SurvivorsAreCitable(claims[..|claims| - 1], silo, seen, graph, c);
      VerdictMeaning(CitationIds(last), silo, seen, graph);
    }
  }
}
