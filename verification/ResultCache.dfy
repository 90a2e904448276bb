/**
 * The tiered result cache: three time-limited buckets that behave as one map.
 *
 * Hashes are injective, so a hash is the text hashed; a bucket may drop any entry at any time.
 */
module ResultCache {
  import opened Prelude

  /** Text normalisation (`lower().strip()`) is left abstract. */
  type Filters = Option<map<string, string>>

  datatype Request = Request(
    query: string, layers: Option<seq<string>>, silo: string, version: Option<int>, topK: int,
    filters: Filters, superseded: bool, mode: string)

  datatype Key = Key(
    query: string, layers: string, silo: string, version: Option<int>, topK: int,
    filters: Filters, superseded: bool, mode: string)

  datatype BucketName = Memory | Knowledge | Wisdom

  datatype Entry = Entry(results: seq<string>, cachedAt: real)

  type Bucket = map<Key, Entry>

  const INTELLIGENCE := "intelligence"
  const KNOWLEDGE := "knowledge"
  const WISDOM := "wisdom"
  const MEMORY := "memory"

  function PickCache(enabled: bool, layers: Option<seq<string>>): Option<BucketName> {
    if !enabled then None
    else if layers.None? then Some(Knowledge)
    else
      var names := set l | l in layers.value;
      if INTELLIGENCE in layers.value then None
      else if KNOWLEDGE in names then Some(Knowledge)
      else if names == {WISDOM} then Some(Wisdom)
      else if names == {MEMORY} then Some(Memory)
      else if WISDOM in names || MEMORY in names then Some(Knowledge)
      else None
  }

  /** Which bucket a request uses, by what its layers are; intelligence and unknown layers only are never cached. */
  lemma BucketChoice(layers: Option<seq<string>>)
    ensures PickCache(false, layers) == None
    ensures layers.None? ==> PickCache(true, layers) == Some(Knowledge)
    ensures layers.Some? ==>
              var l, b := layers.value, PickCache(true, layers);
              && ("intelligence" in l ==> b == None)
              && ("intelligence" !in l && "knowledge" in l ==> b == Some(Knowledge))
              && (l != [] && (forall x :: x in l ==> x == "wisdom") ==> b == Some(Wisdom))
              && (l != [] && (forall x :: x in l ==> x == "memory") ==> b == Some(Memory))
              && ("intelligence" !in l && "wisdom" in l && (exists x :: x in l && x != "wisdom") ==>
                    b == Some(Knowledge))
              && ("intelligence" !in l && "memory" in l && (exists x :: x in l && x != "memory") ==>
                    b == Some(Knowledge))
              && ("knowledge" !in l && "wisdom" !in l && "memory" !in l ==> b == None)
  {
    assert |INTELLIGENCE| == 12 && |KNOWLEDGE| == 9 && |WISDOM| == 6 && |MEMORY| == 6 && WISDOM[0] != MEMORY[0];
    if layers.Some? {
      var l := layers.value;
      var names := set x | x in l;
      if l != [] && (forall x :: x in l ==> x == WISDOM) { assert l[0] in l && names == {WISDOM}; }
      if l != [] && (forall x :: x in l ==> x == MEMORY) { assert l[0] in l && names == {MEMORY}; }
      if x :| x in l && x != WISDOM { assert x in names && names != {WISDOM}; }
      if x :| x in l && x != MEMORY { assert x in names && names != {MEMORY}; }
    }
  }

  // --------------------------------------------------------------- sorting

  /** Python's order on strings: by code point, a proper prefix first. */
  predicate LessEq(a: string, b: string) {
    a == "" || (b != "" && (a[0] < b[0] || (a[0] == b[0] && LessEq(a[1..], b[1..]))))
  }

  lemma {:induction false} LessEqTotal(a: string, b: string)
    ensures LessEq(a, b) || LessEq(b, a)
  {
    if a != "" && b != "" && a[0] == b[0] { LessEqTotal(a[1..], b[1..]); }
  }

  lemma {:induction false} LessEqAntisymmetric(a: string, b: string)
    requires LessEq(a, b) && LessEq(b, a)
    ensures a == b
  {
    if a != "" {
      LessEqAntisymmetric(a[1..], b[1..]);
      assert a == [a[0]] + a[1..] && b == [b[0]] + b[1..];
    }
  }

  lemma {:induction false} LessEqTransitive(a: string, b: string, c: string)
    requires LessEq(a, b) && LessEq(b, c)
    ensures LessEq(a, c)
  {
    if a != "" && a[0] == b[0] && b[0] == c[0] { LessEqTransitive(a[1..], b[1..], c[1..]); }
  }

  function Insert(x: string, s: seq<string>): seq<string> {
    if s == [] || LessEq(x, s[0]) then [x] + s else [s[0]] + Insert(x, s[1..])
  }

  function Sorted(s: seq<string>): seq<string> {
    if s == [] then [] else Insert(s[0], Sorted(s[1..]))
  }

  predicate InOrder(s: seq<string>) {
    |s| < 2 || (LessEq(s[0], s[1]) && InOrder(s[1..]))
  }

  lemma {:induction false} InsertKeeps(x: string, s: seq<string>)
    requires InOrder(s)
    ensures InOrder(Insert(x, s)) && multiset(Insert(x, s)) == multiset(s) + multiset{x}
  {
    if s == [] || LessEq(x, s[0]) {
      assert ([x] + s)[1..] == s;
      assert multiset([x] + s) == multiset{x} + multiset(s);
    } else {
      LessEqTotal(x, s[0]);
      InsertKeeps(x, s[1..]);
      var rest := Insert(x, s[1..]);
      assert ([s[0]] + rest)[1..] == rest;
      assert s == [s[0]] + s[1..];
    }
  }

  lemma {:induction false} SortedIsPermutation(s: seq<string>)
    ensures InOrder(Sorted(s)) && multiset(Sorted(s)) == multiset(s)
  {
    if s != [] {
      SortedIsPermutation(s[1..]);
      InsertKeeps(s[0], Sorted(s[1..]));
      assert s == [s[0]] + s[1..];
    }
  }

  lemma {:induction false} HeadIsLeast(s: seq<string>, x: string)
    requires InOrder(s) && x in s
    ensures LessEq(s[0], x)
  {
    if x == s[0] {
      LessEqTotal(x, x);
    } else {
      assert x in s[1..];
      HeadIsLeast(s[1..], x);
      LessEqTransitive(s[0], s[1], x);
    }
  }

  lemma SameHead(a: seq<string>, b: seq<string>)
    requires InOrder(a) && InOrder(b) && multiset(a) == multiset(b) && a != [] && b != []
    ensures a[0] == b[0]
  {
    assert a[0] in multiset(b) && b[0] in multiset(a);
    HeadIsLeast(b, a[0]);
    HeadIsLeast(a, b[0]);
    LessEqAntisymmetric(a[0], b[0]);
  }

  lemma SameTail(x: string, a: seq<string>, b: seq<string>)
    requires multiset([x] + a) == multiset([x] + b)
    ensures multiset(a) == multiset(b)
  {
    assert multiset([x] + a) == multiset{x} + multiset(a) && multiset([x] + b) == multiset{x} + multiset(b);
    assert multiset(a) == multiset([x] + a) - multiset{x} && multiset(b) == multiset([x] + b) - multiset{x};
  }

  /** A multiset has one sorted listing, so layer lists in any order give one key. */
  lemma {:induction false} OrderUnique(a: seq<string>, b: seq<string>)
    requires InOrder(a) && InOrder(b) && multiset(a) == multiset(b)
    ensures a == b
  {
    assert |multiset(a)| == |a| && |multiset(b)| == |b|;
    if a != [] {
      SameHead(a, b);
      assert a == [a[0]] + a[1..] && b == [b[0]] + b[1..];
      SameTail(a[0], a[1..], b[1..]);
      OrderUnique(a[1..], b[1..]);
    }
  }

  // ------------------------------------------------------------------ joining

  function Join(s: seq<string>): string {
    if s == [] then "" else if |s| == 1 then s[0] else s[0] + "," + Join(s[1..])
  }

  predicate NoComma(s: seq<string>) { forall i :: 0 <= i < |s| ==> ',' !in s[i] }

  /** The names of the layers; the query tool refuses a request with any other. */
  const LAYERS := {MEMORY, KNOWLEDGE, WISDOM, INTELLIGENCE}

  predicate Valid(r: Request) {
    r.layers.Some? ==> forall i :: 0 <= i < |r.layers.value| ==> r.layers.value[i] in LAYERS
  }

  lemma ValidHasNoComma(r: Request)
    requires Valid(r)
    ensures r.layers.Some? ==> NoComma(r.layers.value)
  {
    forall l | l in LAYERS ensures ',' !in l {
      assert l == MEMORY || l == KNOWLEDGE || l == WISDOM || l == INTELLIGENCE;
    }
  }

  lemma SingleIffNoComma(s: seq<string>)
    requires NoComma(s) && s != []
    ensures ',' in Join(s) <==> |s| > 1
  {
    if |s| > 1 { assert Join(s)[|s[0]|] == ','; }
  }

  /** Names without commas can be read back from their joining, but for the empty list. */
  lemma {:induction false} JoinInjective(a: seq<string>, b: seq<string>)
    requires NoComma(a) && NoComma(b) && a != [] && b != [] && Join(a) == Join(b)
    ensures a == b
  {
    SingleIffNoComma(a);
    SingleIffNoComma(b);
    if |a| > 1 {
      assert NoComma(a[1..]) && NoComma(b[1..]);
      FirstField(',', a[0], Join(a[1..]), b[0], Join(b[1..]));
      JoinInjective(a[1..], b[1..]);
      assert a == [a[0]] + a[1..] && b == [b[0]] + b[1..];
    }
  }

  // --------------------------------------------------------------------- keys

  /** What a request means to the cache: query text normalised, layers as a bag, empty filters as none. */
  datatype Normal = Normal(
    query: string, layers: Option<multiset<string>>, silo: string, version: Option<int>, topK: int,
    filters: Filters, superseded: bool, mode: string)

  function NormalFilters(f: Filters): Filters { if f == Some(map[]) then None else f }

  function KeyOf(norm: string -> string, r: Request): Key {
    Key(norm(r.query), if r.layers.None? then "all" else Join(Sorted(r.layers.value)), r.silo, r.version, r.topK,
        NormalFilters(r.filters), r.superseded, r.mode)
  }

  function NormalOf(norm: string -> string, r: Request): Normal {
    Normal(norm(r.query), if r.layers.None? then None else Some(multiset(r.layers.value)), r.silo, r.version, r.topK,
           NormalFilters(r.filters), r.superseded, r.mode)
  }

  /** A request the cache may hold, its layer names free of commas. */
  predicate Cacheable(r: Request) {
    PickCache(true, r.layers).Some? && (r.layers.Some? ==> NoComma(r.layers.value))
  }

  lemma SortedKeepsNames(s: seq<string>)
    ensures |Sorted(s)| == |s| && forall x :: x in Sorted(s) <==> x in s
    ensures NoComma(s) ==> NoComma(Sorted(s))
  {
    SortedIsPermutation(s);
    assert |multiset(Sorted(s))| == |multiset(s)|;
    forall x ensures x in Sorted(s) <==> x in s {
      assert x in Sorted(s) <==> x in multiset(Sorted(s));
      assert x in s <==> x in multiset(s);
    }
    if NoComma(s) {
      forall i | 0 <= i < |Sorted(s)| ensures ',' !in Sorted(s)[i] {
        assert Sorted(s)[i] in s;
      }
    }
  }

  /** The joined layer string names the bag of layers, and "all" names no cacheable list. */
  lemma LayerStringFaithful(a: seq<string>, b: seq<string>)
    requires NoComma(a) && NoComma(b) && a != [] && b != []
    ensures Join(Sorted(a)) == Join(Sorted(b)) <==> multiset(a) == multiset(b)
  {
    SortedIsPermutation(a);
    SortedIsPermutation(b);
    SortedKeepsNames(a);
    SortedKeepsNames(b);
    if Join(Sorted(a)) == Join(Sorted(b)) {
      JoinInjective(Sorted(a), Sorted(b));
    }
    if multiset(a) == multiset(b) {
      OrderUnique(Sorted(a), Sorted(b));
    }
  }

  lemma NotAll(a: seq<string>)
    requires NoComma(a) && PickCache(true, Some(a)).Some?
    ensures a != [] && Join(Sorted(a)) != "all"
  {
    SortedKeepsNames(a);
    assert a == [] ==> (set l | l in a) == {};
    if a != [] {
      SingleIffNoComma(Sorted(a));
      if |a| == 1 {
        assert Sorted(a)[0] in a && a[0] in Sorted(a) && Sorted(a) == [a[0]];
        assert (set l | l in a) == {a[0]};
      }
    }
  }

  /** Keys and normalised requests determine each other. */
  lemma KeyFaithful(norm: string -> string, r: Request, q: Request)
    requires Cacheable(r) && Cacheable(q)
    ensures KeyOf(norm, r) == KeyOf(norm, q) <==> NormalOf(norm, r) == NormalOf(norm, q)
  {
    if r.layers.Some? { NotAll(r.layers.value); }
    if q.layers.Some? { NotAll(q.layers.value); }
    if r.layers.Some? && q.layers.Some? {
      LayerStringFaithful(r.layers.value, q.layers.value);
    }
  }

  /** No filters and empty filters are the same. */
  predicate SameFilters(f: Filters, g: Filters) {
    f == g || ((f.None? || f.value == map[]) && (g.None? || g.value == map[]))
  }

  /** Two requests the cache takes for one: same query text, layers in any order, and everything else. */
  predicate SameRequest(norm: string -> string, r: Request, q: Request) {
    && norm(r.query) == norm(q.query) && (r.layers.None? <==> q.layers.None?)
    && (r.layers.Some? && q.layers.Some? ==> multiset(r.layers.value) == multiset(q.layers.value))
    && r.silo == q.silo && r.version == q.version && r.topK == q.topK && SameFilters(r.filters, q.filters)
    && r.superseded == q.superseded && r.mode == q.mode
  }

  lemma KeyMeaning(norm: string -> string, r: Request, q: Request)
    requires Cacheable(r) && Cacheable(q)
    ensures KeyOf(norm, r) == KeyOf(norm, q) <==> SameRequest(norm, r, q)
    ensures NormalOf(norm, r) == NormalOf(norm, q) <==> SameRequest(norm, r, q)
  {
    KeyFaithful(norm, r, q);
  }

  lemma SameBucket(norm: string -> string, r: Request, q: Request)
    requires Cacheable(r) && Cacheable(q) && KeyOf(norm, r) == KeyOf(norm, q)
    ensures PickCache(true, r.layers) == PickCache(true, q.layers)
  {
    KeyFaithful(norm, r, q);
    if r.layers.Some? {
      var a, b := r.layers.value, q.layers.value;
      forall x ensures x in a <==> x in b {
        assert x in a <==> x in multiset(a);
        assert x in b <==> x in multiset(b);
      }
      assert (set l | l in a) == (set l | l in b);
    }
  }

  // ------------------------------------------------------------------ behaviour

  datatype Buckets = Buckets(memory: Bucket, knowledge: Bucket, wisdom: Bucket)

  function BucketOf(s: Buckets, b: BucketName): Bucket {
    match b
    case Memory => s.memory
    case Knowledge => s.knowledge
    case Wisdom => s.wisdom
  }

  function WithBucket(s: Buckets, b: BucketName, x: Bucket): Buckets {
    match b
    case Memory => s.(memory := x)
    case Knowledge => s.(knowledge := x)
    case Wisdom => s.(wisdom := x)
  }

  function Lookup(norm: string -> string, s: Buckets, r: Request): Option<Entry> {
    match PickCache(true, r.layers)
    case None => None
    case Some(b) => EntryAt(s, b, KeyOf(norm, r))
  }

  function EntryAt(s: Buckets, b: BucketName, k: Key): Option<Entry> {
    if k in BucketOf(s, b) then Some(BucketOf(s, b)[k]) else None
  }

  function Put(norm: string -> string, s: Buckets, r: Request, e: Entry): Buckets {
    match PickCache(true, r.layers)
    case None => s
    case Some(b) => WithBucket(s, b, BucketOf(s, b)[KeyOf(norm, r) := e])
  }

  function DropSilo(x: Bucket, silo: string): Bucket { map k | k in x && k.silo != silo :: x[k] }

  function Invalidate(s: Buckets, silo: string): Buckets {
    Buckets(DropSilo(s.memory, silo), DropSilo(s.knowledge, silo), DropSilo(s.wisdom, silo))
  }

  /** An eviction, by age or for room, may drop any entry of any bucket at any time. */
  datatype Op = Set(r: Request, e: Entry) | InvalidateSilo(silo: string) | Evict(b: BucketName, k: Key)

  function Step(norm: string -> string, s: Buckets, op: Op): Buckets {
    match op
    case Set(r, e) => Put(norm, s, r, e)
    case InvalidateSilo(silo) => Invalidate(s, silo)
    case Evict(b, k) => WithBucket(s, b, BucketOf(s, b) - {k})
  }

  function Run(norm: string -> string, ops: seq<Op>): Buckets {
    if ops == [] then Buckets(map[], map[], map[])
    else Step(norm, Run(norm, ops[..|ops| - 1]), ops[|ops| - 1])
  }

  /** One map over normalised requests: the latest set since the silo was last invalidated. */
  function Latest(norm: string -> string, ops: seq<Op>, q: Normal): Option<Entry> {
    if ops == [] then None
    else
      var before := Latest(norm, ops[..|ops| - 1], q);
      match ops[|ops| - 1]
      case Set(r, e) => if Cacheable(r) && NormalOf(norm, r) == q then Some(e) else before
      case InvalidateSilo(silo) => if q.silo == silo then None else before
      case Evict(_, _) => before
  }

  ghost predicate CommaFree(ops: seq<Op>) {
    forall i :: 0 <= i < |ops| && ops[i].Set? && ops[i].r.layers.Some? ==> NoComma(ops[i].r.layers.value)
  }

  lemma PutThenLookup(norm: string -> string, s: Buckets, r: Request, e: Entry, q: Request)
    requires Cacheable(q) && (r.layers.Some? ==> NoComma(r.layers.value))
    ensures Lookup(norm, Put(norm, s, r, e), q) ==
            if Cacheable(r) && NormalOf(norm, r) == NormalOf(norm, q) then Some(e) else Lookup(norm, s, q)
  {
    var b, c := PickCache(true, r.layers), PickCache(true, q.layers);
    if b.Some? {
      var same := NormalOf(norm, r) == NormalOf(norm, q);
      assert same <==> b == c && KeyOf(norm, r) == KeyOf(norm, q) by {
        KeyFaithful(norm, r, q);
        if KeyOf(norm, r) == KeyOf(norm, q) { SameBucket(norm, r, q); }
      }
      PutAt(s, b.value, KeyOf(norm, r), e, c.value, KeyOf(norm, q));
    }
  }

  lemma PutAt(s: Buckets, b: BucketName, k: Key, e: Entry, c: BucketName, l: Key)
    ensures EntryAt(WithBucket(s, b, BucketOf(s, b)[k := e]), c, l) ==
            if b == c && k == l then Some(e) else EntryAt(s, c, l)
  {}

  /** Invalidation removes the silo's entries and no others. */
  lemma InvalidateThenLookup(norm: string -> string, s: Buckets, silo: string, q: Request)
    ensures Lookup(norm, Invalidate(s, silo), q) == if q.silo == silo then None else Lookup(norm, s, q)
  {}

  lemma StepThenLookup(norm: string -> string, s: Buckets, op: Op, q: Request)
    requires Cacheable(q) && (op.Set? && op.r.layers.Some? ==> NoComma(op.r.layers.value))
    ensures var before, after := Lookup(norm, s, q), Lookup(norm, Step(norm, s, op), q);
            match op
            case Set(r, e) =>
              after == if Cacheable(r) && NormalOf(norm, r) == NormalOf(norm, q) then Some(e) else before
            case InvalidateSilo(silo) => after == if q.silo == silo then None else before
            case Evict(_, _) => after.None? || after == before
  {
    match op
    case Set(r, e) => PutThenLookup(norm, s, r, e, q);
    case InvalidateSilo(silo) => InvalidateThenLookup(norm, s, silo, q);
    case Evict(b, k) =>
  }

  /** A hit is the latest set of that request since its silo was invalidated; without evictions every such set hits. */
  lemma {:induction false} BehavesAsOneMap(norm: string -> string, ops: seq<Op>, q: Request)
    requires Cacheable(q) && CommaFree(ops)
    ensures Lookup(norm, Run(norm, ops), q).Some? ==>
              Lookup(norm, Run(norm, ops), q) == Latest(norm, ops, NormalOf(norm, q))
    ensures (forall i :: 0 <= i < |ops| ==> !ops[i].Evict?) ==>
              Lookup(norm, Run(norm, ops), q) == Latest(norm, ops, NormalOf(norm, q))
  {
    if ops == [] {
    } else {
      var n := |ops| - 1;
      assert forall i :: 0 <= i < n ==> ops[..n][i] == ops[i];
      BehavesAsOneMap(norm, ops[..n], q);
      var s := Run(norm, ops[..n]);
      StepThenLookup(norm, s, ops[n], q);
    }
  }

  /** Operation `i` stores an entry for a request that the cache takes for `q`. */
  predicate SetsFor(norm: string -> string, op: Op, q: Request) {
    op.Set? && PickCache(true, op.r.layers).Some? && SameRequest(norm, op.r, q)
  }

  /** Operation `i` is the last to do so, and the silo is not invalidated after it. */
  ghost predicate LatestSet(norm: string -> string, ops: seq<Op>, q: Request, i: nat) {
    && i < |ops| && SetsFor(norm, ops[i], q)
    && forall j :: i < j < |ops| ==> !SetsFor(norm, ops[j], q) && ops[j] != InvalidateSilo(q.silo)
  }

  lemma LatestStep(norm: string -> string, before: Option<Entry>, op: Op, q: Request)
    requires Cacheable(q) && (op.Set? ==> Valid(op.r))
    ensures (match op
             case Set(r, e) => if Cacheable(r) && NormalOf(norm, r) == NormalOf(norm, q) then Some(e) else before
             case InvalidateSilo(silo) => if NormalOf(norm, q).silo == silo then None else before
             case Evict(_, _) => before)
            == if SetsFor(norm, op, q) then Some(op.e) else if op == InvalidateSilo(q.silo) then None else before
  {
    if op.Set? && PickCache(true, op.r.layers).Some? {
      ValidHasNoComma(op.r);
      KeyMeaning(norm, op.r, q);
    }
  }

  lemma {:induction false} LatestMeaning(norm: string -> string, ops: seq<Op>, q: Request)
    requires Cacheable(q) && forall i :: 0 <= i < |ops| && ops[i].Set? ==> Valid(ops[i].r)
    ensures forall i: nat :: LatestSet(norm, ops, q, i) ==> Latest(norm, ops, NormalOf(norm, q)) == Some(ops[i].e)
    ensures Latest(norm, ops, NormalOf(norm, q)).Some? ==> exists i: nat :: LatestSet(norm, ops, q, i)
  {
    if ops == [] {
    } else {
      var n := |ops| - 1;
      var init := ops[..n];
      LatestMeaning(norm, init, q);
      LatestStep(norm, Latest(norm, init, NormalOf(norm, q)), ops[n], q);
      forall i: nat | i < n ensures LatestSet(norm, ops, q, i) <==>
                                    LatestSet(norm, init, q, i) && !SetsFor(norm, ops[n], q)
                                    && ops[n] != InvalidateSilo(q.silo)
      {
        LatestSetNext(norm, ops, q, i);
      }
      if SetsFor(norm, ops[n], q) {
        assert LatestSet(norm, ops, q, n);
      } else if Latest(norm, ops, NormalOf(norm, q)).Some? {
        var i: nat :| LatestSet(norm, init, q, i);
        assert LatestSet(norm, ops, q, i);
      }
    }
  }

  lemma LatestSetNext(norm: string -> string, ops: seq<Op>, q: Request, i: nat)
    requires ops != [] && i < |ops| - 1
    ensures var n := |ops| - 1;
            LatestSet(norm, ops, q, i) <==>
            LatestSet(norm, ops[..n], q, i) && !SetsFor(norm, ops[n], q) && ops[n] != InvalidateSilo(q.silo)
  {
    var n := |ops| - 1;
    assert forall j :: 0 <= j < n ==> ops[..n][j] == ops[j];
  }

  /**
   * For every request the query tool lets through: a hit is the entry of the latest set for it since its
   * silo was invalidated; and without evictions there is a hit whenever there is such a set.
   */
  lemma ValidBehavesAsOneMap(norm: string -> string, ops: seq<Op>, q: Request)
    requires Valid(q) && PickCache(true, q.layers).Some?
    requires forall i :: 0 <= i < |ops| && ops[i].Set? ==> Valid(ops[i].r)
    ensures Lookup(norm, Run(norm, ops), q).Some? ==>
              exists i: nat :: LatestSet(norm, ops, q, i) && Lookup(norm, Run(norm, ops), q) == Some(ops[i].e)
    ensures forall i: nat :: LatestSet(norm, ops, q, i) && (forall j :: 0 <= j < |ops| ==> !ops[j].Evict?) ==>
              Lookup(norm, Run(norm, ops), q) == Some(ops[i].e)
  {
    ValidHasNoComma(q);
    forall i | 0 <= i < |ops| && ops[i].Set? && ops[i].r.layers.Some? ensures NoComma(ops[i].r.layers.value) {
      ValidHasNoComma(ops[i].r);
    }
    BehavesAsOneMap(norm, ops, q);
    LatestMeaning(norm, ops, q);
  }

  class ResultCacheStore {
    const norm: string -> string
    const enabled: bool
    var memory: Bucket
    var knowledge: Bucket
    var wisdom: Bucket

    ghost function Abs(): Buckets
      reads this
    {
      Buckets(memory, knowledge, wisdom)
    }

    constructor (norm: string -> string, enabled: bool)
      ensures this.norm == norm && this.enabled == enabled && Abs() == Buckets(map[], map[], map[])
    {
      this.norm, this.enabled, memory, knowledge, wisdom := norm, enabled, map[], map[], map[];
    }

    method Get(r: Request) returns (e: Option<Entry>)
      ensures e == if enabled then Lookup(norm, Abs(), r) else None
    {
      var b := PickCache(enabled, r.layers);
      if b.None? {
        return None;
      }
      var key := KeyOf(norm, r);
      var cache := match b.value case Memory => memory case Knowledge => knowledge case Wisdom => wisdom;
      e := if key in cache then Some(cache[key]) else None;
    }

    method SetEntry(r: Request, e: Entry)
      modifies this
      ensures Abs() == if enabled then Put(norm, old(Abs()), r, e) else old(Abs())
    {
      var b := PickCache(enabled, r.layers);
      if b.None? {
        return;
      }
      var key := KeyOf(norm, r);
      match b.value
      case Memory => memory := memory[key := e];
      case Knowledge => knowledge := knowledge[key := e];
      case Wisdom => wisdom := wisdom[key := e];
    }

    /** Collects a bucket's matching keys first, then pops them one by one. */
    static method PopSilo(x: Bucket, silo: string) returns (r: Bucket)
      ensures r == DropSilo(x, silo)
    {
      var matching := set k | k in x && k.silo == silo;
      r := x;
      while matching != {}
        invariant matching <= x.Keys
        invariant r == map k | k in x && (k.silo != silo || k in matching) :: x[k]
        decreases matching
      {
        var k :| k in matching;
        r, matching := r - {k}, matching - {k};
      }
    }

    method InvalidateSilo(silo: string)
      modifies this
      ensures Abs() == Invalidate(old(Abs()), silo)
    {
      memory := PopSilo(memory, silo);
      knowledge := PopSilo(knowledge, silo);
      wisdom := PopSilo(wisdom, silo);
    }
  }
}
