/**
 * Migrating vector collections to the hybrid schema, with the process dying at any step.
 *
 * Every write of the script is one atomic operation of `Qdrant`. `steps` is how many more of them this
 * attempt will live to see; `history` keeps every state the server has been in. What is proved holds of
 * every state in the history, over any number of attempts.
 */
module HybridMigration {
  import opened Prelude

  type Vector = seq<real>

  /** `named` tells whether the vector is stored under the name "dense" or unnamed. */
  datatype Point = Point(payload: string, vector: Vector, named: bool)

  datatype Schema = UnnamedVectors | NamedVectors(dense: bool) | UnknownVectors

  datatype Collection = Collection(schema: Schema, points: map<nat, Point>)

  type Server = map<string, Collection>

  /** Points of each collection to migrate, as they were before the first attempt. */
  type Originals = map<string, map<nat, Point>>

  const PREFIX := "ctx_"
  const SUFFIX := "_hybrid"
  const BATCH := 100
  const HYBRID := NamedVectors(true)

  function Hybrid(name: string): string { name + SUFFIX }

  predicate NeedsMigration(cols: Server, name: string) {
    name in cols && PREFIX <= name && cols[name].schema == UnnamedVectors
  }

  function ToHybrid(p: Point): Point { p.(named := true) }

  /** The same id, payload and dense vector, however the vector is stored. */
  ghost predicate Holds(points: map<nat, Point>, c: Collection) {
    forall id :: id in points ==>
      id in c.points && c.points[id].payload == points[id].payload && c.points[id].vector == points[id].vector
  }

  /** Not yet touched; or complete in the copy; or complete again under its own name. */
  ghost predicate Untouched(points: map<nat, Point>, cols: Server, name: string) {
    name in cols && cols[name] == Collection(UnnamedVectors, points)
  }

  ghost predicate InCopy(points: map<nat, Point>, cols: Server, name: string) {
    Hybrid(name) in cols && Holds(points, cols[Hybrid(name)]) && !NeedsMigration(cols, name)
  }

  ghost predicate Migrated(points: map<nat, Point>, cols: Server, name: string) {
    name in cols && cols[name].schema == HYBRID && Holds(points, cols[name])
  }

  ghost predicate Kept(points: map<nat, Point>, cols: Server, name: string) {
    Untouched(points, cols, name) || InCopy(points, cols, name) || Migrated(points, cols, name)
  }

  /** No collection to migrate is named like the copy of another. */
  ghost predicate NoClash(orig: Originals) {
    forall n :: n in orig ==> PREFIX <= n && Hybrid(n) !in orig
  }

  ghost predicate Inv(orig: Originals, cols: Server) {
    && NoClash(orig)
    && (forall n :: n in orig ==> Kept(orig[n], cols, n))
    && (forall n :: NeedsMigration(cols, n) ==> n in orig && Untouched(orig[n], cols, n))
  }

  ghost function OriginalsOf(cols: Server): Originals {
    map n | n in cols && NeedsMigration(cols, n) :: cols[n].points
  }

  /** No collection to migrate is named like the copy of another; a leftover copy may be there. */
  ghost predicate NamesApart(cols: Server) {
    forall n :: NeedsMigration(cols, n) ==> !NeedsMigration(cols, Hybrid(n))
  }

  lemma InitiallySafe(cols: Server)
    requires NamesApart(cols)
    ensures Inv(OriginalsOf(cols), cols)
  {}

  /** The collection with all its points, under its own name or its copy's. */
  ghost predicate Intact(points: map<nat, Point>, cols: Server, name: string) {
    || (name in cols && Holds(points, cols[name]))
    || (name + "_hybrid" in cols && Holds(points, cols[name + "_hybrid"]))
  }

  lemma NothingLost(orig: Originals, cols: Server, name: string)
    requires Inv(orig, cols) && name in orig
    ensures Intact(orig[name], cols, name)
  {
    assert Kept(orig[name], cols, name);
  }

  /** The first write for a collection: whatever stands under its copy's name goes. */
  function Cleared(cols: Server, name: string): Server { cols - {Hybrid(name)} }

  /** What a completed migration leaves of a collection. */
  function Completed(cols: Server, name: string): Server
    requires name in cols
  {
    Cleared(cols, name)[name := Collection(HYBRID, Copy(cols[name].points, true))]
  }

  /**
   * Of every server where a collection to migrate is named like the copy of another, both are listed; once
   * the first is migrated, the other's first write destroys it, and does so at once if it has no copy of its own.
   */
  lemma ClashDestroys(cols: Server)
    requires !NamesApart(cols)
    ensures exists n :: NeedsMigration(cols, n) && Destroyed(cols, n)
  {
    var n :| NeedsMigration(cols, n) && NeedsMigration(cols, Hybrid(n));
    HybridDiffers(n);
    HybridDiffers(Hybrid(n));
    assert Hybrid(Hybrid(n)) != n by { assert |Hybrid(Hybrid(n))| == |n| + 2 * |SUFFIX|; }
    assert Destroyed(cols, n);
  }

  ghost predicate Destroyed(cols: Server, n: string) {
    var m := Hybrid(n);
    && NeedsMigration(cols, m) && NeedsMigration(Completed(cols, m), n)
    && !Intact(cols[m].points, Cleared(Completed(cols, m), n), m)
    && (Hybrid(m) !in cols ==> !Intact(cols[m].points, Cleared(cols, n), m))
  }

  lemma HybridDiffers(name: string)
    ensures Hybrid(name) != name
  {
    assert |Hybrid(name)| == |name| + |SUFFIX|;
  }

  /** The original is gone and its points are in the copy only: no attempt will list it again. */
  ghost predicate InLimbo(points: map<nat, Point>, cols: Server, name: string) {
    name !in cols && Hybrid(name) in cols && Holds(points, cols[Hybrid(name)])
  }

  lemma HybridInjective(m: string, n: string)
    requires Hybrid(m) == Hybrid(n)
    ensures m == n
  {
    assert m == Hybrid(m)[..|Hybrid(m)| - |SUFFIX|];
    assert n == Hybrid(n)[..|Hybrid(n)| - |SUFFIX|];
  }

  /** Two servers that differ at most in `name` and its copy, where nothing needs migration unless it did before. */
  ghost predicate Local(before: Server, after: Server, name: string) {
    && (forall x :: x != name && x != Hybrid(name) ==>
          (x in before <==> x in after) && (x in before ==> after[x] == before[x]))
    && (forall x :: NeedsMigration(after, x) ==> NeedsMigration(before, x) && after[x] == before[x])
  }

  lemma LocalKeeps(orig: Originals, before: Server, after: Server, name: string)
    requires Inv(orig, before) && name in orig && Local(before, after, name) && Kept(orig[name], after, name)
    ensures Inv(orig, after)
  {
    forall n | n in orig && n != name ensures Kept(orig[n], after, n) {
      assert Kept(orig[n], before, n);
      if Hybrid(n) == Hybrid(name) { HybridInjective(n, name); }
    }
  }

  /** The points from `from` up to, but not including, `next`. */
  function Slice(points: map<nat, Point>, from: nat, next: Option<nat>): map<nat, Point> {
    map id | id in points && from <= id && (next.Some? ==> id < next.value) :: points[id]
  }

  /** Points as copied: converted to the named form on the way out, as they are on the way back. */
  function Copy(points: map<nat, Point>, convert: bool): map<nat, Point> {
    map id | id in points :: if convert then ToHybrid(points[id]) else points[id]
  }

  /** Ids not yet scrolled past. */
  function Remaining(points: map<nat, Point>, from: nat): set<nat> {
    set id | id in points && from <= id
  }

  lemma PageExtends(points: map<nat, Point>, convert: bool, from: nat, next: Option<nat>)
    requires next.Some? ==> from < next.value
    ensures Copy(Slice(points, 0, Some(from)), convert) + Copy(Slice(points, from, next), convert) ==
            Copy(Slice(points, 0, next), convert)
  {}

  lemma PageShrinks(points: map<nat, Point>, from: nat, next: nat)
    requires from < next && Slice(points, from, Some(next)) != map[]
    ensures |Remaining(points, next)| < |Remaining(points, from)|
  {
    var id :| id in Slice(points, from, Some(next));
    assert Remaining(points, next) <= Remaining(points, from) - {id};
    SubsetSize(Remaining(points, next), Remaining(points, from) - {id});
  }

  lemma WholeSlice(points: map<nat, Point>, from: nat, convert: bool)
    requires Slice(points, from, None) == map[]
    ensures Slice(points, 0, Some(from)) == points == Slice(points, 0, None)
  {
    assert forall id :: id in points && from <= id ==> id in Slice(points, from, None);
  }

  /** The servers agree on every collection outside `names`. */
  ghost predicate SameBut(before: Server, after: Server, names: set<string>) {
    forall x :: x !in names ==> (x in before <==> x in after) && (x in before ==> after[x] == before[x])
  }

  /** The process outlives exactly as many writes as it has steps. */
  predicate Spent(before: nat, after: nat, writes: nat, alive: bool) {
    (alive <==> before >= writes) && after == if alive then before - writes else 0
  }

  /** Upserts a copy takes. */
  function Pages(n: nat): nat { (n + 99) / 100 }

  lemma PagesNext(n: nat)
    ensures Pages(n + BATCH) == Pages(n) + 1
    ensures 0 < n <= BATCH ==> Pages(n) == 1
    ensures Pages(0) == 0
  {}

  /** One collection's migration: its pages each way, the copy deleted twice, the original once, and two creations. */
  function WritesFor(points: map<nat, Point>): nat { 2 * Pages(|points|) + 5 }

  function WritesForAll(cols: Server, names: seq<string>): nat
    requires forall n :: n in names ==> n in cols
  {
    if names == [] then 0
    else WritesForAll(cols, names[..|names| - 1]) + WritesFor(cols[names[|names| - 1]].points)
  }

  /** The ids taken off the front make the page; the others are what remains from the next offset. */
  lemma PageIsSlice(points: map<nat, Point>, from: nat, taken: set<nat>, rest: set<nat>, next: Option<nat>)
    requires taken + rest == Remaining(points, from) && taken !! rest
    requires forall i, j :: i in taken && j in rest ==> i < j
    requires next.None? <==> rest == {}
    requires next.Some? ==> next.value in rest && forall j :: j in rest ==> next.value <= j
    ensures (map id | id in taken :: points[id]) == Slice(points, from, next)
    ensures next.None? ==> Remaining(points, from) == taken
    ensures next.Some? ==> Remaining(points, next.value) == rest && (taken != {} ==> from < next.value)
    ensures (map id | id in taken :: points[id]) == map[] <==> taken == {}
    ensures |Remaining(points, from)| == |taken| + |rest|
  {
    forall id ensures id in Slice(points, from, next) <==> id in taken {
      if id in Slice(points, from, next) { assert id in Remaining(points, from); }
      if id in taken { assert id in Remaining(points, from); }
    }
    if next.Some? {
      forall id ensures id in Remaining(points, next.value) <==> id in rest {
        if id in Remaining(points, next.value) { assert id in Remaining(points, from); }
        if id in rest { assert id in Remaining(points, from); }
      }
      if id :| id in taken { assert id in Remaining(points, from); }
    }
    var page := map id | id in taken :: points[id];
    if id :| id in taken { assert id in page; }
  }

  class Qdrant {
    var cols: Server
    var steps: nat
    ghost var history: seq<Server>

    constructor (cols: Server)
      ensures this.cols == cols && history == [cols]
    {
      this.cols, steps, history := cols, 0, [cols];
    }

    ghost predicate Safe(orig: Originals)
      reads this
    {
      Inv(orig, cols) && forall h {:trigger Inv(orig, h)} :: h in history ==> Inv(orig, h)
    }

    /** One atomic write, unless the process has died. */
    method Write(after: Server, ghost orig: Originals) returns (alive: bool)
      requires Safe(orig) && Inv(orig, after)
      modifies this
      ensures Safe(orig) && old(history) <= history && cols == if alive then after else old(cols)
      ensures Spent(old(steps), steps, 1, alive) && (alive ==> after in history)
    {
      alive := steps > 0;
      if alive {
        cols, steps, history := after, steps - 1, history + [after];
      }
    }

    /** A page of at most `limit` points in id order from `offset`, and the offset of the next page if there is one. */
    static method Scroll(points: map<nat, Point>, offset: Option<nat>, limit: nat)
      returns (page: map<nat, Point>, next: Option<nat>)
      requires limit > 0
      ensures page == Slice(points, offset.GetOr(0), next)
      ensures next.Some? ==> offset.GetOr(0) < next.value && page != map[]
      ensures page == map[] <==> Remaining(points, offset.GetOr(0)) == {}
      ensures next.None? ==> |Remaining(points, offset.GetOr(0))| <= limit
      ensures next.Some? ==> |Remaining(points, offset.GetOr(0))| == |Remaining(points, next.value)| + limit
    {
      var from := offset.GetOr(0);
      var taken, rest := Smallest(Remaining(points, from), limit);
      page := map id | id in taken :: points[id];
      next := None;
      if rest != {} {
        var id := Least(rest);
        next := Some(id);
      }
      PageIsSlice(points, from, taken, rest, next);
    }

    /** The `limit` smallest ids, and the others. */
    static method Smallest(ids: set<nat>, limit: nat) returns (taken: set<nat>, rest: set<nat>)
      ensures taken + rest == ids && taken !! rest && forall i, j :: i in taken && j in rest ==> i < j
      ensures |taken| <= limit && (rest != {} ==> |taken| == limit)
      ensures rest != {} && limit > 0 ==> taken != {}
    {
      taken, rest := {}, ids;
      while rest != {} && |taken| < limit
        invariant rest + taken == ids && rest !! taken && |taken| <= limit
        invariant forall i, j :: i in taken && j in rest ==> i < j
        decreases rest
      {
        var id := Least(rest);
        taken, rest := taken + {id}, rest - {id};
      }
    }

    static method Least(s: set<nat>) returns (m: nat)
      requires s != {}
      ensures m in s && forall x :: x in s ==> m <= x
    {
      m :| m in s;
      var rest := s - {m};
      while rest != {}
        invariant rest < s && m in s && forall x :: x in s && x !in rest ==> m <= x
        decreases rest
      {
        var x :| x in rest;
        if x < m { m := x; }
        rest := rest - {x};
      }
    }

    /** The scroll-and-upsert loop from one collection into another, empty one. */
    method CopyPoints(source: string, target: string, convert: bool, ghost orig: Originals) returns (alive: bool)
      requires Safe(orig) && source in cols && source != target
      requires target in cols && cols[target] == Collection(HYBRID, map[]) && FreeToWrite(orig, cols, target)
      modifies this
      ensures Safe(orig) && old(history) <= history
      ensures SameBut(old(cols), cols, {target})
      ensures Spent(old(steps), steps, Pages(|old(cols)[source].points|), alive)
      ensures alive ==> cols == old(cols)[target := Collection(HYBRID, Copy(old(cols)[source].points, convert))]
    {
      var offset: Option<nat> := None;
      var points := cols[source].points;
      ghost var before := cols;
      assert Copy(Slice(points, 0, Some(0)), convert) == map[];
      assert Remaining(points, 0) == points.Keys;
      while true
        invariant Owing(old(steps), steps, |points|, |Remaining(points, offset.GetOr(0))|)
        invariant Safe(orig) && old(history) <= history
        invariant cols == before[target := Collection(HYBRID, Copy(Slice(points, 0, Some(offset.GetOr(0))), convert))]
        decreases |Remaining(points, offset.GetOr(0))|
      {
        var page, next := Scroll(cols[source].points, offset, BATCH);
        PageExtends(points, convert, offset.GetOr(0), next);
        OnePage(old(steps), steps, |points|, |Remaining(points, offset.GetOr(0))|, next,
                if next.Some? then |Remaining(points, next.value)| else 0);
        if page == map[] {
          WholeSlice(points, offset.GetOr(0), convert);
          PagesNext(0);
          return true;
        }
        var filled := Collection(HYBRID, cols[target].points + Copy(page, convert));
        ghost var held := cols;
        assert cols[target := filled] == before[target := filled];
        alive := Write(cols[target := filled], orig);
        if !alive {
          return;
        }
        if next == None {
          assert Slice(points, 0, None) == points;
          return true;
        }
        PageShrinks(points, offset.GetOr(0), next.value);
        offset := next;
      }
    }
  }

  /** Part of a copy is done: the writes still to come are the pages still to come. */
  ghost predicate Owing(before: nat, now: nat, all: nat, left: nat) {
    left <= all && before - now == Pages(all) - Pages(left)
  }

  lemma OnePage(before: nat, now: nat, all: nat, left: nat, next: Option<nat>, rest: nat)
    requires Owing(before, now, all, left)
    requires next.None? ==> left <= BATCH
    requires next.Some? ==> left == rest + BATCH
    ensures left > 0 && next.None? ==> Pages(left) == 1
    ensures next.Some? && now > 0 ==> Owing(before, now - 1, all, rest)
    ensures next.Some? ==> Pages(left) == Pages(rest) + 1
    ensures Pages(left) <= Pages(all)
  {
    PagesNext(rest);
    PagesNext(left);
    PagesMonotone(left, all);
  }

  lemma PagesMonotone(m: nat, n: nat)
    requires m <= n
    ensures Pages(m) <= Pages(n)
  {}

  lemma CreateIsFree(orig: Originals, cols: Server, name: string, target: string)
    requires Inv(orig, cols) && name in orig && target in {name, Hybrid(name)}
    requires target == Hybrid(name) ==> Untouched(orig[name], cols, name)
    requires target == name ==> InCopy(orig[name], cols, name)
    ensures FreeToWrite(orig, cols, target)
  {
    forall points ensures Inv(orig, cols[target := Collection(HYBRID, points)]) {
      CreateKeeps(orig, cols, name, target, Collection(HYBRID, points));
    }
  }

  lemma CreateKeeps(orig: Originals, cols: Server, name: string, target: string, c: Collection)
    requires Inv(orig, cols) && name in orig && target in {name, Hybrid(name)} && c.schema == HYBRID
    requires target == Hybrid(name) ==> Untouched(orig[name], cols, name)
    requires target == name ==> InCopy(orig[name], cols, name)
    ensures Inv(orig, cols[target := c])
  {
    HybridDiffers(name);
    assert Kept(orig[name], cols[target := c], name);
    LocalKeeps(orig, cols, cols[target := c], name);
  }

  /** Removing the stale copy of an untouched collection, an emptied original, or a finished copy loses nothing. */
  lemma RemovalKeeps(orig: Originals, cols: Server, name: string, gone: string)
    requires Inv(orig, cols) && name in orig && gone in {name, Hybrid(name)}
    requires gone == Hybrid(name) ==> Untouched(orig[name], cols, name) || Migrated(orig[name], cols, name)
    requires gone == name ==> Hybrid(name) in cols && Holds(orig[name], cols[Hybrid(name)])
    ensures Inv(orig, cols - {gone})
    ensures gone == name ==> InCopy(orig[name], cols - {gone}, name)
  {
    HybridDiffers(name);
    LocalKeeps(orig, cols, cols - {gone}, name);
  }

  /** Writes of two halves add up, and a death in the first is a death of both. */
  lemma SpentInTurn(before: nat, middle: nat, after: nat, first: nat, second: nat, alive: bool)
    requires Spent(before, middle, first, true) && Spent(middle, after, second, alive)
    ensures Spent(before, after, first + second, alive)
  {}

  lemma ClearedLast(cols: Server, name: string, c: Collection)
    ensures Cleared(cols[name := c], name) == Cleared(cols, name)[name := c]
  {
    HybridDiffers(name);
  }

  lemma ClearedTwice(cols: Server, name: string, c: Collection)
    ensures Cleared(Cleared(cols, name)[Hybrid(name) := c], name) == Cleared(cols, name)
  {}

  lemma Overwrite(cols: Server, name: string, c: Collection, d: Collection)
    ensures cols[name := c][name := d] == cols[name := d]
  {}

  /** First half: clear a stale copy, create an empty one, fill it. */
  method FillCopy(client: Qdrant, name: string, ghost orig: Originals) returns (alive: bool)
    requires client.Safe(orig) && name in orig && Untouched(orig[name], client.cols, name)
    modifies client
    ensures client.Safe(orig) && SameBut(old(client.cols), client.cols, {name, Hybrid(name)})
    ensures old(client.history) <= client.history
    ensures Spent(old(client.steps), client.steps, 2 + Pages(|orig[name]|), alive)
    ensures alive ==>
              client.cols == Cleared(old(client.cols), name)[Hybrid(name) := Collection(HYBRID, Copy(orig[name], true))]
  {
    var copy := Hybrid(name);
    var cleared := Cleared(client.cols, name);
    HybridDiffers(name);
    RemovalKeeps(orig, client.cols, name, copy);
    alive := client.Write(cleared, orig);
    if !alive { return; }
    CreateIsFree(orig, cleared, name, copy);
    var created := cleared[copy := Collection(HYBRID, map[])];
    alive := client.Write(created, orig);
    if !alive { return; }
    FreeAgain(orig, cleared, copy, map[]);
    alive := client.CopyPoints(name, copy, true, orig);
    Overwrite(cleared, copy, Collection(HYBRID, map[]), Collection(HYBRID, Copy(orig[name], true)));
  }

  lemma FreeAgain(orig: Originals, cols: Server, target: string, points: map<nat, Point>)
    requires FreeToWrite(orig, cols, target)
    ensures FreeToWrite(orig, cols[target := Collection(HYBRID, points)], target)
  {
    var c := cols[target := Collection(HYBRID, points)];
    forall p: map<nat, Point> ensures Inv(orig, c[target := Collection(HYBRID, p)]) {
      assert c[target := Collection(HYBRID, p)] == cols[target := Collection(HYBRID, p)];
    }
  }

  /** The original's name, emptied and given the hybrid schema; its points are in the copy meanwhile. */
  method Recreate(client: Qdrant, name: string, ghost orig: Originals) returns (alive: bool)
    requires client.Safe(orig) && name in orig
    requires Hybrid(name) in client.cols && client.cols[Hybrid(name)] == Collection(HYBRID, Copy(orig[name], true))
    modifies client
    ensures client.Safe(orig) && SameBut(old(client.cols), client.cols, {name, Hybrid(name)})
    ensures old(client.history) <= client.history
    ensures Spent(old(client.steps), client.steps, 2, alive)
    ensures alive ==> client.cols == old(client.cols)[name := Collection(HYBRID, map[])]
                      && FreeToWrite(orig, client.cols, name)
                      && exists h :: h in client.history && InLimbo(orig[name], h, name)
  {
    var before := client.cols;
    HybridDiffers(name);
    var dropped := before - {name};
    RemovalKeeps(orig, before, name, name);
    alive := client.Write(dropped, orig);
    if !alive { return; }
    assert dropped in client.history && InLimbo(orig[name], dropped, name);
    CreateIsFree(orig, dropped, name, name);
    alive := client.Write(dropped[name := Collection(HYBRID, map[])], orig);
    FreeAgain(orig, dropped, name, map[]);
    assert dropped[name := Collection(HYBRID, map[])] == before[name := Collection(HYBRID, map[])];
  }

  /** The last write: the finished collection no longer needs its copy. */
  method DropCopy(client: Qdrant, name: string, ghost orig: Originals) returns (alive: bool)
    requires client.Safe(orig) && name in orig && Migrated(orig[name], client.cols, name)
    modifies client
    ensures client.Safe(orig) && SameBut(old(client.cols), client.cols, {name, Hybrid(name)})
    ensures old(client.history) <= client.history
    ensures Spent(old(client.steps), client.steps, 1, alive)
    ensures alive ==> client.cols == Cleared(old(client.cols), name)
  {
    RemovalKeeps(orig, client.cols, name, Hybrid(name));
    alive := client.Write(Cleared(client.cols, name), orig);
  }

  /** Recreate the original and copy its points back. */
  method Restore(client: Qdrant, name: string, ghost orig: Originals) returns (alive: bool)
    requires client.Safe(orig) && name in orig
    requires Hybrid(name) in client.cols && client.cols[Hybrid(name)] == Collection(HYBRID, Copy(orig[name], true))
    modifies client
    ensures client.Safe(orig) && SameBut(old(client.cols), client.cols, {name, Hybrid(name)})
    ensures old(client.history) <= client.history
    ensures Spent(old(client.steps), client.steps, 2 + Pages(|orig[name]|), alive)
    ensures alive ==> client.cols == old(client.cols)[name := Collection(HYBRID, Copy(orig[name], true))]
                      && exists h :: h in client.history && InLimbo(orig[name], h, name)
  {
    HybridDiffers(name);
    alive := Recreate(client, name, orig);
    if !alive { return; }
    CopySize(orig[name]);
    alive := client.CopyPoints(Hybrid(name), name, false, orig);
    CopyBackIsSame(orig[name]);
    Overwrite(old(client.cols), name, Collection(HYBRID, map[]), Collection(HYBRID, Copy(orig[name], true)));
  }

  /** Second half: recreate the original, copy back, drop the copy. */
  method CopyBack(client: Qdrant, name: string, ghost orig: Originals) returns (alive: bool)
    requires client.Safe(orig) && name in orig
    requires Hybrid(name) in client.cols && client.cols[Hybrid(name)] == Collection(HYBRID, Copy(orig[name], true))
    modifies client
    ensures client.Safe(orig) && SameBut(old(client.cols), client.cols, {name, Hybrid(name)})
    ensures old(client.history) <= client.history
    ensures Spent(old(client.steps), client.steps, 3 + Pages(|orig[name]|), alive)
    ensures alive ==>
              client.cols == Cleared(old(client.cols), name)[name := Collection(HYBRID, Copy(orig[name], true))]
              && exists h :: h in client.history && InLimbo(orig[name], h, name)
  {
    ghost var copied := Collection(HYBRID, Copy(orig[name], true));
    ClearedLast(client.cols, name, copied);
    assert Migrated(orig[name], client.cols[name := copied], name);
    alive := Restore(client, name, orig);
    if !alive { return; }
    ghost var middle := client.steps;
    alive := DropCopy(client, name, orig);
    SpentInTurn(old(client.steps), middle, client.steps, 2 + Pages(|orig[name]|), 1, alive);
  }

  lemma CopySize(points: map<nat, Point>)
    ensures |Copy(points, true)| == |points|
  {
    assert Copy(points, true).Keys == points.Keys;
    assert |Copy(points, true).Keys| == |points.Keys|;
  }

  lemma CopyBackIsSame(points: map<nat, Point>)
    ensures Copy(Copy(points, true), false) == Copy(points, true)
  {}

  /**
   * One collection's migration, killed wherever `client.steps` runs out. Complete, it has only named the vectors;
   * on the way it passed through a state that, were the process killed there, leaves the collection in limbo.
   */
  method MigrateCollection(client: Qdrant, name: string, ghost orig: Originals) returns (done: bool)
    requires client.Safe(orig) && NeedsMigration(client.cols, name)
    modifies client
    ensures client.Safe(orig) && SameBut(old(client.cols), client.cols, {name, Hybrid(name)})
    ensures old(client.history) <= client.history && name in orig
    ensures Spent(old(client.steps), client.steps, WritesFor(old(client.cols)[name].points), done)
    ensures done ==> client.cols == Completed(old(client.cols), name)
                     && old(client.cols)[name].points == orig[name]
                     && exists h :: h in client.history && InLimbo(orig[name], h, name)
  {
    ghost var pages := Pages(|orig[name]|);
    ClearedTwice(client.cols, name, Collection(HYBRID, Copy(orig[name], true)));
    done := FillCopy(client, name, orig);
    if !done { return; }
    ghost var middle := client.steps;
    done := CopyBack(client, name, orig);
    SpentInTurn(old(client.steps), middle, client.steps, 2 + pages, 3 + pages, done);
  }

  /** GET_COLLECTIONS: the names to migrate, in any order. */
  method CollectionsToMigrate(cols: Server) returns (names: seq<string>)
    ensures Distinct(names) && forall n :: n in names <==> NeedsMigration(cols, n)
  {
    names := [];
    var rest := cols.Keys;
    while rest != {}
      invariant Distinct(names) && rest <= cols.Keys
      invariant forall n :: n in names <==> NeedsMigration(cols, n) && n !in rest
      decreases rest
    {
      var n :| n in rest;
      rest := rest - {n};
      if PREFIX <= n && cols[n].schema == UnnamedVectors {
        names := names + [n];
      }
    }
  }

  /** Neither a collection to migrate nor named like the copy of one. */
  ghost predicate Bystander(cols: Server, name: string) {
    forall n :: NeedsMigration(cols, n) ==> name != n && name != Hybrid(n)
  }

  /**
   * One attempt of the script: the names are listed once, then migrated in turn. It finishes exactly when
   * the process outlives all the writes, counted page by page, and stops early only by dying.
   */
  method MigrateAll(client: Qdrant, ghost orig: Originals) returns (done: bool, names: seq<string>)
    requires client.Safe(orig)
    modifies client
    ensures client.Safe(orig) && old(client.history) <= client.history
    ensures Distinct(names)
    ensures forall n :: n in names <==>
              n in old(client.cols) && "ctx_" <= n && old(client.cols)[n].schema == UnnamedVectors
    ensures Spent(old(client.steps), client.steps, WritesForAll(old(client.cols), names), done)
    ensures forall x :: Bystander(old(client.cols), x) ==> Same(old(client.cols), client.cols, x)
    ensures forall n :: n in orig && !NeedsMigration(old(client.cols), n) ==>
                       Same(old(client.cols), client.cols, n) && Same(old(client.cols), client.cols, Hybrid(n))
    ensures forall n :: n in orig && InLimbo(orig[n], old(client.cols), n) ==> InLimbo(orig[n], client.cols, n)
    ensures done ==> forall n :: !NeedsMigration(client.cols, n)
    ensures done ==> forall n :: n in names ==>
                       n in orig && n in client.cols && client.cols[n] == Collection(HYBRID, Copy(orig[n], true))
  {
    names := CollectionsToMigrate(client.cols);
    ghost var before := client.cols;
    var i := 0;
    while i < |names|
      invariant forall x :: Bystander(before, x) ==> Same(before, client.cols, x)
      invariant 0 <= i <= |names| && client.Safe(orig) && old(client.history) <= client.history
      invariant forall j :: 0 <= j < |names| ==> NeedsMigration(before, names[j])
      invariant forall j :: i <= j < |names| ==> NeedsMigration(client.cols, names[j])
      invariant forall n :: NeedsMigration(client.cols, n) ==> n in names[i..]
      invariant forall j :: 0 <= j < i ==> Finished(orig, client.cols, names[j])
      invariant Spent(old(client.steps), client.steps, WritesForAll(before, names[..i]), true)
    {
      ghost var held, steps := client.cols, client.steps;
      PointsAgree(orig, before, held, names[i]);
      done := MigrateCollection(client, names[i], orig);
      BystandersKept(before, held, client.cols, names[i]);
      WritesNext(before, names, i);
      SpentInTurn(old(client.steps), steps, client.steps, WritesForAll(before, names[..i]),
                  WritesFor(before[names[i]].points), done);
      if !done {
        WritesGrow(before, names, i + 1);
        OriginalsAreBystanders(orig, before);
        return;
      }
      OthersUnchanged(orig, held, client.cols, names, i);
      i := i + 1;
    }
    done := true;
    assert names[..i] == names;
    OriginalsAreBystanders(orig, before);
  }

  lemma PointsAgree(orig: Originals, before: Server, now: Server, name: string)
    requires Inv(orig, before) && Inv(orig, now) && NeedsMigration(before, name) && NeedsMigration(now, name)
    ensures now[name].points == before[name].points
  {
    assert Untouched(orig[name], before, name) && Untouched(orig[name], now, name);
  }

  lemma WritesNext(cols: Server, names: seq<string>, i: nat)
    requires i < |names| && forall n :: n in names ==> n in cols
    ensures WritesForAll(cols, names[..i + 1]) == WritesForAll(cols, names[..i]) + WritesFor(cols[names[i]].points)
  {
    assert names[..i + 1][..i] == names[..i];
  }

  lemma {:induction false} WritesGrow(cols: Server, names: seq<string>, i: nat)
    requires i <= |names| && forall n :: n in names ==> n in cols
    ensures WritesForAll(cols, names[..i]) <= WritesForAll(cols, names)
    decreases |names| - i
  {
    if i == |names| {
      assert names[..i] == names;
    } else {
      WritesNext(cols, names, i);
      WritesGrow(cols, names, i + 1);
    }
  }

  ghost predicate Same(before: Server, after: Server, name: string) {
    (name in before <==> name in after) && (name in before ==> after[name] == before[name])
  }

  /** Migrating one collection leaves every bystander alone. */
  lemma BystandersKept(start: Server, before: Server, after: Server, name: string)
    requires NeedsMigration(start, name) && SameBut(before, after, {name, Hybrid(name)})
    requires forall x :: Bystander(start, x) ==> Same(start, before, x)
    ensures forall x :: Bystander(start, x) ==> Same(start, after, x)
  {
    forall x | Bystander(start, x) ensures Same(start, after, x) {
      assert x !in {name, Hybrid(name)};
    }
  }

  /** An original that is no longer listed is a bystander, and so is its copy. */
  lemma OriginalsAreBystanders(orig: Originals, cols: Server)
    requires Inv(orig, cols)
    ensures forall n :: n in orig && !NeedsMigration(cols, n) ==> Bystander(cols, n) && Bystander(cols, Hybrid(n))
  {
    forall n, m | n in orig && !NeedsMigration(cols, n) && NeedsMigration(cols, m)
      ensures n != m && n != Hybrid(m) && Hybrid(n) != m && Hybrid(n) != Hybrid(m)
    {
      assert m in orig && Hybrid(m) !in orig && Hybrid(n) !in orig;
      if Hybrid(n) == Hybrid(m) { HybridInjective(n, m); }
    }
  }

  ghost predicate Finished(orig: Originals, cols: Server, name: string) {
    name in orig && name in cols && cols[name] == Collection(HYBRID, Copy(orig[name], true))
  }

  lemma OthersUnchanged(orig: Originals, before: Server, after: Server, names: seq<string>, i: nat)
    requires Inv(orig, before) && i < |names| && Distinct(names) && names[i] in orig
    requires after == (before - {Hybrid(names[i])})[names[i] := Collection(HYBRID, Copy(orig[names[i]], true))]
    requires forall j :: i <= j < |names| ==> NeedsMigration(before, names[j])
    requires forall n :: NeedsMigration(before, n) ==> n in names[i..]
    requires forall j :: 0 <= j < i ==> Finished(orig, before, names[j])
    ensures forall j :: i < j < |names| ==> NeedsMigration(after, names[j])
    ensures forall n :: NeedsMigration(after, n) ==> n in names[i + 1..]
    ensures forall j :: 0 <= j <= i ==> Finished(orig, after, names[j])
  {
    var name := names[i];
    forall j | i < j < |names| ensures NeedsMigration(after, names[j]) {
      assert names[j] in orig && names[j] != Hybrid(name);
    }
    forall n | NeedsMigration(after, n) ensures n in names[i + 1..] {
      assert n != name && NeedsMigration(before, n);
    }
    forall j | 0 <= j <= i ensures Finished(orig, after, names[j]) {
      if j < i { assert Finished(orig, before, names[j]) && names[j] != Hybrid(name); }
    }
  }

  /**
   * Any number of attempts, each killed after any number of writes, leftover copies or not: in every state
   * the server was ever in, every original collection is there with all its points, under its name or its copy's.
   */
  method ManyAttempts(cols: Server, kills: seq<nat>) returns (client: Qdrant)
    requires NamesApart(cols)
    ensures fresh(client) && client.history != [] && client.history[0] == cols
    ensures forall h, n :: h in client.history && n in cols && "ctx_" <= n && cols[n].schema == UnnamedVectors ==>
              Intact(cols[n].points, h, n)
  {
    ghost var orig := OriginalsOf(cols);
    InitiallySafe(cols);
    client := new Qdrant(cols);
    for i := 0 to |kills|
      invariant client.Safe(orig) && client.history != [] && client.history[0] == cols && fresh(client)
    {
      client.steps := kills[i];
      var _, _ := MigrateAll(client, orig);
    }
    forall h, n | h in client.history && NeedsMigration(cols, n) ensures Intact(cols[n].points, h, n) {
      NothingLost(orig, h, n);
    }
  }

  /** Whatever hybrid-schema collection stands under `target`, nothing is lost. */
  ghost predicate FreeToWrite(orig: Originals, cols: Server, target: string) {
    forall points: map<nat, Point> :: Inv(orig, cols[target := Collection(HYBRID, points)])
  }
}
