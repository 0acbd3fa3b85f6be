/**
 Range partitions by height, created by two parties that do not know of each other: the indexer before each
 flush, and the SQL functions of the database itself.
 */
module Partitions {
  import opened Blocks

  const STEP: int := 1_000_000

  function Grid(k: int): int { k * STEP }

  /** The multiples of a million. */
  ghost predicate OnGrid(h: int) { exists k :: Grid(k) == h }

  datatype TableName = TableName(schema: string, table: string)

  /** The partition `<table>_p<from>`. */
  datatype Part = Part(parent: TableName, from: int)

  /** FOR VALUES FROM (lo) TO (hi). */
  datatype Range = Range(lo: int, hi: int)

  /** A row of util.height_part_ranges. */
  datatype RangeConfig = RangeConfig(span: int, currentTo: int)

  datatype Schema = Schema(parts: map<Part, Range>, ranges: map<TableName, RangeConfig>)

  const BLOCKS := TableName("core", "blocks")

  const RANGE_TABLES: seq<TableName> := [
    BLOCKS, TableName("core", "validator_set"), TableName("core", "validator_missed_blocks"),
    TableName("core", "transactions"), TableName("core", "messages"), TableName("bank", "transfers"),
    TableName("bank", "balance_deltas"), TableName("stake", "delegation_events"),
    TableName("stake", "distribution_events"), TableName("gov", "deposits"), TableName("gov", "votes"),
    TableName("wasm", "contract_migrations"), TableName("wasm", "executions"), TableName("wasm", "events"),
    TableName("wasm", "state_kv"), TableName("tokens", "cw20_transfers"),
    TableName("authz_feegrant", "authz_grants"), TableName("authz_feegrant", "fee_grants"),
    TableName("core", "network_params")
  ]

  const CONFIGURED: seq<TableName> := [
    BLOCKS, TableName("core", "transactions"), TableName("core", "messages"), TableName("core", "validator_set"),
    TableName("core", "validator_missed_blocks"), TableName("bank", "transfers"), TableName("bank", "balance_deltas"),
    TableName("stake", "delegation_events"), TableName("stake", "distribution_events"), TableName("gov", "deposits"),
    TableName("gov", "votes"), TableName("ibc", "packets"), TableName("wasm", "executions"),
    TableName("wasm", "contract_migrations"), TableName("wasm", "state_kv")
  ]

  /** The tables that a flush fills and that are partitioned by height. */
  const FLUSHED: seq<TableName> := [
    TableName("core", "blocks"), TableName("core", "transactions"), TableName("core", "messages"), TableName("bank", "transfers"),
    TableName("stake", "delegation_events"), TableName("stake", "distribution_events"), TableName("wasm", "executions"),
    TableName("wasm", "events")
  ]

  // ------------------------------------------------------------------ the two creators

  predicate Overlaps(parts: map<Part, Range>, t: TableName, lo: int, hi: int) {
    exists q :: q in parts && q.parent == t && parts[q].lo < hi && lo < parts[q].hi
  }

  /** CREATE TABLE IF NOT EXISTS ... PARTITION OF: skipped if the name exists, an error if the range is taken. */
  function Create(parts: map<Part, Range>, p: Part, lo: int, hi: int): Option<map<Part, Range>> {
    if p in parts then Some(parts)
    else if lo >= hi || Overlaps(parts, p.parent, lo, hi) then None
    else Some(parts[p := Range(lo, hi)])
  }

  /** `util.ensure_next_height_partition`. */
  function EnsureNext(s: Schema, t: TableName): Option<Schema> {
    if t !in s.ranges then None
    else
      var cfg := s.ranges[t];
      var to := cfg.currentTo + cfg.span;
      var created := Create(s.parts, Part(t, cfg.currentTo), cfg.currentTo, to);
      if created.None? then None else Some(Schema(created.value, s.ranges[t := cfg.(currentTo := to)]))
  }

  /** Its first version, which leaves the bound alone when the partition exists. */
  function EnsureNextAtFirst(s: Schema, t: TableName): Option<Schema> {
    if t in s.ranges && Part(t, s.ranges[t].currentTo) in s.parts then Some(s) else EnsureNext(s, t)
  }

  function All(ts: seq<TableName>): set<TableName> { set t | t in ts }

  /** The tables as the schema scripts leave them. */
  function InitialParts(): map<Part, Range> {
    map t | t in All(RANGE_TABLES + CONFIGURED) :: Part(t, 0) := Range(0, STEP)
  }

  function InitialSchema(): Schema {
    Schema(InitialParts(), map t | t in All(CONFIGURED) :: RangeConfig(STEP, STEP))
  }

  // ------------------------------------------------------------------ the invariant

  /** Every partition covers the million heights its name says. */
  ghost predicate Aligned(parts: map<Part, Range>) {
    forall p :: p in parts ==> OnGrid(p.from) && parts[p] == Range(p.from, p.from + STEP)
  }

  /** Below its recorded bound a configured table has all its partitions. */
  ghost predicate Tracked(s: Schema) {
    forall t :: t in s.ranges ==>
      && s.ranges[t].span == STEP && OnGrid(s.ranges[t].currentTo)
      && forall b :: 0 <= b < s.ranges[t].currentTo && OnGrid(b) ==> Part(t, b) in s.parts
  }

  predicate Contains(r: Range, h: int) { r.lo <= h < r.hi }

  /** PostgreSQL accepts no empty ranges. */
  predicate ProperRanges(parts: map<Part, Range>) { forall p <- parts.Keys :: parts[p].lo < parts[p].hi }

  /** Some height of [from, to) has a partition of table `t` already. */
  ghost predicate HeightTaken(parts: map<Part, Range>, t: TableName, from: int, to: int) {
    exists h, q :: from <= h < to && q in parts && q.parent == t && Contains(parts[q], h)
  }

  lemma OverlapsIff(parts: map<Part, Range>, t: TableName, from: int, to: int)
    requires ProperRanges(parts) && from < to
    ensures Overlaps(parts, t, from, to) <==> HeightTaken(parts, t, from, to)
  {
    if Overlaps(parts, t, from, to) {
      var q :| q in parts && q.parent == t && parts[q].lo < to && from < parts[q].hi;
      var h := if parts[q].lo < from then from else parts[q].lo;
      assert q in parts.Keys;
      assert Contains(parts[q], h);
    }
  }

  /** What a successful or failed creation leaves is determined by what it has to keep and to add. */
  lemma CreateIs(parts: map<Part, Range>, t: TableName, from: int, to: int, ok: bool, after: map<Part, Range>)
    requires ProperRanges(parts)
    requires Part(t, from) in parts ==> ok && after == parts
    requires Part(t, from) !in parts && (from >= to || HeightTaken(parts, t, from, to)) ==> !ok && after == parts
    requires Part(t, from) !in parts && from < to && !HeightTaken(parts, t, from, to) ==>
               && ok && after.Keys == parts.Keys + {Part(t, from)} && (forall p :: p in parts ==> after[p] == parts[p])
               && (forall h :: Contains(after[Part(t, from)], h) <==> from <= h < to)
    ensures ok <==> Create(parts, Part(t, from), from, to).Some?
    ensures after == if ok then Create(parts, Part(t, from), from, to).value else parts
  {
    if from < to { OverlapsIff(parts, t, from, to); }
    if Part(t, from) !in parts && ok {
      var r := after[Part(t, from)];
      assert Contains(r, from) && Contains(r, to - 1) && !Contains(r, from - 1) && !Contains(r, to);
      assert r == Range(from, to);
      assert after == parts[Part(t, from) := Range(from, to)];
    }
  }

  /** Exactly one partition of table `t` takes height `h`. */
  ghost predicate TakenOnce(parts: map<Part, Range>, t: TableName, h: int) {
    exists p :: p in parts && p.parent == t && Contains(parts[p], h) &&
      forall q :: q in parts && q.parent == t && Contains(parts[q], h) ==> q == p
  }

  function Base(h: int): int { h / STEP * STEP }

  lemma BaseOf(h: int)
    ensures OnGrid(Base(h)) && Base(h) <= h < Base(h) + STEP
    ensures h >= 0 ==> Base(h) >= 0
  {
    assert Grid(h / STEP) == Base(h);
  }

  lemma StepOn(b: int)
    ensures OnGrid(b) ==> OnGrid(b + STEP)
  {
    if OnGrid(b) {
      var k :| Grid(k) == b;
      assert Grid(k + 1) == b + STEP;
    }
  }

  lemma ZeroOnGrid()
    ensures OnGrid(0) && OnGrid(STEP)
  {
    assert Grid(0) == 0 && Grid(1) == STEP;
  }

  lemma BaseGrows(a: int, b: int)
    requires a <= b
    ensures Base(a) <= Base(b)
  {
  }

  lemma SameBase(a: int, b: int)
    requires OnGrid(a) && OnGrid(b) && a < b + STEP && b < a + STEP
    ensures a == b
  {
  }

  /** No two partitions of one table take height `h`. */
  ghost predicate DisjointAt(parts: map<Part, Range>, h: int) {
    forall p, q | p in parts && q in parts && p.parent == q.parent && Contains(parts[p], h) && Contains(parts[q], h) :: p == q
  }

  lemma AlignedDisjoint(parts: map<Part, Range>, p: Part, q: Part, h: int)
    requires Aligned(parts) && p in parts && q in parts && p.parent == q.parent
    requires Contains(parts[p], h) && Contains(parts[q], h)
    ensures p == q
  {
    SameBase(p.from, q.from);
  }

  lemma TakenIff(parts: map<Part, Range>, t: TableName, h: int)
    requires Aligned(parts)
    ensures TakenOnce(parts, t, h) <==> Part(t, Base(h)) in parts
  {
    BaseOf(h);
    if Part(t, Base(h)) in parts {
      var p := Part(t, Base(h));
      forall q | q in parts && q.parent == t && Contains(parts[q], h) ensures q == p { AlignedDisjoint(parts, p, q, h); }
    }
    if TakenOnce(parts, t, h) {
      var p :| p in parts && p.parent == t && Contains(parts[p], h);
      SameBase(p.from, Base(h));
    }
  }

  /** Creating a million heights under their own name never fails. */
  lemma AlignedCreate(parts: map<Part, Range>, t: TableName, base: int)
    requires Aligned(parts) && OnGrid(base)
    ensures var r := Create(parts, Part(t, base), base, base + STEP);
            r.Some? && Aligned(r.value) && r.value.Keys == parts.Keys + {Part(t, base)}
  {
    if Part(t, base) !in parts && Overlaps(parts, t, base, base + STEP) {
      var q :| q in parts && q.parent == t && parts[q].lo < base + STEP && base < parts[q].hi;
      SameBase(q.from, base);
      assert false;
    }
  }

  lemma NextMultiple(b: int, bound: int)
    requires OnGrid(b) && OnGrid(bound) && b < bound + STEP
    ensures b < bound || b == bound
  {
    if b > bound { SameBase(b, bound); }
  }

  lemma EnsureNextKeeps(s: Schema, t: TableName)
    requires Aligned(s.parts) && Tracked(s) && t in s.ranges
    ensures var r := EnsureNext(s, t);
            && r.Some? && Aligned(r.value.parts) && Tracked(r.value)
            && r.value.parts.Keys == s.parts.Keys + {Part(t, s.ranges[t].currentTo)}
            && r.value.ranges == s.ranges[t := RangeConfig(STEP, s.ranges[t].currentTo + STEP)]
  {
    var bound := s.ranges[t].currentTo;
    AlignedCreate(s.parts, t, bound);
    StepOn(bound);
    var u := EnsureNext(s, t).value;
    TrackedFurther(s, u, t, bound);
  }

  lemma TrackedFurther(s: Schema, u: Schema, t: TableName, bound: int)
    requires Tracked(s) && t in s.ranges && s.ranges[t].currentTo == bound && OnGrid(bound + STEP)
    requires u.parts.Keys == s.parts.Keys + {Part(t, bound)}
    requires u.ranges == s.ranges[t := RangeConfig(STEP, bound + STEP)]
    ensures Tracked(u)
  {
    forall b | 0 <= b < bound + STEP && OnGrid(b) ensures Part(t, b) in u.parts.Keys { NextMultiple(b, bound); }
  }

  /** The SQL creator steps on from the partition it makes exactly if the span is the indexer's step. */
  lemma SpanMatters(s: Schema, t: TableName)
    requires Aligned(s.parts) && t in s.ranges && OnGrid(s.ranges[t].currentTo)
    requires Part(t, s.ranges[t].currentTo) !in s.parts && EnsureNext(s, t).Some?
    ensures Aligned(EnsureNext(s, t).value.parts) <==> s.ranges[t].span == STEP
  {
    var p := Part(t, s.ranges[t].currentTo);
    var u := EnsureNext(s, t).value;
    assert u.parts[p] == Range(p.from, p.from + s.ranges[t].span);
    if s.ranges[t].span == STEP { AlignedCreate(s.parts, t, p.from); }
  }

  /** Where the indexer was faster, the first version of the function does not move: its caller would loop. */
  lemma FirstVersionStuckIff(s: Schema, t: TableName)
    requires Aligned(s.parts) && Tracked(s) && t in s.ranges
    ensures EnsureNextAtFirst(s, t) == Some(s) <==> Part(t, s.ranges[t].currentTo) in s.parts
    ensures EnsureNext(s, t) != Some(s)
  {
    EnsureNextKeeps(s, t);
  }

  // ------------------------------------------------------------------ any mix of statements

  datatype Statement = IndexerCreates(t: TableName, base: int) | DatabaseCreates(t: TableName)

  /** The indexer names partitions by multiples of STEP; the SQL function is called for configured tables. */
  ghost predicate Issued(s: Schema, st: Statement) {
    match st
    case IndexerCreates(_, base) => OnGrid(base)
    case DatabaseCreates(t) => t in s.ranges
  }

  function Execute(s: Schema, st: Statement): Option<Schema> {
    match st
    case IndexerCreates(t, base) =>
      var r := Create(s.parts, Part(t, base), base, base + STEP);
      if r.None? then None else Some(s.(parts := r.value))
    case DatabaseCreates(t) => EnsureNext(s, t)
  }

  function ExecuteAll(s: Schema, sts: seq<Statement>): Option<Schema>
    decreases |sts|
  {
    if sts == [] then Some(s)
    else
      var r := Execute(s, sts[0]);
      if r.None? then None else ExecuteAll(r.value, sts[1..])
  }

  lemma ExecuteKeeps(s: Schema, st: Statement)
    requires Aligned(s.parts) && Tracked(s) && Issued(s, st)
    ensures var r := Execute(s, st);
            && r.Some? && Aligned(r.value.parts) && Tracked(r.value)
            && r.value.ranges.Keys == s.ranges.Keys && s.parts.Keys <= r.value.parts.Keys
            && (st.IndexerCreates? ==> Part(st.t, st.base) in r.value.parts)
  {
    match st
    case IndexerCreates(t, base) => AlignedCreate(s.parts, t, base);
    case DatabaseCreates(t) => EnsureNextKeeps(s, t);
  }

  lemma {:induction false} ExecuteAllKeeps(s: Schema, sts: seq<Statement>)
    requires Aligned(s.parts) && Tracked(s) && forall st :: st in sts ==> Issued(s, st)
    ensures var r := ExecuteAll(s, sts);
            && r.Some? && Aligned(r.value.parts) && Tracked(r.value) && s.parts.Keys <= r.value.parts.Keys
            && forall st :: st in sts && st.IndexerCreates? ==> Part(st.t, st.base) in r.value.parts
    decreases |sts|
  {
    if sts != [] {
      assert sts[0] in sts;
      ExecuteKeeps(s, sts[0]);
      var t := Execute(s, sts[0]).value;
      forall st | st in sts[1..] ensures Issued(t, st) { assert Issued(s, st); }
      ExecuteAllKeeps(t, sts[1..]);
      assert sts == [sts[0]] + sts[1..];
    }
  }

  lemma InitialTracked(tables: set<TableName>, configured: set<TableName>)
    requires configured <= tables
    ensures var s := Schema(map t | t in tables :: Part(t, 0) := Range(0, STEP), map t | t in configured :: RangeConfig(STEP, STEP));
            Aligned(s.parts) && Tracked(s)
  {
    var s := Schema(map t | t in tables :: Part(t, 0) := Range(0, STEP), map t | t in configured :: RangeConfig(STEP, STEP));
    ZeroOnGrid();
    forall t, b | t in s.ranges && 0 <= b < s.ranges[t].currentTo && OnGrid(b) ensures Part(t, b) in s.parts {
      SameBase(b, 0);
    }
  }

  lemma InitialInv()
    ensures Aligned(InitialSchema().parts) && Tracked(InitialSchema())
  {
    InitialTracked(All(RANGE_TABLES + CONFIGURED), All(CONFIGURED));
  }

  /**
   However the statements of both creators interleave, none of them fails, partitions of a table stay
   disjoint, and a height for which the indexer has issued its statement is taken by exactly one of them.
   */
  lemma AnyMixIsSafe(sts: seq<Statement>, t: TableName, h: int)
    requires forall st :: st in sts ==> Issued(InitialSchema(), st)
    ensures var r := ExecuteAll(InitialSchema(), sts);
            && r.Some?
            && DisjointAt(r.value.parts, h)
            && (IndexerCreates(t, Base(h)) in sts ==> TakenOnce(r.value.parts, t, h))
  {
    InitialInv();
    ExecuteAllKeeps(InitialSchema(), sts);
    var parts := ExecuteAll(InitialSchema(), sts).value.parts;
    forall p, q | p in parts && q in parts && p.parent == q.parent && Contains(parts[p], h) && Contains(parts[q], h) ensures p == q {
      AlignedDisjoint(parts, p, q, h);
    }
    TakenIff(parts, t, h);
  }

  // ------------------------------------------------------------------ the loops

  /** The partitions of the range tables from `lo` up to, not including, `hi`. */
  ghost function Wanted(lo: int, hi: int): set<Part> {
    set i, b | 0 <= i < |RANGE_TABLES| && lo <= b < hi && OnGrid(b) :: Part(RANGE_TABLES[i], b)
  }

  function WantedOf(tables: seq<TableName>, base: int): set<Part> {
    set i | 0 <= i < |tables| :: Part(tables[i], base)
  }

  /** What has been created when the loop has passed `tables`: core.blocks comes before it. */
  function WantedFrom(tables: seq<TableName>, base: int): set<Part> { {Part(BLOCKS, base)} + WantedOf(tables, base) }

  lemma BlocksWanted(tables: seq<TableName>, base: int)
    requires BLOCKS in tables
    ensures WantedFrom(tables, base) == WantedOf(tables, base)
  {
    var k :| 0 <= k < |tables| && tables[k] == BLOCKS;
    assert Part(tables[k], base) in WantedOf(tables, base);
  }

  lemma WantedOneMore(tables: seq<TableName>, base: int, i: nat)
    requires i < |tables|
    ensures WantedFrom(tables[..i + 1], base) == WantedFrom(tables[..i], base) + {Part(tables[i], base)}
  {
    WantedOfOneMore(tables, base, i);
  }

  lemma WantedOfOneMore(tables: seq<TableName>, base: int, i: nat)
    requires i < |tables|
    ensures WantedOf(tables[..i + 1], base) == WantedOf(tables[..i], base) + {Part(tables[i], base)}
  {
    forall k | 0 <= k <= i ensures Part(tables[k], base) in WantedOf(tables[..i], base) + {Part(tables[i], base)} {
      if k < i { assert tables[..i][k] == tables[k]; }
    }
    forall k | 0 <= k <= i ensures Part(tables[k], base) in WantedOf(tables[..i + 1], base) {
      assert tables[..i + 1][k] == tables[k];
    }
  }

  lemma WantedStep(lo: int, base: int)
    requires lo <= base && OnGrid(base)
    ensures Wanted(lo, base + STEP) == Wanted(lo, base) + WantedOf(RANGE_TABLES, base)
  {
    forall b | OnGrid(b) && base <= b < base + STEP ensures b == base { SameBase(b, base); }
  }

  class Catalog {
    var parts: map<Part, Range>
    var ranges: map<TableName, RangeConfig>

    ghost function Now(): Schema
      reads this
    {
      Schema(parts, ranges)
    }

    constructor ()
      ensures Now() == InitialSchema()
    {
      parts, ranges := InitialSchema().parts, InitialSchema().ranges;
    }

    /**
     `createRangePartition`. A name that exists is left alone, whatever it covers. A new one is an error if
     some height of its range has a partition of the table already, or if it has no heights at all;
     otherwise it is added and takes exactly its heights.
     */
    method CreateRangePartition(t: TableName, from: int, to: int) returns (ok: bool)
      requires ProperRanges(parts)
      modifies this`parts
      ensures Part(t, from) in old(parts) ==> ok && parts == old(parts)
      ensures Part(t, from) !in old(parts) && (from >= to || HeightTaken(old(parts), t, from, to)) ==> !ok && parts == old(parts)
      ensures Part(t, from) !in old(parts) && from < to && !HeightTaken(old(parts), t, from, to) ==>
                && ok && parts.Keys == old(parts).Keys + {Part(t, from)}
                && (forall p :: p in old(parts) ==> parts[p] == old(parts)[p])
                && (forall h :: Contains(parts[Part(t, from)], h) <==> from <= h < to)
      ensures ProperRanges(parts)
    {
      if from < to { OverlapsIff(parts, t, from, to); }
      var r := Create(parts, Part(t, from), from, to);
      ok := r.Some?;
      if ok { parts := r.value; }
    }

    /** The statements of `ensureCorePartitions` for one base: core.blocks first, then the other tables. */
    method EnsureBase(tables: seq<TableName>, base: int) returns (ok: bool)
      requires Aligned(parts) && OnGrid(base) && BLOCKS in tables
      modifies this`parts
      ensures ok && Aligned(parts) && parts.Keys == old(parts).Keys + WantedOf(tables, base)
    {
      ok := CreateAligned(BLOCKS, base);
      var i := 0;
      assert WantedOf(tables[..0], base) == {};
      while i < |tables| && ok
        invariant 0 <= i <= |tables| && ok && Aligned(parts)
        invariant parts.Keys == old(parts).Keys + WantedFrom(tables[..i], base)
      {
        var t := tables[i];
        WantedOneMore(tables, base, i);
        if t != BLOCKS { ok := CreateAligned(t, base); }
        i := i + 1;
      }
      assert tables[..i] == tables;
      BlocksWanted(tables, base);
    }

    /** One CREATE of the loop. */
    method CreateAligned(t: TableName, base: int) returns (ok: bool)
      requires Aligned(parts) && OnGrid(base)
      modifies this`parts
      ensures ok && Aligned(parts) && parts.Keys == old(parts).Keys + {Part(t, base)}
    {
      AlignedCreate(parts, t, base);
      ok := CreateNamed(t, base, base + STEP);
    }

    /** Creation as a step of the model. */
    method CreateNamed(t: TableName, from: int, to: int) returns (ok: bool)
      requires ProperRanges(parts)
      modifies this`parts
      ensures ok <==> Create(old(parts), Part(t, from), from, to).Some?
      ensures parts == if ok then Create(old(parts), Part(t, from), from, to).value else old(parts)
    {
      ghost var before := parts;
      ok := CreateRangePartition(t, from, to);
      CreateIs(before, t, from, to, ok, parts);
    }

    /** `ensureCorePartitions`: it adds exactly the partitions that the heights from minH to maxH need. */
    method EnsureCorePartitions(minH: int, maxH: Option<int>) returns (ok: bool)
      requires Aligned(parts)
      modifies this`parts
      ensures ok && Aligned(parts)
      ensures parts.Keys == old(parts).Keys + Wanted(Base(minH), Base(UpTo(minH, maxH)) + STEP)
      ensures forall t, h :: t in RANGE_TABLES && minH <= h <= UpTo(minH, maxH) ==> TakenOnce(parts, t, h)
      ensures forall t, h :: t in FLUSHED && minH <= h <= UpTo(minH, maxH) ==> TakenOnce(parts, t, h)
    {
      var base, endBase := Base(minH), Base(UpTo(minH, maxH));
      BaseOf(minH);
      BaseOf(UpTo(minH, maxH));
      ok := EnsureBases(base, endBase);
      AllTaken(parts, minH, UpTo(minH, maxH));
    }

    /** The loop over the bases. */
    method EnsureBases(startBase: int, endBase: int) returns (ok: bool)
      requires Aligned(parts) && OnGrid(startBase) && OnGrid(endBase)
      modifies this`parts
      ensures ok && Aligned(parts) && parts.Keys == old(parts).Keys + Wanted(startBase, endBase + STEP)
    {
      ok := true;
      var base := startBase;
      BlocksIsRangeTable();
      while base <= endBase
        invariant startBase <= base && (base <= endBase + STEP || base == startBase) && OnGrid(base)
        invariant ok && Aligned(parts) && parts.Keys == old(parts).Keys + Wanted(startBase, base)
      {
        WantedStep(startBase, base);
        ok := EnsureBase(RANGE_TABLES, base);
        StepOn(base);
        base := base + STEP;
      }
      WantedUpTo(startBase, base, endBase);
    }

    /** `util.ensure_next_height_partition`. */
    method EnsureNextHeightPartition(t: TableName) returns (ok: bool)
      requires ProperRanges(parts)
      modifies this
      ensures ok <==> EnsureNext(old(Now()), t).Some?
      ensures Now() == if ok then EnsureNext(old(Now()), t).value else old(Now())
    {
      if t !in ranges { return false; }
      var cfg := ranges[t];
      var fromH, toH := cfg.currentTo, cfg.currentTo + cfg.span;
      ok := CreateMissing(t, fromH, toH);
      if ok { ranges := ranges[t := cfg.(currentTo := toH)]; }
    }

    /** The look-up of the name, and the CREATE if it is not found. */
    method CreateMissing(t: TableName, from: int, to: int) returns (ok: bool)
      requires ProperRanges(parts)
      modifies this`parts
      ensures ok <==> Create(old(parts), Part(t, from), from, to).Some?
      ensures parts == if ok then Create(old(parts), Part(t, from), from, to).value else old(parts)
    {
      if Part(t, from) in parts { return true; }
      ok := CreateNamed(t, from, to);
    }

    /** The bootstrap for one configured table: up to the target height, then some more steps. */
    method BootstrapTable(t: TableName, target: int, steps: int) returns (ok: bool)
      requires Aligned(parts) && Tracked(Now()) && t in ranges
      modifies this
      ensures ok && Aligned(parts) && Tracked(Now()) && ranges.Keys == old(ranges).Keys
      ensures old(parts).Keys <= parts.Keys && (target > 0 ==> ranges[t].currentTo >= target)
      ensures forall u :: u in ranges && u != t ==> ranges[u] == old(ranges)[u]
      ensures forall h :: 0 <= h < target ==> TakenOnce(parts, t, h)
    {
      ok := true;
      if target > 0 { ok := ReachTarget(t, target); }
      var i := 0;
      while i < steps
        invariant ok && Further(t, old(Now())) && (target > 0 ==> ranges[t].currentTo >= target)
      {
        EnsureNextKeeps(Now(), t);
        ok := EnsureNextHeightPartition(t);
        i := i + 1;
      }
      forall h | 0 <= h < target ensures TakenOnce(parts, t, h) { TrackedTakes(Now(), t, target, h); }
    }

    /** What the bootstrap of table `t` keeps, and how far it may have come. */
    ghost predicate Further(t: TableName, before: Schema)
      reads this
    {
      && Aligned(parts) && Tracked(Now()) && t in ranges && ranges.Keys == before.ranges.Keys
      && before.parts.Keys <= parts.Keys && (forall u :: u in ranges && u != t ==> ranges[u] == before.ranges[u])
    }

    /** The WHILE loop: it ends, because every call moves the bound on by a million. */
    method ReachTarget(t: TableName, target: int) returns (ok: bool)
      requires Aligned(parts) && Tracked(Now()) && t in ranges
      modifies this
      ensures ok && Further(t, old(Now())) && ranges[t].currentTo >= target
    {
      ok := true;
      while ranges[t].currentTo < target
        invariant ok && Further(t, old(Now()))
        decreases target - ranges[t].currentTo
      {
        EnsureNextKeeps(Now(), t);
        ok := EnsureNextHeightPartition(t);
      }
    }
  }

  /** The bootstrap over the rows of util.height_part_ranges, in whatever order the query returns them. */
  method Bootstrap(c: Catalog, rows: seq<TableName>, target: int, steps: int) returns (ok: bool)
    requires Aligned(c.parts) && Tracked(c.Now()) && forall t :: t in c.ranges <==> t in rows
    modifies c
    ensures ok && Aligned(c.parts) && Tracked(c.Now()) && old(c.parts).Keys <= c.parts.Keys
    ensures forall t, h :: t in rows && 0 <= h < target ==> TakenOnce(c.parts, t, h)
  {
    ok := true;
    for i := 0 to |rows|
      invariant ok && Aligned(c.parts) && Tracked(c.Now()) && c.ranges.Keys == old(c.ranges).Keys
      invariant old(c.parts).Keys <= c.parts.Keys
      invariant forall t, h :: t in rows[..i] && 0 <= h < target ==> TakenOnce(c.parts, t, h)
    {
      ghost var before := c.parts;
      ok := c.BootstrapTable(rows[i], target, steps);
      forall t, h | t in rows[..i + 1] && 0 <= h < target ensures TakenOnce(c.parts, t, h) {
        if t != rows[i] { StaysTaken(before, c.parts, t, h); }
      }
    }
    assert rows[..|rows|] == rows;
  }

  lemma StaysTaken(parts: map<Part, Range>, more: map<Part, Range>, t: TableName, h: int)
    requires Aligned(parts) && Aligned(more) && parts.Keys <= more.Keys && TakenOnce(parts, t, h)
    ensures TakenOnce(more, t, h)
  {
    TakenIff(parts, t, h);
    TakenIff(more, t, h);
    assert Part(t, Base(h)) in parts.Keys;
  }

  /** `maxH ?? minH`. */
  function UpTo(minH: int, maxH: Option<int>): int { if maxH.Some? then maxH.value else minH }

  lemma WantedUpTo(startBase: int, base: int, endBase: int)
    requires OnGrid(base) && OnGrid(endBase) && base > endBase
    requires base <= endBase + STEP || base == startBase
    ensures Wanted(startBase, base) == Wanted(startBase, endBase + STEP)
  {
    if base <= endBase + STEP {
      NextMultiple(endBase + STEP, base);
    } else {
      assert Wanted(base, base) == {} && Wanted(base, endBase + STEP) == {};
    }
  }

  lemma BlocksIsRangeTable()
    ensures BLOCKS in RANGE_TABLES
  {
    assert RANGE_TABLES[0] == BLOCKS;
  }

  lemma AllTaken(parts: map<Part, Range>, minH: int, maxH: int)
    requires Aligned(parts) && Wanted(Base(minH), Base(maxH) + STEP) <= parts.Keys
    ensures forall t, h :: t in RANGE_TABLES && minH <= h <= maxH ==> TakenOnce(parts, t, h)
  {
    forall t, h | t in RANGE_TABLES && minH <= h <= maxH ensures TakenOnce(parts, t, h) {
      WantedTakes(t, h, minH, maxH);
      assert Part(t, Base(h)) in parts.Keys;
      TakenIff(parts, t, h);
    }
  }

  lemma WantedTakes(t: TableName, h: int, minH: int, maxH: int)
    requires t in RANGE_TABLES && minH <= h <= maxH
    ensures Part(t, Base(h)) in Wanted(Base(minH), Base(maxH) + STEP)
  {
    BaseOf(h);
    BaseGrows(minH, h);
    BaseGrows(h, maxH);
    var i :| 0 <= i < |RANGE_TABLES| && RANGE_TABLES[i] == t;
  }

  lemma TrackedTakes(s: Schema, t: TableName, target: int, h: int)
    requires Aligned(s.parts) && Tracked(s) && t in s.ranges && 0 <= h < target <= s.ranges[t].currentTo
    ensures TakenOnce(s.parts, t, h)
  {
    BaseOf(h);
    assert Part(t, Base(h)) in s.parts;
    TakenIff(s.parts, t, h);
  }
}
