/** Where a process starts and ends its backfill, and how the follow loop tiles the heights behind it. */
module Follow {
  import opened Blocks
  import opened Recovery

  /** The table core.indexer_progress. */
  class ProgressTable {
    var rows: map<string, int>

    constructor ()
      ensures rows == map[]
    {
      rows := map[];
    }

    method GetProgress(id: string) returns (last: Option<int>)
      ensures last == if id in rows then Some(rows[id]) else None
    {
      if id in rows { return Some(rows[id]); }
      return None;
    }

    method UpsertProgress(id: string, lastHeight: int)
      modifies this
      ensures id in rows && rows[id] == lastHeight
      ensures forall other :: other != id ==> (other in rows <==> other in old(rows)) && (other in rows ==> rows[other] == old(rows)[other])
    {
      rows := rows[id := lastHeight];
    }
  }

  /** The part of `main` that settles the range of the backfill, for the postgres sink. */
  method ResolveRange(from: Option<int>, resume: bool, firstBlock: Option<int>, to: Option<int>,
                      table: ProgressTable, id: string, earliest: int, latest: int)
    returns (startFrom: int, endHeight: int)
    ensures startFrom == StartHeight(from, resume, firstBlock, earliest, if id in table.rows then Some(table.rows[id]) else None)
    ensures endHeight == if to.Some? && to.value != 0 then to.value else latest
    ensures id in table.rows && WantResume(from, resume) ==> startFrom == table.rows[id] + 1
  {
    var wantResume := from.None? || from.value == 0 || resume;
    if wantResume {
      var last := table.GetProgress(id);
      var explicitFrom := if from.Some? then from else firstBlock;
      if last.Some? {
        startFrom := last.value + 1;
      } else if explicitFrom.Some? {
        startFrom := explicitFrom.value;
      } else {
        startFrom := earliest;
      }
    } else {
      startFrom := from.value;
    }
    if to.Some? && to.value != 0 {
      endHeight := to.value;
    } else {
      endHeight := latest;
    }
  }

  // ------------------------------------------------------------------ the follow loop

  /** The range of one `syncRange` call. */
  datatype Span = Span(from: int, to: int)

  /** Non-empty spans, each beginning where the one before ends. */
  predicate Tiles(from: int, until: int, spans: seq<Span>)
    decreases |spans|
  {
    if spans == [] then from == until
    else spans[0].from == from && from <= spans[0].to && Tiles(spans[0].to + 1, until, spans[1..])
  }

  lemma {:induction false} TilesAppend(from: int, mid: int, spans: seq<Span>, to: int)
    requires Tiles(from, mid, spans) && mid <= to
    ensures Tiles(from, to + 1, spans + [Span(mid, to)])
    decreases |spans|
  {
    if spans == [] {
      assert (spans + [Span(mid, to)])[1..] == [];
    } else {
      assert (spans + [Span(mid, to)])[1..] == spans[1..] + [Span(mid, to)];
      TilesAppend(spans[0].to + 1, mid, spans[1..], to);
    }
  }

  predicate Holds(s: Span, h: int) { s.from <= h <= s.to }

  /** Tiles cover the heights from first to last, each of them once. */
  lemma {:induction false} TilesOnce(from: int, until: int, spans: seq<Span>, h: int)
    requires Tiles(from, until, spans)
    ensures from <= until
    ensures (exists i :: 0 <= i < |spans| && Holds(spans[i], h)) <==> from <= h < until
    ensures forall i, j :: 0 <= i < |spans| && 0 <= j < |spans| && Holds(spans[i], h) && Holds(spans[j], h) ==> i == j
    decreases |spans|
  {
    if spans != [] {
      var rest := spans[1..];
      TilesOnce(spans[0].to + 1, until, rest, h);
      assert forall i :: 0 <= i < |rest| ==> rest[i] == spans[i + 1];
      if Holds(spans[0], h) {
        forall i | 0 < i < |spans| ensures !Holds(spans[i], h) { assert spans[i] == rest[i - 1]; }
      } else {
        if i :| 0 <= i < |rest| && Holds(rest[i], h) { assert Holds(spans[i + 1], h); }
        forall i, j | 0 <= i < |spans| && 0 <= j < |spans| && Holds(spans[i], h) && Holds(spans[j], h) ensures i == j {
          assert Holds(rest[i - 1], h) && Holds(rest[j - 1], h);
        }
      }
    }
  }

  /** One past the highest height that the polls have shown, but no less than `next`. */
  function NextAfter(next: int, latests: seq<int>): int
    decreases |latests|
  {
    if latests == [] then next
    else NextAfter(if next <= latests[0] then latests[0] + 1 else next, latests[1..])
  }

  lemma {:induction false} NextAfterIs(next: int, latests: seq<int>)
    ensures NextAfter(next, latests) >= next && forall i :: 0 <= i < |latests| ==> latests[i] < NextAfter(next, latests)
    ensures NextAfter(next, latests) == next || exists i :: 0 <= i < |latests| && NextAfter(next, latests) == latests[i] + 1
    decreases |latests|
  {
    if latests != [] {
      NextAfterIs(if next <= latests[0] then latests[0] + 1 else next, latests[1..]);
      assert forall i :: 0 < i < |latests| ==> latests[i] == latests[1..][i - 1];
    }
  }

  /**
   `followLoop` over the heights that its polls show, which may also go back. Its ranges are never empty,
   so the promise of every `syncRange` call resolves.
   */
  method FollowLoop(startNext: int, latests: seq<int>) returns (spans: seq<Span>, next: int)
    ensures Tiles(startNext, next, spans)
    ensures next >= startNext && forall i :: 0 <= i < |latests| ==> latests[i] < next
    ensures next == startNext || exists i :: 0 <= i < |latests| && next == latests[i] + 1
  {
    NextAfterIs(startNext, latests);
    spans, next := [], startNext;
    for i := 0 to |latests|
      invariant Tiles(startNext, next, spans)
      invariant NextAfter(next, latests[i..]) == NextAfter(startNext, latests)
    {
      var latest := latests[i];
      assert latests[i..][0] == latest && latests[i..][1..] == latests[i + 1..];
      if next <= latest {
        var to := latest;
        TilesAppend(startNext, next, spans, to);
        spans := spans + [Span(next, to)];
        next := to + 1;
      }
    }
  }
}
