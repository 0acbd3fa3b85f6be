/** Multi-row INSERT statements: placeholder numbering and the splitting of rows into statements. */
module Batch {
  import opened Blocks
  import opened Sequences

  // ------------------------------------------------------------------ makeMultiInsert

  datatype Placeholder = Placeholder(number: nat, cast: Option<string>)

  /** `r[c] ?? null`: a missing column and a null one are both stored as NULL. */
  function Cell<V>(row: map<string, Option<V>>, column: string): Option<V> {
    if column in row then row[column] else None
  }

  function CastOf(types: map<string, string>, column: string): Option<string> {
    if column in types && types[column] != "" then Some(types[column]) else None
  }

  /** The placeholder at row i, column j has number i * columns + j + 1 and carries the cell of row i, column j. */
  ghost predicate Carries<V(!new)>(columns: seq<string>, rows: seq<map<string, Option<V>>>, types: map<string, string>,
                             chunks: seq<seq<Placeholder>>, values: seq<Option<V>>)
  {
    && |values| == |rows| * |columns|
    && |chunks| == |rows|
    && forall i :: 0 <= i < |rows| ==> RowCarried(columns, rows[i], types, chunks[i], values, i * |columns|)
  }

  /** The tuple of one row numbers its columns onwards from `first` + 1. */
  ghost predicate RowCarried<V(!new)>(columns: seq<string>, row: map<string, Option<V>>, types: map<string, string>,
                                tuple: seq<Placeholder>, values: seq<Option<V>>, first: int)
  {
    && |tuple| == |columns| && 0 <= first <= |values| - |columns|
    && forall j :: 0 <= j < |columns| ==>
         && tuple[j].number == first + j + 1
         && tuple[j].cast == (if columns[j] in types && types[columns[j]] != "" then Some(types[columns[j]]) else None)
         && values[first + j] == (if columns[j] in row then row[columns[j]] else None)
  }

  method MakeMultiInsert<V(!new)>(columns: seq<string>, rows: seq<map<string, Option<V>>>, types: map<string, string>)
    returns (chunks: seq<seq<Placeholder>>, values: seq<Option<V>>)
    ensures Carries(columns, rows, types, chunks, values)
  {
    values, chunks := [], [];
    var p := 1;
    var i := 0;
    while i < |rows|
      invariant 0 <= i <= |rows|
      invariant p == i * |columns| + 1
      invariant Carries(columns, rows[..i], types, chunks, values)
    {
      var tuple: seq<Placeholder> := [];
      ghost var base := values;
      ghost var first := i * |columns|;
      var j := 0;
      while j < |columns|
        invariant 0 <= j <= |columns| && |tuple| == j && |values| == first + j && p == first + j + 1
        invariant base <= values
        invariant forall k :: 0 <= k < j ==>
                    tuple[k] == Placeholder(first + k + 1, CastOf(types, columns[k])) &&
                    values[first + k] == Cell(rows[i], columns[k])
      {
        values := values + [Cell(rows[i], columns[j])];
        tuple := tuple + [Placeholder(p, CastOf(types, columns[j]))];
        p := p + 1;
        j := j + 1;
      }
      ghost var before := chunks;
      chunks := chunks + [tuple];
      CarriesOneMore(columns, rows, types, before, base, tuple, values, i);
      i := i + 1;
    }
    assert rows[..i] == rows;
  }

  lemma CarriesOneMore<V(!new)>(columns: seq<string>, rows: seq<map<string, Option<V>>>, types: map<string, string>,
                          chunks: seq<seq<Placeholder>>, base: seq<Option<V>>,
                          tuple: seq<Placeholder>, values: seq<Option<V>>, i: nat)
    requires i < |rows| && Carries(columns, rows[..i], types, chunks, base)
    requires base <= values && RowCarried(columns, rows[i], types, tuple, values, i * |columns|)
    requires |values| == i * |columns| + |columns|
    ensures Carries(columns, rows[..i + 1], types, chunks + [tuple], values)
  {
    var cs := chunks + [tuple];
    assert (i + 1) * |columns| == i * |columns| + |columns|;
    forall a | 0 <= a < i + 1
      ensures RowCarried(columns, rows[..i + 1][a], types, cs[a], values, a * |columns|)
    {
      if a < i {
        assert RowCarried(columns, rows[..i][a], types, chunks[a], base, a * |columns|);
      }
    }
  }

  // ------------------------------------------------------------------ execBatchedInsert

  /** How many rows the inner loop of `execBatchedInsert` gathers from `remaining` rows, `count` being gathered. */
  function Gathered(remaining: nat, width: nat, maxRows: int, maxParams: int, count: nat): nat
    requires count <= remaining
    decreases remaining - count
  {
    if count < remaining && count < maxRows && count * width + width <= maxParams
    then Gathered(remaining, width, maxRows, maxParams, count + 1)
    else count
  }

  /** Rows per statement, for a statement of `width` >= 1 columns. */
  function RowLimit(width: nat, maxRows: int, maxParams: int): int
    requires width >= 1
  {
    Min(maxRows, maxParams / width)
  }

  lemma WithinParams(count: nat, width: nat, maxParams: int)
    requires width >= 1
    ensures count * width + width <= maxParams <==> count < maxParams / width
  {
    var q := maxParams / width;
    assert maxParams == q * width + maxParams % width;
    if count < q {
      assert (count + 1) * width <= q * width;
      assert (count + 1) * width == count * width + width;
    } else {
      assert q * width <= count * width;
    }
  }

  lemma {:induction false} GatheredIsLimit(remaining: nat, width: nat, maxRows: int, maxParams: int, count: nat)
    requires width >= 1 && count <= remaining
    ensures Gathered(remaining, width, maxRows, maxParams, count) ==
            (if count < Min(remaining, RowLimit(width, maxRows, maxParams))
             then Min(remaining, RowLimit(width, maxRows, maxParams)) else count)
    decreases remaining - count
  {
    WithinParams(count, width, maxParams);
    if count < remaining && count < maxRows && count * width + width <= maxParams {
      GatheredIsLimit(remaining, width, maxRows, maxParams, count + 1);
    }
  }

  /**
   The outer loop advances by what the inner loop gathers, so it ends exactly when a statement can
   hold at least one row; with a row limit below one, or more columns than parameters, it repeats
   forever on an empty slice.
   */
  lemma AdvancesIff(remaining: nat, width: nat, maxRows: int, maxParams: int)
    requires remaining > 0
    ensures Gathered(remaining, width, maxRows, maxParams, 0) > 0 <==> maxRows >= 1 && width <= maxParams
  {
    if maxRows >= 1 && width <= maxParams {
      GatheredGrows(remaining, width, maxRows, maxParams, 1);
    }
  }

  lemma GatheredGrows(remaining: nat, width: nat, maxRows: int, maxParams: int, count: nat)
    requires count <= remaining
    ensures Gathered(remaining, width, maxRows, maxParams, count) >= count
    decreases remaining - count
  {
    if count < remaining && count < maxRows && count * width + width <= maxParams {
      GatheredGrows(remaining, width, maxRows, maxParams, count + 1);
    }
  }

  /** The slices one after the other are the rows, none is empty, and none exceeds a limit. */
  ghost predicate Splits<T>(rows: seq<T>, width: nat, maxRows: int, maxParams: int, slices: seq<seq<T>>) {
    && Concat(slices) == rows
    && forall k :: 0 <= k < |slices| ==> 1 <= |slices[k]| <= maxRows && |slices[k]| * width <= maxParams
  }

  function CeilDiv(n: nat, d: nat): nat
    requires d >= 1
  {
    (n + d - 1) / d
  }

  /** Statements needed for `n` rows when each takes as many as it can. */
  function Statements(n: nat, limit: int): nat {
    if n == 0 || limit < 1 then 0 else 1 + Statements(n - Min(n, limit), limit)
  }

  lemma {:induction false} StatementsIsCeil(n: nat, limit: nat)
    requires limit >= 1
    ensures Statements(n, limit) == CeilDiv(n, limit)
  {
    if n == 0 {
      DivIs(limit - 1, limit, 0);
    } else {
      CeilDivStep(n, limit);
      StatementsIsCeil(n - Min(n, limit), limit);
      DivIs(limit - 1, limit, 0);
    }
  }

  lemma CeilDivStep(n: nat, d: nat)
    requires d >= 1 && n > 0
    ensures CeilDiv(n, d) == 1 + (if n <= d then 0 else CeilDiv(n - d, d))
  {
    if n <= d {
      assert 1 * d <= n + d - 1 < 2 * d;
      DivIs(n + d - 1, d, 1);
    } else {
      var q := (n - 1) / d;
      assert n - 1 == q * d + (n - 1) % d;
      assert (q + 1) * d == q * d + d && (q + 2) * d == q * d + d + d;
      DivIs(n + d - 1, d, q + 1);
    }
  }

  lemma DivIs(n: nat, d: nat, q: nat)
    requires d >= 1 && q * d <= n < (q + 1) * d
    ensures n / d == q
  {
    var r := n / d;
    assert n == r * d + n % d;
    MulMonotone(r + 1, q, d);
    MulMonotone(q + 1, r, d);
  }

  lemma MulMonotone(a: nat, b: nat, d: nat)
    ensures a <= b ==> a * d <= b * d
  {
  }

  /** The inner loop: as many rows as the limits allow. */
  method GatherRows(remaining: nat, width: nat, maxRows: int, maxParams: int) returns (count: nat, params: nat)
    requires 1 <= width <= maxParams && maxRows >= 1
    ensures count == Gathered(remaining, width, maxRows, maxParams, 0) == Min(remaining, RowLimit(width, maxRows, maxParams))
    ensures params == count * width <= maxParams && count <= maxRows
  {
    count, params := 0, 0;
    while count < remaining
      invariant count <= remaining && params == count * width <= maxParams && count <= maxRows
      invariant Gathered(remaining, width, maxRows, maxParams, count) == Gathered(remaining, width, maxRows, maxParams, 0)
    {
      var nextParams := params + width;
      assert (count + 1) * width == count * width + width;
      if count >= maxRows || nextParams > maxParams { break; }
      params := nextParams;
      count := count + 1;
    }
    WithinParams(0, width, maxParams);
    GatheredIsLimit(remaining, width, maxRows, maxParams, 0);
  }

  /** The rows in slices of `limit`, the last one with what is left. */
  function Slices<T>(rows: seq<T>, limit: nat): seq<seq<T>>
    requires limit >= 1
    decreases |rows|
  {
    if rows == [] then [] else [rows[..Min(|rows|, limit)]] + Slices(rows[Min(|rows|, limit)..], limit)
  }

  lemma {:induction false} SlicesConcat<T>(rows: seq<T>, limit: nat)
    requires limit >= 1
    ensures Concat(Slices(rows, limit)) == rows
    decreases |rows|
  {
    if rows != [] {
      var n := Min(|rows|, limit);
      SlicesConcat(rows[n..], limit);
      assert Slices(rows, limit)[1..] == Slices(rows[n..], limit);
      assert rows == rows[..n] + rows[n..];
    }
  }

  lemma {:induction false} SlicesCount<T>(rows: seq<T>, limit: nat)
    requires limit >= 1
    ensures |Slices(rows, limit)| == Statements(|rows|, limit)
    decreases |rows|
  {
    if rows != [] { SlicesCount(rows[Min(|rows|, limit)..], limit); }
  }

  /** What holds of every two places of one slice. */
  ghost predicate InEverySlice<T(!new)>(rows: seq<T>, limit: nat, p: (T, T) -> bool)
    requires limit >= 1
  {
    forall s <- Slices(rows, limit) :: forall i, j :: 0 <= i < j < |s| ==> p(s[i], s[j])
  }

  /** Two rows go into one statement if and only if their places have the same quotient by the row limit. */
  lemma {:induction false} SameSliceIff<T(!new)>(rows: seq<T>, limit: nat, p: (T, T) -> bool)
    requires limit >= 1
    ensures InEverySlice(rows, limit, p) <==>
            forall i, j :: 0 <= i < j < |rows| && i / limit == j / limit ==> p(rows[i], rows[j])
    decreases |rows|
  {
    if rows != [] {
      var n := Min(|rows|, limit);
      var rest := rows[n..];
      SameSliceIff(rest, limit, p);
      SplitFirst(rows, limit, p);
      if InEverySlice(rows, limit, p) {
        forall i, j | 0 <= i < j < |rows| && i / limit == j / limit ensures p(rows[i], rows[j]) {
          Quotient(i, limit);
          Quotient(j, limit);
          if i < n {
            assert rows[..n][i] == rows[i] && rows[..n][j] == rows[j];
          } else {
            assert rest[i - n] == rows[i] && rest[j - n] == rows[j];
          }
        }
      }
      if forall i, j :: 0 <= i < j < |rows| && i / limit == j / limit ==> p(rows[i], rows[j]) {
        forall i, j | 0 <= i < j < n ensures p(rows[..n][i], rows[..n][j]) {
          Quotient(i, limit);
          Quotient(j, limit);
          assert p(rows[i], rows[j]);
        }
        forall i, j | 0 <= i < j < |rest| && i / limit == j / limit ensures p(rest[i], rest[j]) {
          Quotient(i + n, limit);
          Quotient(j + n, limit);
          assert p(rows[i + n], rows[j + n]);
        }
      }
    }
  }

  lemma SplitFirst<T(!new)>(rows: seq<T>, limit: nat, p: (T, T) -> bool)
    requires limit >= 1 && rows != []
    ensures var n := Min(|rows|, limit);
            InEverySlice(rows, limit, p) <==>
            (forall i, j :: 0 <= i < j < n ==> p(rows[..n][i], rows[..n][j])) && InEverySlice(rows[n..], limit, p)
  {
    var n := Min(|rows|, limit);
    assert Slices(rows, limit) == [rows[..n]] + Slices(rows[n..], limit);
    assert rows[..n] in Slices(rows, limit);
    assert forall s :: s in Slices(rows, limit) <==> s == rows[..n] || s in Slices(rows[n..], limit);
  }

  /** The quotient of a place in the first slice is 0, and one slice further it is one more. */
  lemma Quotient(i: nat, limit: nat)
    requires limit >= 1
    ensures i < limit ==> i / limit == 0
    ensures i >= limit ==> i / limit == (i - limit) / limit + 1
  {
    if i < limit {
      DivIs(i, limit, 0);
    } else {
      var q := (i - limit) / limit;
      assert i - limit == q * limit + (i - limit) % limit;
      assert (q + 1) * limit == q * limit + limit && (q + 2) * limit == q * limit + limit + limit;
      DivIs(i, limit, q + 1);
    }
  }

  lemma SplitsAppend<T>(rows: seq<T>, i: nat, count: nat, width: nat, maxRows: int, maxParams: int, slices: seq<seq<T>>)
    requires i + count <= |rows| && 1 <= count <= maxRows && count * width <= maxParams
    requires Splits(rows[..i], width, maxRows, maxParams, slices)
    ensures Splits(rows[..i + count], width, maxRows, maxParams, slices + [rows[i..i + count]])
  {
    ConcatAppend(slices, rows[i..i + count]);
    assert rows[..i + count] == rows[..i] + rows[i..i + count];
  }

  lemma SlicesStep<T>(rows: seq<T>, i: nat, count: nat, limit: nat)
    requires limit >= 1 && i < |rows| && count == Min(|rows| - i, limit)
    ensures Slices(rows[i..], limit) == [rows[i..i + count]] + Slices(rows[i + count..], limit)
  {
    assert rows[i..][..count] == rows[i..i + count] && rows[i..][count..] == rows[i + count..];
  }

  /**
   `execBatchedInsert`: the row slices of the statements it issues, in order. The two requirements are
   the ones without which the loop in the source does not terminate (AdvancesIff).
   */
  method ExecBatchedInsert<T>(rows: seq<T>, width: nat, maxRows: int, maxParams: int) returns (slices: seq<seq<T>>)
    requires 1 <= width <= maxParams && maxRows >= 1
    ensures Splits(rows, width, maxRows, maxParams, slices)
    ensures RowLimit(width, maxRows, maxParams) >= 1
    ensures |slices| == CeilDiv(|rows|, RowLimit(width, maxRows, maxParams))
    ensures slices == Slices(rows, RowLimit(width, maxRows, maxParams))
  {
    slices := [];
    ghost var limit := RowLimit(width, maxRows, maxParams);
    WithinParams(0, width, maxParams);
    var i := 0;
    while i < |rows|
      invariant 0 <= i <= |rows|
      invariant Splits(rows[..i], width, maxRows, maxParams, slices)
      invariant slices + Slices(rows[i..], limit) == Slices(rows, limit)
      decreases |rows| - i
    {
      var count, params := GatherRows(|rows| - i, width, maxRows, maxParams);
      SplitsAppend(rows, i, count, width, maxRows, maxParams, slices);
      var slice := rows[i..i + count];
      SlicesStep(rows, i, count, limit);
      slices := slices + [slice];
      i := i + count;
    }
    assert rows[..i] == rows;
    SlicesCount(rows, limit);
    StatementsIsCeil(|rows|, limit);
  }
}
