/**
 * The rows of the futures market table and `applySortAndSearch`, which both
 * table components define identically: a case-insensitive substring filter
 * on the symbol, then a stable sort of a copy by one column.
 */
module MarketView {
  import opened Text
  import opened JsNumbers
  import StableSort

  /** One row of the table; every field is kept as the exchange sent it. */
  datatype MarketRow = MarketRow(
    symbol: string,
    lastPrice: string,
    volume: string,
    quoteVolume: string,
    priceChangePercent: string,
    fundingRate: string)

  datatype Column = Symbol | LastPrice | QuoteVolume | PriceChangePercent | FundingRate

  datatype Direction = Asc | Desc

  /** The click-to-sort state starts on volume, largest first. */
  const InitialColumn: Column := QuoteVolume
  const InitialDirection: Direction := Desc

  function Field(row: MarketRow, col: Column): string
  {
    match col
    case Symbol => row.symbol
    case LastPrice => row.lastPrice
    case QuoteVolume => row.quoteVolume
    case PriceChangePercent => row.priceChangePercent
    case FundingRate => row.fundingRate
  }

  /** A numeric sort key: a value that does not parse sorts as -Infinity. */
  datatype Key = NegInfinity | Value(v: real)

  function KeyOf(n: Number): (k: Key)
    ensures k.NegInfinity? <==> n.NaN?
    ensures n.Finite? ==> k == Value(n.value)
  {
    match n
    case NaN => NegInfinity
    case Finite(v) => Value(v)
  }

  predicate KeyLess(a: Key, b: Key)
  {
    match (a, b)
    case (NegInfinity, Value(_)) => true
    case (Value(x), Value(y)) => x < y
    case _ => false
  }

  /** The key of `row` in a numeric column. */
  function NumericKey(row: MarketRow, col: Column, parse: string -> Number): Key
  {
    KeyOf(parse(Field(row, col)))
  }

  /** Whether the column compares parsed numbers rather than strings. */
  predicate IsNumeric(col: Column)
  {
    col != Symbol
  }

  /** `a < b` for the values the comparator looks at. */
  predicate RowLess(col: Column, parse: string -> Number, a: MarketRow, b: MarketRow)
  {
    if col == Symbol then LexLess(a.symbol, b.symbol)
    else KeyLess(NumericKey(a, col, parse), NumericKey(b, col, parse))
  }

  /** The comparator handed to `sort`: -1, 0 or 1, flipped for descending order. */
  function Compare(col: Column, dir: Direction, parse: string -> Number, a: MarketRow, b: MarketRow): (r: int)
  {
    if RowLess(col, parse, a, b) then (if dir == Asc then -1 else 1)
    else if RowLess(col, parse, b, a) then (if dir == Asc then 1 else -1)
    else 0
  }

  function Comparator(col: Column, dir: Direction, parse: string -> Number): (MarketRow, MarketRow) -> int
  {
    (a, b) => Compare(col, dir, parse, a, b)
  }

  lemma RowLessStrictTotal(col: Column, parse: string -> Number, a: MarketRow, b: MarketRow, c: MarketRow)
    ensures !(RowLess(col, parse, a, b) && RowLess(col, parse, b, a))
    ensures RowLess(col, parse, a, b) && RowLess(col, parse, b, c) ==> RowLess(col, parse, a, c)
    ensures !RowLess(col, parse, a, b) && !RowLess(col, parse, b, a) && RowLess(col, parse, a, c) ==> RowLess(col, parse, b, c)
  {
    if col == Symbol {
      if LexLess(a.symbol, b.symbol) { LexLessAsymmetric(a.symbol, b.symbol); }
      if LexLess(a.symbol, b.symbol) && LexLess(b.symbol, c.symbol) {
        LexLessTransitive(a.symbol, b.symbol, c.symbol);
      }
      if !LexLess(a.symbol, b.symbol) && !LexLess(b.symbol, a.symbol) && a.symbol != b.symbol {
        LexLessTotal(a.symbol, b.symbol);
      }
    }
  }

  /**
   * Descending order is ascending order reversed: the comparator's answer
   * for `Desc` is the negation of its answer for `Asc`.
   */
  lemma DescReversesAsc(col: Column, parse: string -> Number, a: MarketRow, b: MarketRow)
    ensures Compare(col, Desc, parse, a, b) == -Compare(col, Asc, parse, a, b)
    ensures Compare(col, Asc, parse, a, b) < 0 <==> RowLess(col, parse, a, b)
    ensures Compare(col, Asc, parse, a, b) > 0 <==> RowLess(col, parse, b, a)
  {
    RowLessStrictTotal(col, parse, a, b, a);
  }

  /** Every column and direction gives a comparator `sort` can rely on. */
  lemma ComparatorConsistent(col: Column, dir: Direction, parse: string -> Number)
    ensures StableSort.ConsistentOn(Comparator(col, dir, parse), (r: MarketRow) => true)
  {
    var cmp := Comparator(col, dir, parse);
    forall a: MarketRow, b: MarketRow | cmp(a, b) > 0 ensures cmp(b, a) < 0 {
      RowLessStrictTotal(col, parse, a, b, a);
    }
    forall a: MarketRow, b: MarketRow, c: MarketRow | cmp(a, b) <= 0 && cmp(b, c) <= 0
      ensures cmp(a, c) <= 0
    {
      RowLessStrictTotal(col, parse, a, b, c);
      RowLessStrictTotal(col, parse, b, c, a);
      RowLessStrictTotal(col, parse, c, a, b);
      RowLessStrictTotal(col, parse, a, c, b);
      RowLessStrictTotal(col, parse, b, a, c);
      RowLessStrictTotal(col, parse, c, b, a);
    }
  }

  /** The search box matches a row when the lower-cased symbol contains the lower-cased text. */
  predicate Matches(row: MarketRow, search: string)
  {
    search == "" || Contains(Lower(row.symbol), Lower(search))
  }

  /** The rows the search keeps, in their original order. */
  function FilterBySearch(rows: seq<MarketRow>, search: string): (r: seq<MarketRow>)
    ensures |r| <= |rows|
  {
    if |rows| == 0 then []
    else (if Matches(rows[0], search) then [rows[0]] else []) + FilterBySearch(rows[1..], search)
  }

  /**
   * With an empty search every row is kept; otherwise exactly the rows
   * whose lower-cased symbol contains the lower-cased text, each at most
   * as often as before.
   */
  lemma {:induction false} FilterBySearchSpec(rows: seq<MarketRow>, search: string)
    ensures forall x :: x in FilterBySearch(rows, search) <==> x in rows && Matches(x, search)
    ensures multiset(FilterBySearch(rows, search)) <= multiset(rows)
    ensures search == "" ==> FilterBySearch(rows, search) == rows
  {
    if |rows| > 0 {
      FilterBySearchSpec(rows[1..], search);
      assert rows == [rows[0]] + rows[1..];
    }
  }

  lemma {:induction false} FilterIdempotent(rows: seq<MarketRow>, search: string)
    ensures FilterBySearch(FilterBySearch(rows, search), search) == FilterBySearch(rows, search)
  {
    if |rows| > 0 {
      FilterIdempotent(rows[1..], search);
      var tail := FilterBySearch(rows[1..], search);
      if Matches(rows[0], search) {
        var r := [rows[0]] + tail;
        assert FilterBySearch(rows, search) == r;
        assert r[0] == rows[0] && r[1..] == tail;
        assert FilterBySearch(r, search) == [rows[0]] + FilterBySearch(tail, search);
      } else {
        assert FilterBySearch(rows, search) == tail;
      }
    }
  }

  /** `applySortAndSearch(data, sortBy, sortDir, search)` as a value. */
  function SortAndSearch(data: seq<MarketRow>, col: Column, dir: Direction, search: string, parse: string -> Number): seq<MarketRow>
  {
    StableSort.Sort(FilterBySearch(data, search), Comparator(col, dir, parse))
  }

  /** Filters, then sorts a fresh copy in place; `data` itself is a value and stays as it was. */
  method ApplySortAndSearch(data: seq<MarketRow>, col: Column, dir: Direction, search: string, parse: string -> Number)
    returns (r: seq<MarketRow>)
    ensures r == SortAndSearch(data, col, dir, search, parse)
  {
    var filtered := FilterBySearch(data, search);
    var copy := new MarketRow[|filtered|](i requires 0 <= i < |filtered| => filtered[i]);
    assert copy[..] == filtered;
    StableSort.InsertionSort(copy, Comparator(col, dir, parse));
    r := copy[..];
  }

  /** The result holds exactly the matching rows, each as often as in the input. */
  lemma SortAndSearchPermutation(data: seq<MarketRow>, col: Column, dir: Direction, search: string, parse: string -> Number)
    ensures multiset(SortAndSearch(data, col, dir, search, parse)) == multiset(FilterBySearch(data, search))
    ensures forall x :: x in SortAndSearch(data, col, dir, search, parse) <==> x in data && Matches(x, search)
  {
    var r := SortAndSearch(data, col, dir, search, parse);
    FilterBySearchSpec(data, search);
    forall x ensures x in r <==> x in FilterBySearch(data, search) {
      assert x in r <==> x in multiset(r);
    }
  }

  /** The result is ordered by the clicked column in the chosen direction. */
  lemma SortAndSearchOrdered(data: seq<MarketRow>, col: Column, dir: Direction, search: string, parse: string -> Number)
    ensures StableSort.Sorted(SortAndSearch(data, col, dir, search, parse), Comparator(col, dir, parse))
  {
    ComparatorConsistent(col, dir, parse);
    StableSort.SortSorted(FilterBySearch(data, search), Comparator(col, dir, parse), (r: MarketRow) => true);
  }

  /**
   * In a numeric column the rows whose value does not parse come first in
   * ascending order and last in descending order.
   */
  lemma UnparsableAtTheEnds(data: seq<MarketRow>, col: Column, dir: Direction, search: string, parse: string -> Number, i: int, j: int)
    requires IsNumeric(col)
    requires 0 <= i < j < |SortAndSearch(data, col, dir, search, parse)|
    ensures var r := SortAndSearch(data, col, dir, search, parse);
      (dir == Asc && parse(Field(r[j], col)).NaN? ==> parse(Field(r[i], col)).NaN?) &&
      (dir == Desc && parse(Field(r[i], col)).NaN? ==> parse(Field(r[j], col)).NaN?)
  {
    var r := SortAndSearch(data, col, dir, search, parse);
    SortAndSearchOrdered(data, col, dir, search, parse);
    assert Comparator(col, dir, parse)(r[i], r[j]) <= 0;
  }

  /** Applying the same search and sort to its own result changes nothing. */
  lemma SortAndSearchIdempotent(data: seq<MarketRow>, col: Column, dir: Direction, search: string, parse: string -> Number)
    ensures SortAndSearch(SortAndSearch(data, col, dir, search, parse), col, dir, search, parse)
         == SortAndSearch(data, col, dir, search, parse)
  {
    var cmp := Comparator(col, dir, parse);
    var f := FilterBySearch(data, search);
    var r := StableSort.Sort(f, cmp);
    SortAndSearchPermutation(data, col, dir, search, parse);
    assert FilterBySearch(r, search) == r by {
      FilterKeepsAllMatching(r, search);
    }
    ComparatorConsistent(col, dir, parse);
    StableSort.SortIdempotent(f, cmp, (x: MarketRow) => true);
  }

  lemma {:induction false} FilterKeepsAllMatching(rows: seq<MarketRow>, search: string)
    requires forall x :: x in rows ==> Matches(x, search)
    ensures FilterBySearch(rows, search) == rows
  {
    if |rows| > 0 {
      FilterKeepsAllMatching(rows[1..], search);
      assert [rows[0]] + rows[1..] == rows;
    }
  }
}
