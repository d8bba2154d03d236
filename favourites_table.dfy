/**
 * The earlier revision of the market table: Binance only, a click on a
 * column header that starts ascending, favourites that any user may toggle,
 * and a fetch in which any failure ends in one error message.
 */
module FavouritesTableState {
  import opened Wrappers
  import opened Text
  import opened JsNumbers
  import opened MarketView
  import opened MarketFetch
  import opened Favourites
  import StableSort

  // ---------------------------------------------------------------------
  // The header click

  datatype SortState = SortState(column: Column, dir: Direction)

  /** A click on `col`: that column, descending only when it was already sorted ascending by it. */
  function HeaderClick(s: SortState, col: Column): SortState
  {
    SortState(col, if s.column == col && s.dir == Asc then Desc else Asc)
  }

  /**
   * A new column always starts ascending; further clicks on it alternate
   * the direction, so two clicks on the sorted column give back its state.
   */
  lemma HeaderClickCycle(s: SortState, col: Column)
    ensures HeaderClick(s, col).column == col
    ensures s.column != col ==> HeaderClick(s, col).dir == Asc
    ensures HeaderClick(HeaderClick(s, col), col).dir != HeaderClick(s, col).dir
    ensures s.column == col ==> HeaderClick(HeaderClick(s, col), col) == s
  {
  }

  // ---------------------------------------------------------------------
  // Ranking the pairs by volume

  /** `parseFloat(String(t.quoteVolume))`. */
  function QuoteVolumeKey(parse: string -> Number): BinanceTicker -> Number
  {
    (t: BinanceTicker) => parse(t.quoteVolume)
  }

  /** The ranking as written: sorted by `a.quoteVolume - b.quoteVolume`, smallest first, then the first 100. */
  function TopPairsAsWritten(usdt: seq<BinanceTicker>, parse: string -> Number): (r: seq<BinanceTicker>)
    ensures |r| <= TopCount && |r| == (if |usdt| <= TopCount then |usdt| else TopCount)
    ensures multiset(r) <= multiset(usdt)
  {
    var sorted := StableSort.Sort(usdt, SmallestFirst(QuoteVolumeKey(parse)));
    var r := Take(sorted, TopCount);
    assert sorted == r + sorted[|r|..];
    r
  }

  /** Every ranked pair is one of the `USDT` pairs it was ranked from. */
  lemma AsWrittenFromUsdt(usdt: seq<BinanceTicker>, parse: string -> Number)
    ensures forall x :: x in TopPairsAsWritten(usdt, parse) ==> x in usdt
  {
    var top := TopPairsAsWritten(usdt, parse);
    forall x | x in top ensures x in usdt {
      assert x in multiset(top);
    }
  }

  /** As written, with every volume a number, the kept pairs come smallest volume first. */
  lemma AsWrittenAscending(usdt: seq<BinanceTicker>, parse: string -> Number)
    requires forall z :: z in usdt ==> parse(z.quoteVolume).Finite?
    ensures var r := TopPairsAsWritten(usdt, parse);
      forall i, j :: 0 <= i < j < |r| ==>
        parse(r[i].quoteVolume).Finite? && parse(r[j].quoteVolume).Finite?
        && parse(r[i].quoteVolume).value <= parse(r[j].quoteVolume).value
  {
    var key := QuoteVolumeKey(parse);
    var sorted := StableSort.Sort(usdt, SmallestFirst(key));
    var r := TopPairsAsWritten(usdt, parse);
    RankingConsistent(key);
    StableSort.SortSorted(usdt, SmallestFirst(key), HasKey(key));
    TakeSorted(sorted, SmallestFirst(key), TopCount);
    assert forall z :: z in r ==> z in multiset(usdt);
    SmallestFirstOrdered(r, key);
  }

  /** As written, no kept pair has a larger volume than a dropped one. */
  lemma AsWrittenKeepsSmallest(usdt: seq<BinanceTicker>, parse: string -> Number, x: BinanceTicker, y: BinanceTicker)
    requires forall z :: z in usdt ==> parse(z.quoteVolume).Finite?
    requires x in TopPairsAsWritten(usdt, parse)
    requires y in StableSort.Sort(usdt, SmallestFirst(QuoteVolumeKey(parse)))[|TopPairsAsWritten(usdt, parse)|..]
    ensures parse(x.quoteVolume).Finite? && parse(y.quoteVolume).Finite?
    ensures parse(x.quoteVolume).value <= parse(y.quoteVolume).value
  {
    var key := QuoteVolumeKey(parse);
    var cmp := SmallestFirst(key);
    var sorted := StableSort.Sort(usdt, cmp);
    RankingConsistent(key);
    StableSort.SortSorted(usdt, cmp, HasKey(key));
    TakeOfSorted(sorted, cmp, TopCount, x, y);
    assert x in multiset(sorted) && y in multiset(sorted);
  }

  /**
   * With more than 100 pairs, the pair with the largest volume, when no
   * other pair matches it, is not among those shown.
   */
  lemma AsWrittenDropsLargest(usdt: seq<BinanceTicker>, parse: string -> Number, z: BinanceTicker)
    requires |usdt| > TopCount
    requires forall w :: w in usdt ==> parse(w.quoteVolume).Finite?
    requires z in usdt && multiset(usdt)[z] == 1
    requires forall w :: w in usdt && w != z ==> parse(w.quoteVolume).value < parse(z.quoteVolume).value
    ensures z !in TopPairsAsWritten(usdt, parse)
  {
    var sorted := StableSort.Sort(usdt, SmallestFirst(QuoteVolumeKey(parse)));
    var kept := TopPairsAsWritten(usdt, parse);
    if z in kept {
      assert kept == sorted[..TopCount];
      var y := sorted[TopCount];
      assert y in sorted[|kept|..];
      assert y in multiset(usdt) by { assert y in multiset(sorted); }
      assert sorted == kept + sorted[TopCount..];
      assert multiset(sorted) == multiset(kept) + multiset(sorted[TopCount..]);
      AsWrittenKeepsSmallest(usdt, parse, z, y);
      assert false;
    }
  }

  /** The intended ranking: the 100 pairs with the largest volume. */
  function TopPairs(usdt: seq<BinanceTicker>, parse: string -> Number): (r: seq<BinanceTicker>)
    ensures |r| <= TopCount && |r| == (if |usdt| <= TopCount then |usdt| else TopCount)
    ensures multiset(r) <= multiset(usdt)
  {
    TopByKey(usdt, QuoteVolumeKey(parse), TopCount)
  }

  /** No kept pair has a smaller volume than a dropped one. */
  lemma TopPairsKeepLargest(usdt: seq<BinanceTicker>, parse: string -> Number, x: BinanceTicker, y: BinanceTicker)
    requires forall z :: z in usdt ==> parse(z.quoteVolume).Finite?
    requires x in TopPairs(usdt, parse)
    requires y in StableSort.Sort(usdt, LargestFirst(QuoteVolumeKey(parse)))[|TopPairs(usdt, parse)|..]
    ensures parse(x.quoteVolume).Finite? && parse(y.quoteVolume).Finite?
    ensures parse(x.quoteVolume).value >= parse(y.quoteVolume).value
  {
    TopByKeyKeepsLargest(usdt, QuoteVolumeKey(parse), TopCount, x, y);
  }

  /** The pair with the largest volume is always shown. */
  lemma TopPairsShowLargest(usdt: seq<BinanceTicker>, parse: string -> Number, z: BinanceTicker)
    requires forall w :: w in usdt ==> parse(w.quoteVolume).Finite?
    requires z in usdt
    requires forall w :: w in usdt && w != z ==> parse(w.quoteVolume).value < parse(z.quoteVolume).value
    ensures z in TopPairs(usdt, parse)
  {
    var sorted := StableSort.Sort(usdt, LargestFirst(QuoteVolumeKey(parse)));
    var kept := TopPairs(usdt, parse);
    if z !in kept {
      assert kept == sorted[..|kept|];
      assert sorted == kept + sorted[|kept|..];
      assert z in multiset(sorted);
      assert z in sorted[|kept|..];
      var x := kept[0];
      assert x in multiset(usdt);
      TopPairsKeepLargest(usdt, parse, x, z);
      assert false;
    }
  }

  /** With the correction, and every volume a number, the shown pairs come largest volume first. */
  lemma TopPairsDescending(usdt: seq<BinanceTicker>, parse: string -> Number)
    requires forall z :: z in usdt ==> parse(z.quoteVolume).Finite?
    ensures var r := TopPairs(usdt, parse);
      forall i, j :: 0 <= i < j < |r| ==>
        parse(r[i].quoteVolume).Finite? && parse(r[j].quoteVolume).Finite?
        && parse(r[i].quoteVolume).value >= parse(r[j].quoteVolume).value
  {
    var key := QuoteVolumeKey(parse);
    var sorted := StableSort.Sort(usdt, LargestFirst(key));
    var r := TopPairs(usdt, parse);
    RankingConsistent(key);
    StableSort.SortSorted(usdt, LargestFirst(key), HasKey(key));
    TakeSorted(sorted, LargestFirst(key), TopCount);
    assert forall z :: z in r ==> z in multiset(usdt);
    LargestFirstOrdered(r, key);
  }

  // ---------------------------------------------------------------------
  // The fetch

  /** The two replies of one fetch: the 24h tickers and the funding list. */
  datatype FavReplies = FavReplies(ticker: TickerReply<BinanceTicker>, funding: FundingReply)

  /**
   * Whether the fetch throws: a failed or non-array ticker reply, a failed
   * funding reply, or a `null` funding entry.
   */
  predicate Throws(r: FavReplies)
  {
    || r.ticker.TickerFailed?
    || r.ticker.list.None?
    || r.funding.FundingFailed?
    || exists i :: 0 <= i < |r.funding.entries| && r.funding.entries[i].None?
  }

  /** The rows of a fetch that does not throw. */
  function FavRows(list: seq<BinanceTicker>, entries: seq<FundingEntry>, parse: string -> Number): (rows: seq<MarketRow>)
    ensures |rows| <= TopCount
    ensures forall i :: 0 <= i < |rows| ==> EndsWith(rows[i].symbol, Quote)
  {
    var top := TopPairsAsWritten(LenientUsdtFilter(list, SymbolOf), parse);
    AsWrittenFromUsdt(LenientUsdtFilter(list, SymbolOf), parse);
    assert forall i :: 0 <= i < |top| ==> top[i] in top;
    MergeBinance(top, FundingMapOf(entries))
  }

  /**
   * The rows one fetch produces, or `None` when it throws: the string
   * `USDT` symbols, sorted smallest volume first and cut to the first 100,
   * each with the last funding rate listed for it or `'-'`.
   */
  function FavFetch(r: FavReplies, parse: string -> Number): Option<seq<MarketRow>>
  {
    if Throws(r) then None
    else Some(FavRows(r.ticker.list.value, Present(r.funding.entries), parse))
  }

  /** The fetch fails exactly when a step throws; otherwise it yields at most 100 rows, all `USDT` pairs. */
  lemma FavFetchSpec(r: FavReplies, parse: string -> Number)
    ensures var rows := FavFetch(r, parse);
      && (rows.None? <==> Throws(r))
      && (rows.Some? ==> |rows.value| <= TopCount)
      && (rows.Some? ==> forall i :: 0 <= i < |rows.value| ==> EndsWith(rows.value[i].symbol, Quote))
  {
  }

  /** Every shown row comes from one string `USDT` ticker of the reply, with that ticker's fields. */
  lemma FavRowsFromReply(list: seq<BinanceTicker>, entries: seq<FundingEntry>, parse: string -> Number, i: int)
    requires 0 <= i < |FavRows(list, entries, parse)|
    ensures exists t :: t in list && IsUsdt(t.symbol) && FavRows(list, entries, parse)[i] == BinanceRow(t, FundingMapOf(entries))
  {
    var usdt := LenientUsdtFilter(list, SymbolOf);
    var top := TopPairsAsWritten(usdt, parse);
    AsWrittenFromUsdt(usdt, parse);
    assert top[i] in top;
  }

  /**
   * The rows follow the ranked pairs one for one and in the same order
   * (smallest volume first, by `AsWrittenAscending`): as many as there are
   * `USDT` pairs, up to 100.
   */
  lemma FavRowsFollowPairs(list: seq<BinanceTicker>, entries: seq<FundingEntry>, parse: string -> Number)
    ensures var usdt := LenientUsdtFilter(list, SymbolOf);
      var top := TopPairsAsWritten(usdt, parse);
      var rows := FavRows(list, entries, parse);
      && |rows| == |top| == (if |usdt| <= TopCount then |usdt| else TopCount)
      && forall i :: 0 <= i < |rows| ==> top[i].symbol.Some? && rows[i] == BinanceRow(top[i], FundingMapOf(entries))
  {
    var usdt := LenientUsdtFilter(list, SymbolOf);
    var top := TopPairsAsWritten(usdt, parse);
    AsWrittenFromUsdt(usdt, parse);
    assert forall i :: 0 <= i < |top| ==> top[i] in top;
  }

  /** The ranking step: a copy of the `USDT` pairs is sorted in place, smallest volume first, and cut to 100. */
  method RankPairs(usdt: seq<BinanceTicker>, parse: string -> Number) returns (top: seq<BinanceTicker>)
    ensures top == TopPairsAsWritten(usdt, parse)
  {
    var a := new BinanceTicker[|usdt|](i requires 0 <= i < |usdt| => usdt[i]);
    assert a[..] == usdt;
    StableSort.InsertionSort(a, SmallestFirst(QuoteVolumeKey(parse)));
    top := Take(a[..], TopCount);
  }

  /** `fetchData`'s `try` block once both replies are in. */
  method ProcessFavReplies(r: FavReplies, parse: string -> Number) returns (rows: Option<seq<MarketRow>>)
    ensures rows == FavFetch(r, parse)
  {
    if r.ticker.TickerFailed? || r.ticker.list.None? {
      return None;
    }
    var usdt := LenientUsdtFilter(r.ticker.list.value, SymbolOf);
    var top := RankPairs(usdt, parse);
    if r.funding.FundingFailed? {
      return None;
    }
    var fundingMap, threw := BuildFundingMap(r.funding.entries);
    if threw {
      return None;
    }
    assert r.funding.entries[..UntilNull(r.funding.entries)] == r.funding.entries;
    AsWrittenFromUsdt(usdt, parse);
    assert forall i :: 0 <= i < |top| ==> top[i] in top;
    rows := Some(MergeBinance(top, fundingMap));
  }

  // ---------------------------------------------------------------------
  // The component

  class FavouritesTable {
    const parse: string -> Number
    var lastUpdated: Option<string>
    var markets: seq<MarketRow>
    var displayed: seq<MarketRow>
    var loading: bool
    var error: Option<string>
    var sortBy: Column
    var sortDir: Direction
    var search: string
    var favourites: seq<string>
    var showFavouritesOnly: bool
    var storage: Storage
    /** Set when the persistence rule asks for `window.location.reload()`. */
    var reloadRequested: bool

    /** The rows on display are always the fetched rows searched and sorted with the current controls. */
    ghost predicate Valid()
      reads this`displayed, this`markets, this`sortBy, this`sortDir, this`search
    {
      displayed == SortAndSearch(markets, sortBy, sortDir, search, parse)
    }

    /**
     * The first render: no data, loading, sorted by volume descending. The
     * load reads the stored list; the persistence rule then sees the still
     * empty list, removes the key and asks for a reload.
     */
    constructor (parse: string -> Number, stored: Storage)
      ensures Valid()
      ensures this.parse == parse
      ensures markets == [] && displayed == [] && loading && error == None && lastUpdated == None
      ensures sortBy == InitialColumn && sortDir == InitialDirection && search == "" && !showFavouritesOnly
      ensures favourites == (if StorageKey in stored then stored[StorageKey] else [])
      ensures storage == Persist(stored, []) && reloadRequested
    {
      this.parse := parse;
      lastUpdated := None;
      markets := [];
      displayed := [];
      loading := true;
      error := None;
      sortBy := InitialColumn;
      sortDir := InitialDirection;
      search := "";
      showFavouritesOnly := false;
      favourites := if StorageKey in stored then stored[StorageKey] else [];
      storage := Persist(stored, []);
      reloadRequested := true;
    }

    /** The start of `fetchData`: the spinner only while there is nothing to show. */
    method StartFetch()
      requires Valid()
      modifies this`loading, this`error
      ensures Valid()
      ensures loading == (old(loading) || markets == []) && error == None
    {
      if |markets| == 0 {
        loading := true;
      }
      error := None;
    }

    /**
     * The rest of `fetchData`: a throw records the message and keeps the
     * rows; otherwise the rows are replaced and stamped. Loading always ends.
     */
    method FinishFetch(replies: FavReplies, now: string)
      requires Valid()
      modifies this`markets, this`displayed, this`lastUpdated, this`error, this`loading
      ensures Valid() && !loading
      ensures FavFetch(replies, parse).None? ==>
        error == Some(MarketErrorMessage) && markets == old(markets) && lastUpdated == old(lastUpdated)
      ensures FavFetch(replies, parse).Some? ==>
        markets == FavFetch(replies, parse).value && lastUpdated == Some(now) && error == old(error)
    {
      var result := ProcessFavReplies(replies, parse);
      match result {
        case None =>
          error := Some(MarketErrorMessage);
        case Some(rows) =>
          ShowRows(rows, now);
      }
      loading := false;
    }

    /** A successful fetch: the new rows, stamped with `now`, and shown searched and sorted. */
    method ShowRows(rows: seq<MarketRow>, now: string)
      modifies this`markets, this`displayed, this`lastUpdated
      ensures Valid()
      ensures markets == rows && lastUpdated == Some(now)
    {
      markets := rows;
      lastUpdated := Some(now);
      displayed := ApplySortAndSearch(rows, sortBy, sortDir, search, parse);
    }

    predicate IsFavourite(symbol: string)
      reads this
    {
      Favourites.IsFavourite(favourites, symbol)
    }

    /** `toggleFavourite`, open to every user; emptying the list also asks for a reload. */
    method ToggleFavourite(symbol: string)
      requires Valid()
      modifies this`favourites, this`storage, this`reloadRequested
      ensures Valid()
      ensures favourites == Toggle(old(favourites), symbol)
      ensures storage == Persist(old(storage), favourites)
      ensures reloadRequested == (old(reloadRequested) || favourites == [])
    {
      var favs := Toggle(favourites, symbol);
      favourites, storage, reloadRequested := favs, Persist(storage, favs), reloadRequested || |favs| == 0;
    }

    /** A click on a column header. */
    method ClickHeader(col: Column)
      requires Valid()
      modifies this`sortBy, this`sortDir, this`displayed
      ensures Valid()
      ensures SortState(sortBy, sortDir) == HeaderClick(SortState(old(sortBy), old(sortDir)), col)
    {
      var next := HeaderClick(SortState(sortBy, sortDir), col);
      sortBy := next.column;
      sortDir := next.dir;
      displayed := ApplySortAndSearch(markets, sortBy, sortDir, search, parse);
    }

    method SetSearch(text: string)
      requires Valid()
      modifies this`search, this`displayed
      ensures Valid()
      ensures search == text
    {
      search := text;
      displayed := ApplySortAndSearch(markets, sortBy, sortDir, search, parse);
    }

    method ToggleFavouritesOnly()
      requires Valid()
      modifies this`showFavouritesOnly
      ensures Valid()
      ensures showFavouritesOnly == !old(showFavouritesOnly)
    {
      showFavouritesOnly := !showFavouritesOnly;
    }

    /** The rows the table body renders. */
    function VisibleRows(): (r: seq<MarketRow>)
      reads this
      ensures forall x :: x in r <==> x in displayed && (showFavouritesOnly ==> x.symbol in favourites)
    {
      Visible(displayed, favourites, showFavouritesOnly)
    }
  }
}
