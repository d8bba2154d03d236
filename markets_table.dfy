/**
 * The state of the current futures market table: the fetched rows, the
 * rows on display, the sort and search controls, the favourites and the
 * selected exchange, and the handlers that change them.
 */
module MarketsTableState {
  import opened Wrappers
  import opened JsNumbers
  import opened MarketView
  import opened MarketFetch
  import opened Favourites
  import opened Notifications

  const RefreshTitle := "Markets updated"
  const RefreshDescription := "Market data was refreshed."

  function Flip(d: Direction): (r: Direction)
    ensures r != d
  {
    if d == Asc then Desc else Asc
  }

  /**
   * The processing part of `fetchData`: the ticker outcome, the `USDT`
   * filter (and, for Bybit, the ranking), the funding loops and the merge.
   */
  method ProcessReplies(e: Exchange, replies: Replies, parse: string -> Number, fmt: Formatting) returns (result: FetchResult)
    requires RepliesFrom(e, replies)
    ensures result == Fetch(e, replies, parse, fmt)
  {
    match replies {
      case BinanceReplies(ticker, funding) =>
        if ticker.TickerFailed? {
          return TickerError(TickerErrorMessage(e));
        }
        if ticker.list.None? || StrictUsdtFilter(ticker.list.value, SymbolOf).None? {
          return ProcessingError;
        }
        var pairs := StrictUsdtFilter(ticker.list.value, SymbolOf).value;
        var fundingMap: FundingMap := map[];
        if funding.FundingJson? {
          var threw;
          fundingMap, threw := BuildFundingMap(funding.entries);
        }
        assert forall i :: 0 <= i < |pairs| ==> pairs[i] in pairs;
        result := Rows(MergeBinance(pairs, fundingMap));
      case BybitReplies(ticker, fundingOf) =>
        if ticker.TickerFailed? {
          return TickerError(TickerErrorMessage(e));
        }
        if ticker.list.None? || BybitPairs(ticker.list.value, parse).None? {
          return ProcessingError;
        }
        var pairs := BybitPairs(ticker.list.value, parse).value;
        assert forall i :: 0 <= i < |pairs| ==> pairs[i] in pairs;
        var fundingMap := BuildBybitFundingMap(Symbols(pairs), fundingOf);
        result := Rows(MergeBybit(pairs, fundingMap, parse, fmt));
    }
  }

  class MarketsTable {
    const isPro: bool
    const parse: string -> Number
    const fmt: Formatting
    var upgradeModalOpen: bool
    var lastUpdated: Option<string>
    var markets: seq<MarketRow>
    var displayed: seq<MarketRow>
    var loading: bool
    var error: Option<string>
    var sortBy: Column
    var sortDir: Direction
    var search: string
    var favourites: seq<string>
    var showFavouritesOnly: bool
    var exchange: Exchange
    /** Browser storage, of which the table uses the `favourites` key. */
    var storage: Storage

    /** The rows on display are always the fetched rows searched and sorted with the current controls. */
    ghost predicate Valid()
      reads this`displayed, this`markets, this`sortBy, this`sortDir, this`search
    {
      displayed == SortAndSearch(markets, sortBy, sortDir, search, parse)
    }

    /**
     * The table as first rendered: no data, loading, sorted by volume
     * descending, on Binance, with the favourites read from storage (and
     * written back by the persistence rule).
     */
    constructor (isPro: bool, parse: string -> Number, fmt: Formatting, stored: Storage)
      ensures Valid()
      ensures this.isPro == isPro && this.parse == parse && this.fmt == fmt
      ensures markets == [] && displayed == [] && loading && error == None && lastUpdated == None
      ensures sortBy == InitialColumn && sortDir == InitialDirection && search == ""
      ensures !showFavouritesOnly && !upgradeModalOpen && exchange == Binance
      ensures favourites == (if StorageKey in stored then stored[StorageKey] else [])
      ensures storage == Persist(stored, favourites)
    {
      this.isPro := isPro;
      this.parse := parse;
      this.fmt := fmt;
      upgradeModalOpen := false;
      lastUpdated := None;
      markets := [];
      displayed := [];
      loading := true;
      error := None;
      sortBy := InitialColumn;
      sortDir := InitialDirection;
      search := "";
      showFavouritesOnly := false;
      exchange := Binance;
      var loaded := if StorageKey in stored then stored[StorageKey] else [];
      favourites := loaded;
      storage := Persist(stored, loaded);
    }

    /** The start of `fetchData`, before its requests are answered. */
    method StartFetch()
      requires Valid()
      modifies this`loading, this`error
      ensures Valid()
      ensures loading && error == None
    {
      loading := true;
      error := None;
    }

    /**
     * The rest of `fetchData` once the exchange has answered: a ticker
     * failure or a thrown error records a message and keeps the old rows;
     * otherwise the rows are replaced, stamped with `now`, and a manual
     * refresh adds one notification. Loading always ends.
     */
    method FinishFetch(manual: bool, replies: Replies, now: string, store: NotificationStore)
      requires Valid() && store.Valid() && RepliesFrom(exchange, replies)
      modifies this`markets, this`displayed, this`lastUpdated, this`error, this`loading, store
      ensures Valid() && store.Valid() && !loading
      ensures match Fetch(exchange, replies, parse, fmt)
        case TickerError(msg) =>
          error == Some(msg) && markets == old(markets) && lastUpdated == old(lastUpdated) && unchanged(store)
        case ProcessingError =>
          error == Some(MarketErrorMessage) && markets == old(markets) && lastUpdated == old(lastUpdated) && unchanged(store)
        case Rows(rows) =>
          && markets == rows && lastUpdated == Some(now) && error == old(error)
          && (manual ==>
                && store.notifications == [Notification(old(store.nextId), RefreshTitle, RefreshDescription, now, false, Untyped)] + old(store.notifications)
                && store.nextId == old(store.nextId) + 1)
          && (!manual ==> unchanged(store))
    {
      var result := ProcessReplies(exchange, replies, parse, fmt);
      match result {
        case TickerError(msg) =>
          error := Some(msg);
        case ProcessingError =>
          error := Some(MarketErrorMessage);
        case Rows(rows) =>
          ShowRows(rows, now);
          if manual {
            store.Add(RefreshTitle, RefreshDescription, Untyped, now);
          }
      }
      loading := false;
    }

    /** A successful fetch: the new rows, stamped with `now`, and shown searched and sorted. */
    method ShowRows(rows: seq<MarketRow>, now: string)
      modifies this`markets, this`displayed, this`lastUpdated
      ensures Valid()
      ensures markets == rows && lastUpdated == Some(now)
    {
      markets := rows;
      lastUpdated := Some(now);
      displayed := ApplySortAndSearch(rows, sortBy, sortDir, search, parse);
    }

    predicate IsFavourite(symbol: string)
      reads this
    {
      Favourites.IsFavourite(favourites, symbol)
    }

    /** `toggleFavourite`: without Pro it only opens the upgrade dialog. */
    method ToggleFavourite(symbol: string)
      requires Valid()
      modifies this`upgradeModalOpen, this`favourites, this`storage
      ensures Valid()
      ensures upgradeModalOpen == (old(upgradeModalOpen) || !isPro)
      ensures favourites == if isPro then Toggle(old(favourites), symbol) else old(favourites)
      ensures storage == if isPro then Persist(old(storage), favourites) else old(storage)
    {
      if !isPro {
        upgradeModalOpen := true;
      } else {
        var favs := Toggle(favourites, symbol);
        favourites, storage := favs, Persist(storage, favs);
      }
    }

    /**
     * `handleToggleFavorite`, the handler the rows' star buttons call: no
     * Pro check. It writes the new list itself and the persistence rule
     * then removes the key when the list is empty.
     */
    method HandleToggleFavorite(symbol: string)
      requires Valid()
      modifies this`favourites, this`storage
      ensures Valid()
      ensures favourites == Toggle(old(favourites), symbol)
      ensures storage == Persist(old(storage), favourites)
    {
      var favs := Toggle(favourites, symbol);
      PersistAfterWrite(storage, favs);
      favourites, storage := favs, Persist(storage[StorageKey := favs], favs);
    }

    /** `handleSort`: the clicked column, and the direction flips on every click, even on a new column. */
    method HandleSort(column: Column)
      requires Valid()
      modifies this`sortBy, this`sortDir, this`displayed
      ensures Valid()
      ensures sortBy == column && sortDir == Flip(old(sortDir))
    {
      sortBy := column;
      sortDir := Flip(sortDir);
      displayed := ApplySortAndSearch(markets, sortBy, sortDir, search, parse);
    }

    /** Typing in the search box: the text is used as typed, with no delay. */
    method SetSearch(text: string)
      requires Valid()
      modifies this`search, this`displayed
      ensures Valid()
      ensures search == text
    {
      search := text;
      displayed := ApplySortAndSearch(markets, sortBy, sortDir, search, parse);
    }

    method ToggleFavouritesOnly()
      requires Valid()
      modifies this`showFavouritesOnly
      ensures Valid()
      ensures showFavouritesOnly == !old(showFavouritesOnly)
    {
      showFavouritesOnly := !showFavouritesOnly;
    }

    /** Choosing an exchange; the next fetch asks that exchange. */
    method SelectExchange(e: Exchange)
      requires Valid()
      modifies this`exchange
      ensures Valid()
      ensures exchange == e
    {
      exchange := e;
    }

    /** The rows the table body renders. */
    function VisibleRows(): (r: seq<MarketRow>)
      reads this
      ensures forall x :: x in r <==> x in displayed && (showFavouritesOnly ==> x.symbol in favourites)
    {
      Visible(displayed, favourites, showFavouritesOnly)
    }
  }
}
