/**
 * Turning exchange replies into table rows: the `USDT` filter, the
 * volume ranking, the symbol -> funding-rate map and the merge. Replies are
 * inputs; a field that is not a string, a `null` list entry or a missing
 * list are modelled where the code reacts to them.
 */
module MarketFetch {
  import opened Wrappers
  import opened Text
  import opened JsNumbers
  import opened MarketView
  import StableSort

  const Quote := "USDT"
  const MissingFunding := "-"
  const TopCount := 100

  datatype Exchange = Binance | Bybit

  /** The key of the exchange, which the ticker error message names. */
  function ExchangeKey(e: Exchange): string
  {
    match e
    case Binance => "BINANCE"
    case Bybit => "BYBIT"
  }

  const MarketErrorMessage := "Failed to fetch market data."
  const TickerErrorPrefix := "Failed to fetch "

  /** The message of a failed ticker request: it names the exchange right after its prefix. */
  function TickerErrorMessage(e: Exchange): (msg: string)
    ensures OccursAt(msg, TickerErrorPrefix, 0)
    ensures OccursAt(msg, ExchangeKey(e), |TickerErrorPrefix|)
    ensures msg != MarketErrorMessage
  {
    var msg := TickerErrorPrefix + ExchangeKey(e) + " ticker data.";
    assert msg[..|TickerErrorPrefix|] == TickerErrorPrefix;
    assert msg[|TickerErrorPrefix|..|TickerErrorPrefix| + |ExchangeKey(e)|] == ExchangeKey(e);
    assert msg[|TickerErrorPrefix|] == 'B' != MarketErrorMessage[|TickerErrorPrefix|];
    msg
  }

  /** The two exchanges' ticker errors are told apart by their messages. */
  lemma TickerErrorMessagesDiffer(a: Exchange, b: Exchange)
    ensures TickerErrorMessage(a) == TickerErrorMessage(b) <==> a == b
  {
    if a != b {
      var n := |TickerErrorPrefix|;
      assert TickerErrorMessage(a)[n + 1] != TickerErrorMessage(b)[n + 1] by {
        assert TickerErrorMessage(a)[n..n + |ExchangeKey(a)|] == ExchangeKey(a);
        assert TickerErrorMessage(b)[n..n + |ExchangeKey(b)|] == ExchangeKey(b);
      }
    }
  }

  /** One Binance 24h ticker; `symbol` is `None` when the reply holds something other than a string. */
  datatype BinanceTicker = BinanceTicker(
    symbol: Option<string>,
    lastPrice: string,
    volume: string,
    quoteVolume: string,
    priceChangePercent: string)

  /** One Bybit linear ticker. */
  datatype BybitTicker = BybitTicker(
    symbol: Option<string>,
    lastPrice: string,
    volume24h: string,
    price24hPcnt: string)

  /**
   * The ticker request: it failed (network error, non-OK status or
   * unreadable JSON), or it returned JSON whose ticker list is `None` when
   * it is missing or not an array.
   */
  datatype TickerReply<T> = TickerFailed | TickerJson(list: Option<seq<T>>)

  // ---------------------------------------------------------------------
  // The USDT filter

  predicate IsUsdt(symbol: Option<string>)
  {
    symbol.Some? && EndsWith(symbol.value, Quote)
  }

  /**
   * `list.filter(item => item.symbol.endsWith('USDT'))`: `None` when some
   * symbol is not a string, since calling `endsWith` on it throws.
   */
  function StrictUsdtFilter<T(!new)>(list: seq<T>, symbol: T -> Option<string>): (r: Option<seq<T>>)
    ensures r.None? <==> exists i :: 0 <= i < |list| && symbol(list[i]).None?
    ensures r.Some? ==> r.value == LenientUsdtFilter(list, symbol)
  {
    if |list| == 0 then Some([])
    else if symbol(list[0]).None? then None
    else
      var rest := StrictUsdtFilter(list[1..], symbol);
      assert forall i :: 1 <= i < |list| ==> list[i] == list[1..][i - 1];
      if rest.None? then None
      else Some((if IsUsdt(symbol(list[0])) then [list[0]] else []) + rest.value)
  }

  /** `list.filter(item => typeof item.symbol === 'string' && item.symbol.endsWith('USDT'))`. */
  function LenientUsdtFilter<T(!new)>(list: seq<T>, symbol: T -> Option<string>): (r: seq<T>)
    ensures forall x :: x in r <==> x in list && IsUsdt(symbol(x))
    ensures |r| <= |list|
  {
    if |list| == 0 then []
    else
      assert list == [list[0]] + list[1..];
      (if IsUsdt(symbol(list[0])) then [list[0]] else []) + LenientUsdtFilter(list[1..], symbol)
  }

  // ---------------------------------------------------------------------
  // Ranking by a numeric value

  function Sign(x: real): int
  {
    if x < 0.0 then -1 else if x > 0.0 then 1 else 0
  }

  /**
   * The comparator `(a, b) => key(b) - key(a)`; `sort` treats a NaN result
   * as 0, and only the sign of the difference matters to it.
   */
  function LargestFirst<T>(key: T -> Number): (T, T) -> int
  {
    (a: T, b: T) => if key(a).Finite? && key(b).Finite? then Sign(key(b).value - key(a).value) else 0
  }

  /** The comparator `(a, b) => key(a) - key(b)`. */
  function SmallestFirst<T>(key: T -> Number): (T, T) -> int
  {
    (a: T, b: T) => if key(a).Finite? && key(b).Finite? then Sign(key(a).value - key(b).value) else 0
  }

  /** Items whose key parses: on them both comparators are consistent. */
  function HasKey<T>(key: T -> Number): T -> bool
  {
    (x: T) => key(x).Finite?
  }

  lemma RankingConsistent<T(!new)>(key: T -> Number)
    ensures StableSort.ConsistentOn(LargestFirst(key), HasKey(key))
    ensures StableSort.ConsistentOn(SmallestFirst(key), HasKey(key))
  {
  }

  /** `s.slice(0, n)`. */
  function Take<T>(s: seq<T>, n: nat): (r: seq<T>)
    ensures |r| <= n && |r| <= |s|
    ensures r == s[..|r|]
    ensures |s| <= n ==> r == s
  {
    if |s| <= n then s else s[..n]
  }

  /**
   * Sorted by a comparator and then cut to `n`: `cmp` ranks every kept item
   * no later than every dropped one.
   */
  lemma {:induction false} TakeOfSorted<T>(s: seq<T>, cmp: (T, T) -> int, n: nat, x: T, y: T)
    requires StableSort.Sorted(s, cmp)
    requires x in Take(s, n) && y in s[|Take(s, n)|..]
    ensures cmp(x, y) <= 0
  {
    var k := |Take(s, n)|;
    var i :| 0 <= i < k && Take(s, n)[i] == x;
    var j :| 0 <= j < |s| - k && s[k..][j] == y;
    assert s[i] == x && s[k + j] == y;
  }

  /**
   * The first `n` of `s` ranked largest first: no kept item has a smaller
   * key than a dropped one (when all keys parse).
   */
  function TopByKey<T>(s: seq<T>, key: T -> Number, n: nat): (r: seq<T>)
    ensures |r| <= n && |r| == (if |s| <= n then |s| else n)
    ensures multiset(r) <= multiset(s)
  {
    var sorted := StableSort.Sort(s, LargestFirst(key));
    var r := Take(sorted, n);
    assert sorted == r + sorted[|r|..];
    r
  }

  lemma TopByKeyKeepsLargest<T(!new)>(s: seq<T>, key: T -> Number, n: nat, x: T, y: T)
    requires forall z :: z in s ==> key(z).Finite?
    requires x in TopByKey(s, key, n)
    requires y in StableSort.Sort(s, LargestFirst(key))[|TopByKey(s, key, n)|..]
    ensures key(x).Finite? && key(y).Finite? && key(x).value >= key(y).value
  {
    var sorted := StableSort.Sort(s, LargestFirst(key));
    RankingConsistent(key);
    StableSort.SortSorted(s, LargestFirst(key), HasKey(key));
    TakeOfSorted(sorted, LargestFirst(key), n, x, y);
    assert x in multiset(sorted) && y in multiset(sorted);
  }

  /** A prefix of a sorted sequence is sorted. */
  lemma TakeSorted<T>(s: seq<T>, cmp: (T, T) -> int, n: nat)
    requires StableSort.Sorted(s, cmp)
    ensures StableSort.Sorted(Take(s, n), cmp)
  {
    var r := Take(s, n);
    assert forall i :: 0 <= i < |r| ==> r[i] == s[i];
  }

  /** Sorted largest first, with every key a number: the keys do not increase. */
  lemma LargestFirstOrdered<T>(r: seq<T>, key: T -> Number)
    requires StableSort.Sorted(r, LargestFirst(key))
    requires forall z :: z in r ==> key(z).Finite?
    ensures forall i, j :: 0 <= i < j < |r| ==>
      key(r[i]).Finite? && key(r[j]).Finite? && key(r[i]).value >= key(r[j]).value
  {
    forall i, j | 0 <= i < j < |r|
      ensures key(r[i]).Finite? && key(r[j]).Finite? && key(r[i]).value >= key(r[j]).value
    {
      assert r[i] in r && r[j] in r;
      assert LargestFirst(key)(r[i], r[j]) <= 0;
    }
  }

  /** Sorted smallest first, with every key a number: the keys do not decrease. */
  lemma SmallestFirstOrdered<T>(r: seq<T>, key: T -> Number)
    requires StableSort.Sorted(r, SmallestFirst(key))
    requires forall z :: z in r ==> key(z).Finite?
    ensures forall i, j :: 0 <= i < j < |r| ==>
      key(r[i]).Finite? && key(r[j]).Finite? && key(r[i]).value <= key(r[j]).value
  {
    forall i, j | 0 <= i < j < |r|
      ensures key(r[i]).Finite? && key(r[j]).Finite? && key(r[i]).value <= key(r[j]).value
    {
      assert r[i] in r && r[j] in r;
      assert SmallestFirst(key)(r[i], r[j]) <= 0;
    }
  }

  /** When all keys parse, the kept items come in order of non-increasing key. */
  lemma TopByKeyOrdered<T(!new)>(s: seq<T>, key: T -> Number, n: nat)
    requires forall z :: z in s ==> key(z).Finite?
    ensures var r := TopByKey(s, key, n);
      forall i, j :: 0 <= i < j < |r| ==>
        key(r[i]).Finite? && key(r[j]).Finite? && key(r[i]).value >= key(r[j]).value
  {
    var sorted := StableSort.Sort(s, LargestFirst(key));
    var r := TopByKey(s, key, n);
    RankingConsistent(key);
    StableSort.SortSorted(s, LargestFirst(key), HasKey(key));
    TakeSorted(sorted, LargestFirst(key), n);
    assert forall z :: z in r ==> z in multiset(s);
    LargestFirstOrdered(r, key);
  }

  // ---------------------------------------------------------------------
  // The funding-rate map

  /** One entry of the funding list; `lastFundingRate` is `None` when the field is absent. */
  datatype FundingEntry = FundingEntry(symbol: string, lastFundingRate: Option<string>)

  /**
   * The map that `fundingMap[f.symbol] = f.lastFundingRate` builds over
   * `entries`; a later entry for a symbol overwrites an earlier one.
   */
  type FundingMap = map<string, Option<string>>

  function FundingMapOf(entries: seq<FundingEntry>): (m: FundingMap)
    ensures forall s :: s in m <==> exists i :: 0 <= i < |entries| && entries[i].symbol == s
  {
    if |entries| == 0 then map[]
    else
      var init := entries[..|entries| - 1];
      var last := entries[|entries| - 1];
      assert forall i :: 0 <= i < |init| ==> init[i] == entries[i];
      FundingMapOf(init)[last.symbol := last.lastFundingRate]
  }

  /** The value stored for a symbol is the rate of its last entry. */
  lemma {:induction false} FundingMapLaterWins(entries: seq<FundingEntry>, i: int)
    requires 0 <= i < |entries|
    requires forall j :: i < j < |entries| ==> entries[j].symbol != entries[i].symbol
    ensures FundingMapOf(entries)[entries[i].symbol] == entries[i].lastFundingRate
    decreases |entries|
  {
    if i < |entries| - 1 {
      var init := entries[..|entries| - 1];
      assert init[i] == entries[i];
      FundingMapLaterWins(init, i);
    }
  }

  /** `fundingMap[symbol] ?? '-'`. */
  function FundingOf(m: FundingMap, symbol: string): (rate: string)
    ensures symbol !in m ==> rate == MissingFunding
    ensures symbol in m && m[symbol].Some? ==> rate == m[symbol].value
    ensures symbol in m && m[symbol].None? ==> rate == MissingFunding
  {
    if symbol in m && m[symbol].Some? then m[symbol].value else MissingFunding
  }

  /** How many entries precede the first `null` one, which makes `f.symbol` throw. */
  function UntilNull(entries: seq<Option<FundingEntry>>): (k: nat)
    ensures k <= |entries|
    ensures forall i :: 0 <= i < k ==> entries[i].Some?
    ensures k < |entries| ==> entries[k].None?
  {
    if |entries| == 0 || entries[0].None? then 0
    else
      assert forall i :: 1 <= i < |entries| ==> entries[i] == entries[1..][i - 1];
      1 + UntilNull(entries[1..])
  }

  function Present(entries: seq<Option<FundingEntry>>): (r: seq<FundingEntry>)
    requires forall i :: 0 <= i < |entries| ==> entries[i].Some?
    ensures |r| == |entries| && forall i :: 0 <= i < |r| ==> r[i] == entries[i].value
  {
    seq(|entries|, i requires 0 <= i < |entries| => entries[i].value)
  }

  /**
   * The Binance funding loop: entries are stored in order until a `null`
   * entry throws; `threw` says whether that happened, and the map then
   * holds what was stored before.
   */
  method BuildFundingMap(entries: seq<Option<FundingEntry>>) returns (m: FundingMap, threw: bool)
    ensures threw <==> exists i :: 0 <= i < |entries| && entries[i].None?
    ensures m == FundingMapOf(Present(entries[..UntilNull(entries)]))
  {
    m := map[];
    var i := 0;
    while i < |entries|
      invariant 0 <= i <= UntilNull(entries)
      invariant m == FundingMapOf(Present(entries[..i]))
    {
      if entries[i].None? {
        return m, true;
      }
      FundingMapStep(entries, i);
      m := m[entries[i].value.symbol := entries[i].value.lastFundingRate];
      i := i + 1;
    }
    return m, false;
  }

  /** One pass of the funding loop stores the next entry's rate over the map built so far. */
  lemma FundingMapStep(entries: seq<Option<FundingEntry>>, i: nat)
    requires i < UntilNull(entries)
    ensures FundingMapOf(Present(entries[..i + 1])) ==
      FundingMapOf(Present(entries[..i]))[entries[i].value.symbol := entries[i].value.lastFundingRate]
  {
    PresentSnoc(entries, i);
    FundingMapOfSnoc(Present(entries[..i]), entries[i].value);
  }

  lemma PresentSnoc(entries: seq<Option<FundingEntry>>, i: nat)
    requires i < UntilNull(entries)
    ensures Present(entries[..i + 1]) == Present(entries[..i]) + [entries[i].value]
  {
  }

  lemma FundingMapOfSnoc(es: seq<FundingEntry>, e: FundingEntry)
    ensures FundingMapOf(es + [e]) == FundingMapOf(es)[e.symbol := e.lastFundingRate]
  {
    assert (es + [e])[..|es|] == es;
  }

  /** The Binance funding request: it failed as a whole, or returned a list. */
  datatype FundingReply = FundingFailed | FundingJson(entries: seq<Option<FundingEntry>>)

  /**
   * The reply to one Bybit funding-history request: it failed, or it
   * carries `retCode` and a list of `fundingRate` fields (`None` when the
   * list is missing).
   */
  datatype BybitFundingReply = BybitFailed | BybitJson(retCode: int, list: Option<seq<Option<string>>>)

  /** What the per-symbol request contributes: only a zero `retCode` with a non-empty list counts. */
  function BybitRate(reply: BybitFundingReply): (r: Option<Option<string>>)
    ensures r.Some? <==> reply.BybitJson? && reply.retCode == 0 && reply.list.Some? && |reply.list.value| > 0
    ensures r.Some? ==> r.value == reply.list.value[0]
  {
    if reply.BybitJson? && reply.retCode == 0 && reply.list.Some? && |reply.list.value| > 0
    then Some(reply.list.value[0]) else None
  }

  /** The Bybit funding map over `symbols`, in order, from each symbol's reply. */
  function BybitFundingMapOf(symbols: seq<string>, reply: string -> BybitFundingReply): (m: FundingMap)
    ensures forall s :: s in m <==> s in symbols && BybitRate(reply(s)).Some?
    ensures forall s :: s in m ==> m[s] == BybitRate(reply(s)).value
  {
    if |symbols| == 0 then map[]
    else
      var init := symbols[..|symbols| - 1];
      var s := symbols[|symbols| - 1];
      assert symbols == init + [s];
      var m := BybitFundingMapOf(init, reply);
      match BybitRate(reply(s))
      case Some(rate) => m[s := rate]
      case None => m
  }

  /** `for (const result of fundingResults) if (result) fundingMap[result.symbol] = result.rate`. */
  method BuildBybitFundingMap(symbols: seq<string>, reply: string -> BybitFundingReply) returns (m: FundingMap)
    ensures m == BybitFundingMapOf(symbols, reply)
  {
    m := map[];
    var i := 0;
    while i < |symbols|
      invariant 0 <= i <= |symbols|
      invariant m == BybitFundingMapOf(symbols[..i], reply)
    {
      assert symbols[..i + 1][..i] == symbols[..i];
      var rate := BybitRate(reply(symbols[i]));
      if rate.Some? {
        m := m[symbols[i] := rate.value];
      }
      i := i + 1;
    }
    assert symbols[..i] == symbols;
  }

  // ---------------------------------------------------------------------
  // Merging

  function SymbolOf(t: BinanceTicker): Option<string>
  {
    t.symbol
  }

  function BybitSymbolOf(t: BybitTicker): Option<string>
  {
    t.symbol
  }

  /** A Binance ticker as a row, with the map's funding rate or `'-'`. */
  function BinanceRow(t: BinanceTicker, m: FundingMap): (row: MarketRow)
    requires t.symbol.Some?
    ensures row.symbol == t.symbol.value && row.fundingRate == FundingOf(m, t.symbol.value)
    ensures row.lastPrice == t.lastPrice && row.volume == t.volume && row.quoteVolume == t.quoteVolume
    ensures row.priceChangePercent == t.priceChangePercent
  {
    MarketRow(t.symbol.value, t.lastPrice, t.volume, t.quoteVolume, t.priceChangePercent, FundingOf(m, t.symbol.value))
  }

  /** The rows of `pairs`, one for each and in the same order. */
  function MergeBinance(pairs: seq<BinanceTicker>, m: FundingMap): (rows: seq<MarketRow>)
    requires forall i :: 0 <= i < |pairs| ==> pairs[i].symbol.Some?
    ensures |rows| == |pairs|
    ensures forall i :: 0 <= i < |rows| ==> rows[i] == BinanceRow(pairs[i], m)
  {
    seq(|pairs|, i requires 0 <= i < |pairs| => BinanceRow(pairs[i], m))
  }

  /** Number formatting, left uninterpreted: `String(n)` and `n.toFixed(2)`. */
  datatype Formatting = Formatting(show: Number -> string, fixed2: Number -> string)

  /** `parseFloat(volume24h) * parseFloat(lastPrice)`, the ranking key of a Bybit ticker. */
  function Turnover(t: BybitTicker, parse: string -> Number): Number
  {
    Times(parse(t.volume24h), parse(t.lastPrice))
  }

  function TurnoverKey(parse: string -> Number): BybitTicker -> Number
  {
    (t: BybitTicker) => Turnover(t, parse)
  }

  /** A Bybit ticker as a row: volume and turnover formatted, the 24h change as a percentage with two decimals. */
  function BybitRow(t: BybitTicker, m: FundingMap, parse: string -> Number, fmt: Formatting): (row: MarketRow)
    requires t.symbol.Some?
    ensures row.symbol == t.symbol.value && row.lastPrice == t.lastPrice
    ensures row.volume == fmt.show(parse(t.volume24h))
    ensures row.quoteVolume == fmt.show(Turnover(t, parse))
    ensures row.priceChangePercent == fmt.fixed2(Times(parse(t.price24hPcnt), Finite(100.0)))
    ensures row.fundingRate == FundingOf(m, t.symbol.value)
  {
    MarketRow(
      t.symbol.value,
      t.lastPrice,
      fmt.show(parse(t.volume24h)),
      fmt.show(Turnover(t, parse)),
      fmt.fixed2(Times(parse(t.price24hPcnt), Finite(100.0))),
      FundingOf(m, t.symbol.value))
  }

  function MergeBybit(pairs: seq<BybitTicker>, m: FundingMap, parse: string -> Number, fmt: Formatting): (rows: seq<MarketRow>)
    requires forall i :: 0 <= i < |pairs| ==> pairs[i].symbol.Some?
    ensures |rows| == |pairs|
    ensures forall i :: 0 <= i < |rows| ==> rows[i] == BybitRow(pairs[i], m, parse, fmt)
  {
    seq(|pairs|, i requires 0 <= i < |pairs| => BybitRow(pairs[i], m, parse, fmt))
  }

  function Symbols(pairs: seq<BybitTicker>): (r: seq<string>)
    requires forall i :: 0 <= i < |pairs| ==> pairs[i].symbol.Some?
    ensures |r| == |pairs| && forall i :: 0 <= i < |r| ==> r[i] == pairs[i].symbol.value
  {
    seq(|pairs|, i requires 0 <= i < |pairs| => pairs[i].symbol.value)
  }

  // ---------------------------------------------------------------------
  // The whole fetch of the market table

  /** How a fetch ends: a ticker error, an error thrown while processing, or rows. */
  datatype FetchResult = TickerError(message: string) | ProcessingError | Rows(rows: seq<MarketRow>)

  /** The replies one fetch receives, for the selected exchange. */
  datatype Replies =
    | BinanceReplies(ticker: TickerReply<BinanceTicker>, funding: FundingReply)
    | BybitReplies(bybitTicker: TickerReply<BybitTicker>, fundingOf: string -> BybitFundingReply)

  predicate RepliesFrom(e: Exchange, r: Replies)
  {
    r.BinanceReplies? <==> e == Binance
  }

  /** The Binance funding map: a failed request is swallowed and leaves it empty. */
  function BinanceFundingMap(funding: FundingReply): FundingMap
  {
    match funding
    case FundingFailed => map[]
    case FundingJson(entries) => FundingMapOf(Present(entries[..UntilNull(entries)]))
  }

  /** The Bybit pairs kept: `USDT` symbols ranked by turnover, at most 100. */
  function BybitPairs(list: seq<BybitTicker>, parse: string -> Number): (r: Option<seq<BybitTicker>>)
    ensures r.None? <==> exists i :: 0 <= i < |list| && list[i].symbol.None?
    ensures r.Some? ==> |r.value| <= TopCount
    ensures r.Some? ==> forall x :: x in r.value ==> x in list && IsUsdt(x.symbol)
  {
    match StrictUsdtFilter(list, BybitSymbolOf)
    case None => None
    case Some(usdt) =>
      var top := TopByKey(usdt, TurnoverKey(parse), TopCount);
      assert forall x :: x in top ==> x in multiset(usdt);
      Some(top)
  }

  /** `fetchData` after its requests have been answered, as in the current market table. */
  function Fetch(e: Exchange, replies: Replies, parse: string -> Number, fmt: Formatting): (r: FetchResult)
    requires RepliesFrom(e, replies)
    ensures r.TickerError? <==> (if e == Binance then replies.ticker.TickerFailed? else replies.bybitTicker.TickerFailed?)
    ensures r.TickerError? ==> r.message == TickerErrorMessage(e)
    ensures e == Bybit && r.Rows? ==> |r.rows| <= TopCount
    ensures r.Rows? ==> forall i :: 0 <= i < |r.rows| ==> EndsWith(r.rows[i].symbol, Quote)
  {
    match replies
    case BinanceReplies(ticker, funding) =>
      (match ticker
       case TickerFailed => TickerError(TickerErrorMessage(e))
       case TickerJson(list) =>
         if list.None? then ProcessingError
         else match StrictUsdtFilter(list.value, SymbolOf)
           case None => ProcessingError
           case Some(pairs) =>
             assert forall i :: 0 <= i < |pairs| ==> pairs[i] in pairs;
             Rows(MergeBinance(pairs, BinanceFundingMap(funding))))
    case BybitReplies(ticker, fundingOf) =>
      (match ticker
       case TickerFailed => TickerError(TickerErrorMessage(e))
       case TickerJson(list) =>
         if list.None? then ProcessingError
         else match BybitPairs(list.value, parse)
           case None => ProcessingError
           case Some(pairs) =>
             assert forall i :: 0 <= i < |pairs| ==> pairs[i] in pairs;
             Rows(MergeBybit(pairs, BybitFundingMapOf(Symbols(pairs), fundingOf), parse, fmt)))
  }

  /**
   * Every Binance `USDT` ticker becomes exactly one row, in reply order; a
   * failed funding request leaves every funding cell `'-'`.
   */
  lemma BinanceRowsMatchPairs(list: seq<BinanceTicker>, funding: FundingReply, parse: string -> Number, fmt: Formatting)
    requires forall i :: 0 <= i < |list| ==> list[i].symbol.Some?
    ensures var r := Fetch(Binance, BinanceReplies(TickerJson(Some(list)), funding), parse, fmt);
      && r.Rows?
      && |r.rows| == |LenientUsdtFilter(list, SymbolOf)|
      && (forall i :: 0 <= i < |r.rows| ==> Some(r.rows[i].symbol) == LenientUsdtFilter(list, SymbolOf)[i].symbol)
      && (funding.FundingFailed? ==> forall i :: 0 <= i < |r.rows| ==> r.rows[i].fundingRate == MissingFunding)
  {
  }

  /** A symbol's funding cell shows the rate of its last entry in the Binance funding list. */
  lemma BinanceFundingCell(entries: seq<FundingEntry>, i: int)
    requires 0 <= i < |entries| && entries[i].lastFundingRate.Some?
    requires forall j :: i < j < |entries| ==> entries[j].symbol != entries[i].symbol
    ensures FundingOf(FundingMapOf(entries), entries[i].symbol) == entries[i].lastFundingRate.value
  {
    FundingMapLaterWins(entries, i);
  }

  /** With every turnover a number, the kept Bybit pairs come in order of non-increasing `volume24h * lastPrice`. */
  lemma BybitPairsRanked(list: seq<BybitTicker>, parse: string -> Number)
    requires forall i :: 0 <= i < |list| ==> list[i].symbol.Some?
    requires forall x :: x in list ==> Turnover(x, parse).Finite?
    ensures BybitPairs(list, parse).Some?
    ensures var pairs := BybitPairs(list, parse).value;
      forall i, j :: 0 <= i < j < |pairs| ==>
        Turnover(pairs[i], parse).Finite? && Turnover(pairs[j], parse).Finite?
        && Turnover(pairs[i], parse).value >= Turnover(pairs[j], parse).value
  {
    var usdt := StrictUsdtFilter(list, BybitSymbolOf).value;
    assert forall x :: x in usdt ==> x in list;
    TopByKeyOrdered(usdt, TurnoverKey(parse), TopCount);
  }

  /** The Bybit rows are the kept pairs, one row per pair and in the same order. */
  lemma BybitRowsFollowPairs(list: seq<BybitTicker>, fundingOf: string -> BybitFundingReply, parse: string -> Number, fmt: Formatting)
    requires forall i :: 0 <= i < |list| ==> list[i].symbol.Some?
    ensures BybitPairs(list, parse).Some?
    ensures var r := Fetch(Bybit, BybitReplies(TickerJson(Some(list)), fundingOf), parse, fmt);
      var pairs := BybitPairs(list, parse).value;
      && r.Rows? && |r.rows| == |pairs|
      && forall i :: 0 <= i < |pairs| ==>
           Some(r.rows[i].symbol) == pairs[i].symbol && r.rows[i].quoteVolume == fmt.show(Turnover(pairs[i], parse))
  {
    var pairs := BybitPairs(list, parse).value;
    assert forall i :: 0 <= i < |pairs| ==> pairs[i] in pairs;
    var rows := MergeBybit(pairs, BybitFundingMapOf(Symbols(pairs), fundingOf), parse, fmt);
    assert Fetch(Bybit, BybitReplies(TickerJson(Some(list)), fundingOf), parse, fmt) == Rows(rows);
  }
}
