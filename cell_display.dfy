/**
 * What a market-table cell shows: the compact K/M/B volume, the signed
 * percentage, the symbol with its quote currency dropped, and the flash
 * colour a changed number gets against the value remembered for its cell.
 */
module CellDisplay {
  import opened Wrappers
  import opened Text
  import opened JsNumbers

  /** A cell's value: a number, or a string still to be parsed. */
  datatype CellValue = Num(n: Number) | Str(s: string)

  /** Number formatting, left uninterpreted: `n.toFixed(d)` and `n.toLocaleString()`. */
  datatype NumberFormat = NumberFormat(fixed: (Number, nat) -> string, locale: Number -> string)

  /** `typeof v === 'number' ? v : parseFloat(v)`. */
  function NumberOf(v: CellValue, parse: string -> Number): Number
  {
    match v
    case Num(n) => n
    case Str(s) => parse(s)
  }

  // ---------------------------------------------------------------------
  // formatCompactNumber

  /** The shape `formatCompactNumber` picks: a dash, a scaled value with a unit, or the plain value. */
  datatype CompactForm = Dash | Scaled(mantissa: real, suffix: string) | Plain(value: real)

  function Unit(suffix: string): real
  {
    if suffix == "B" then 1000000000.0 else if suffix == "M" then 1000000.0 else 1000.0
  }

  function CompactOf(n: Number): (c: CompactForm)
    ensures c.Dash? <==> n.NaN?
    ensures c.Scaled? ==> (c.suffix == "B" || c.suffix == "M" || c.suffix == "K")
    ensures c.Scaled? ==> c.mantissa * Unit(c.suffix) == n.value && 1.0 <= c.mantissa
    ensures c.Scaled? && c.suffix != "B" ==> c.mantissa < 1000.0
    ensures c.Plain? ==> c.value == n.value && c.value < 1000.0
  {
    match n
    case NaN => Dash
    case Finite(x) =>
      if x >= 1000000000.0 then Scaled(x / 1000000000.0, "B")
      else if x >= 1000000.0 then Scaled(x / 1000000.0, "M")
      else if x >= 1000.0 then Scaled(x / 1000.0, "K")
      else Plain(x)
  }

  /** `formatCompactNumber(v)`. */
  function FormatCompact(v: CellValue, parse: string -> Number, fmt: NumberFormat): (text: string)
    ensures NumberOf(v, parse).NaN? ==> text == "-"
  {
    match CompactOf(NumberOf(v, parse))
    case Dash => "-"
    case Scaled(m, suffix) => fmt.fixed(Finite(m), 2) + suffix
    case Plain(x) => fmt.locale(Finite(x))
  }

  /** Each unit is used exactly from its threshold up to the next one. */
  lemma CompactThresholds(x: real)
    ensures CompactOf(Finite(x)).Scaled? && CompactOf(Finite(x)).suffix == "B" <==> x >= 1000000000.0
    ensures CompactOf(Finite(x)).Scaled? && CompactOf(Finite(x)).suffix == "M" <==> 1000000.0 <= x < 1000000000.0
    ensures CompactOf(Finite(x)).Scaled? && CompactOf(Finite(x)).suffix == "K" <==> 1000.0 <= x < 1000000.0
    ensures CompactOf(Finite(x)).Plain? <==> x < 1000.0
  {
  }

  // ---------------------------------------------------------------------
  // Signed percentages

  /** `${value > 0 ? '+' : ''}${value.toFixed(decimals)}%`. */
  function PercentText(n: Number, decimals: nat, fmt: NumberFormat): string
  {
    (if Greater(n, Finite(0.0)) then "+" else "") + fmt.fixed(n, decimals) + "%"
  }

  /** The funding cell of the current table: `${num >= 0 ? '+' : ''}${num.toFixed(4)}%`. */
  function FundingText(n: Number, fmt: NumberFormat): string
  {
    (if n.Finite? && n.value >= 0.0 then "+" else "") + fmt.fixed(n, 4) + "%"
  }

  /** `toFixed` never writes a plus sign. */
  ghost predicate NoPlusSign(fmt: NumberFormat)
  {
    forall n, d :: fmt.fixed(n, d) == [] || fmt.fixed(n, d)[0] != '+'
  }

  /**
   * A percentage starts with `+` exactly for a positive value, and the
   * funding text exactly for a value that is not negative; both end in `%`.
   */
  lemma SignedTexts(n: Number, decimals: nat, fmt: NumberFormat)
    requires NoPlusSign(fmt)
    ensures var t := PercentText(n, decimals, fmt); |t| > 0 && t[|t| - 1] == '%' && (t[0] == '+' <==> Greater(n, Finite(0.0)))
    ensures var t := FundingText(n, fmt); |t| > 0 && t[|t| - 1] == '%' && (t[0] == '+' <==> n.Finite? && n.value >= 0.0)
  {
    var f := fmt.fixed(n, decimals);
    var g := fmt.fixed(n, 4);
    assert f == [] || f[0] != '+';
    assert g == [] || g[0] != '+';
  }

  // ---------------------------------------------------------------------
  // Choosing what a cell shows

  /**
   * The props of a cell: the current table passes its own formatter for
   * funding (`formatValue`), the older one only `compact`, `percent` and
   * `decimals`.
   */
  datatype CellOptions = CellOptions(formatValue: bool, compact: bool, percent: bool, decimals: nat)

  /** The current table: formatter, then compact, then percent, then the locale string, else the raw value. */
  function DisplayCurrent(opts: CellOptions, v: CellValue, parse: string -> Number, fmt: NumberFormat): string
  {
    if opts.formatValue then FundingText(NumberOf(v, parse), fmt)
    else if opts.compact then FormatCompact(v, parse, fmt)
    else if opts.percent && v.Num? then PercentText(v.n, opts.decimals, fmt)
    else if v.Num? then fmt.locale(v.n)
    else v.s
  }

  /** `value < 0.001 && value > 0`: a small positive price. */
  predicate IsTiny(n: Number)
  {
    n.Finite? && 0.0 < n.value < 0.001
  }

  /** The older table: compact, then percent, then six decimals for a tiny price or the locale string, else the raw value. */
  function DisplayOlder(opts: CellOptions, v: CellValue, parse: string -> Number, fmt: NumberFormat): string
  {
    if opts.compact then FormatCompact(v, parse, fmt)
    else if opts.percent && v.Num? then PercentText(v.n, opts.decimals, fmt)
    else if v.Num? then (if IsTiny(v.n) then fmt.fixed(v.n, 6) else fmt.locale(v.n))
    else v.s
  }

  /**
   * What each table shows, case by case. The current table lets its
   * formatter win over everything and shows every other number through the
   * locale string; the older one has no formatter and shows a tiny positive
   * price with six decimals instead. Compact wins over percent, percent over
   * plain numbers, and a string is shown as it is, in both.
   */
  lemma DisplayPrecedence(opts: CellOptions, v: CellValue, parse: string -> Number, fmt: NumberFormat)
    ensures opts.formatValue ==> DisplayCurrent(opts, v, parse, fmt) == FundingText(NumberOf(v, parse), fmt)
    ensures !opts.formatValue && opts.compact ==> DisplayCurrent(opts, v, parse, fmt) == FormatCompact(v, parse, fmt)
    ensures !opts.formatValue && !opts.compact && opts.percent && v.Num? ==> DisplayCurrent(opts, v, parse, fmt) == PercentText(v.n, opts.decimals, fmt)
    ensures !opts.formatValue && !opts.compact && !opts.percent && v.Num? ==> DisplayCurrent(opts, v, parse, fmt) == fmt.locale(v.n)
    ensures !opts.formatValue && !opts.compact && v.Str? ==> DisplayCurrent(opts, v, parse, fmt) == v.s
    ensures opts.compact ==> DisplayOlder(opts, v, parse, fmt) == FormatCompact(v, parse, fmt)
    ensures !opts.compact && opts.percent && v.Num? ==> DisplayOlder(opts, v, parse, fmt) == PercentText(v.n, opts.decimals, fmt)
    ensures !opts.compact && !opts.percent && v.Num? && IsTiny(v.n) ==> DisplayOlder(opts, v, parse, fmt) == fmt.fixed(v.n, 6)
    ensures !opts.compact && !opts.percent && v.Num? && !IsTiny(v.n) ==> DisplayOlder(opts, v, parse, fmt) == fmt.locale(v.n)
    ensures !opts.compact && v.Str? ==> DisplayOlder(opts, v, parse, fmt) == v.s
  {
  }

  /**
   * Without the formatter the two tables show the same text, except for a
   * tiny positive plain number, which only the older one fixes to six
   * decimals.
   */
  lemma DisplayTablesAgree(opts: CellOptions, v: CellValue, parse: string -> Number, fmt: NumberFormat)
    ensures !opts.formatValue && !(!opts.compact && !opts.percent && v.Num? && IsTiny(v.n)) ==>
      DisplayCurrent(opts, v, parse, fmt) == DisplayOlder(opts, v, parse, fmt)
    ensures !opts.formatValue && !opts.compact && !opts.percent && v.Num? && IsTiny(v.n) ==>
      (DisplayCurrent(opts, v, parse, fmt) == DisplayOlder(opts, v, parse, fmt) <==> fmt.locale(v.n) == fmt.fixed(v.n, 6))
  {
  }

  // ---------------------------------------------------------------------
  // Symbol text

  const QuoteSuffixes: seq<string> := ["USDT", "BUSD", "USDC", "TUSD", "FDUSD", "DAI", "TRY", "EUR"]

  /** The first position from `i` on where the rest of `s` is one of the quote currencies. */
  function LeftmostQuote(s: string, i: nat): (k: int)
    requires i <= |s|
    ensures k == -1 || (i <= k <= |s| && s[k..] in QuoteSuffixes)
    ensures k == -1 ==> forall j :: i <= j <= |s| ==> s[j..] !in QuoteSuffixes
    ensures k >= 0 ==> forall j :: i <= j < k ==> s[j..] !in QuoteSuffixes
    decreases |s| - i
  {
    if s[i..] in QuoteSuffixes then i
    else if i == |s| then -1
    else LeftmostQuote(s, i + 1)
  }

  /**
   * `s.replace(/(USDT|BUSD|USDC|TUSD|FDUSD|DAI|TRY|EUR)$/, '')`: the match
   * starting furthest left that reaches the end of the string is removed.
   */
  function StripQuote(s: string): (r: string)
    ensures (exists q :: q in QuoteSuffixes && EndsWith(s, q)) ==>
      exists q :: q in QuoteSuffixes && EndsWith(s, q) && s == r + q
    ensures (forall q :: q in QuoteSuffixes ==> !EndsWith(s, q)) ==> r == s
  {
    var k := LeftmostQuote(s, 0);
    if k < 0 then
      assert forall q :: q in QuoteSuffixes ==> !EndsWith(s, q) by {
        forall q | q in QuoteSuffixes && |q| <= |s| ensures s[|s| - |q|..] != q {
          assert s[|s| - |q|..] !in QuoteSuffixes;
        }
      }
      s
    else
      assert EndsWith(s, s[k..]) && s == s[..k] + s[k..];
      s[..k]
  }

  lemma SuffixOfSuffix(s: string, p: string, q: string)
    requires EndsWith(s, p) && EndsWith(s, q) && |p| <= |q|
    ensures EndsWith(q, p)
  {
    assert q[|q| - |p|..] == s[|s| - |p|..];
  }

  /** No quote currency ends another, so a symbol has at most one quote suffix to drop. */
  lemma QuoteSuffixUnique(s: string, p: string, q: string)
    requires p in QuoteSuffixes && q in QuoteSuffixes
    requires EndsWith(s, p) && EndsWith(s, q)
    ensures p == q
  {
    if |p| <= |q| { SuffixOfSuffix(s, p, q); } else { SuffixOfSuffix(s, q, p); }
    forall a, b | a in QuoteSuffixes && b in QuoteSuffixes && a != b && |a| <= |b|
      ensures !EndsWith(b, a)
    {
      NotSuffix(a, b);
    }
  }

  lemma NotSuffix(a: string, b: string)
    requires a in QuoteSuffixes && b in QuoteSuffixes && a != b && |a| <= |b|
    ensures !EndsWith(b, a)
  {
  }

  /** A symbol made of a base asset and one quote currency shows the base asset. */
  lemma StripQuoteOfPair(base: string, q: string)
    requires q in QuoteSuffixes
    ensures StripQuote(base + q) == base
  {
    var s := base + q;
    assert EndsWith(s, q) by { assert s[|s| - |q|..] == q; }
    var r := StripQuote(s);
    var q' :| q' in QuoteSuffixes && EndsWith(s, q') && s == r + q';
    QuoteSuffixUnique(s, q, q');
    assert r == s[..|s| - |q|];
    assert base == s[..|s| - |q|];
  }

  /**
   * The base asset of the current table: `symbol.replace('USDT', '')`, so
   * the first `USDT` anywhere in the symbol goes.
   */
  function BaseAsset(symbol: string): string
  {
    RemoveFirst(symbol, "USDT")
  }

  /** For a symbol whose only `USDT` is its ending, the base asset is the rest. */
  lemma BaseAssetOfPair(base: string)
    requires !Contains(base + "USD", "USDT")
    ensures BaseAsset(base + "USDT") == base
  {
    var s := base + "USDT";
    assert OccursAt(s, "USDT", |base|) by { assert s[|base|..|base| + 4] == "USDT"; }
    var i := IndexOf(s, "USDT");
    assert i == |base| by {
      if i < |base| {
        assert s[i..i + 4] == (base + "USD")[i..i + 4];
        assert OccursAt(base + "USD", "USDT", i);
      }
    }
    assert s[..i] == base;
  }

  // ---------------------------------------------------------------------
  // Flash on change

  datatype Flash = Up | Down

  /** The module-level `prevValues`: the last number remembered for each cell. */
  type PrevValues = map<string, Number>

  /** A cell's key, `symbol + ':' + field`. */
  function CellKey(symbol: string, field: string): (k: string)
    ensures |k| == |symbol| + 1 + |field| && k[|symbol|] == ':'
    ensures k[..|symbol|] == symbol && k[|symbol| + 1..] == field
  {
    symbol + ":" + field
  }

  /** The flash a new value causes: a number that is `!==` a remembered number flashes up iff it is greater. */
  function FlashFor(prev: PrevValues, key: string, v: CellValue): (f: Option<Flash>)
    ensures f.Some? <==> v.Num? && key in prev && !StrictEquals(v.n, prev[key])
    ensures f == Some(Up) <==> v.Num? && key in prev && Greater(v.n, prev[key])
  {
    if v.Num? && key in prev && !StrictEquals(v.n, prev[key]) then
      Some(if Greater(v.n, prev[key]) then Up else Down)
    else None
  }

  /** A flash and the remembered values after one render of a cell. */
  datatype FlashStep = FlashStep(flash: Option<Flash>, prev: PrevValues)

  /** The effect as written: on the flash path it returns before remembering the new value. */
  function FlashStepAsWritten(prev: PrevValues, key: string, v: CellValue, parse: string -> Number): (r: FlashStep)
    ensures r.flash == FlashFor(prev, key, v)
    ensures r.flash.Some? ==> r.prev == prev
    ensures r.flash.None? ==> r.prev == prev[key := NumberOf(v, parse)]
  {
    var f := FlashFor(prev, key, v);
    if f.Some? then FlashStep(f, prev) else FlashStep(None, prev[key := NumberOf(v, parse)])
  }

  /** A price that rises to 105 and then falls to 103 flashes up twice, because 103 is compared with 100. */
  lemma AsWrittenComparesWithStaleValue(key: string, parse: string -> Number)
    ensures var s1 := FlashStepAsWritten(map[], key, Num(Finite(100.0)), parse);
      var s2 := FlashStepAsWritten(s1.prev, key, Num(Finite(105.0)), parse);
      var s3 := FlashStepAsWritten(s2.prev, key, Num(Finite(103.0)), parse);
      s2.flash == Some(Up) && s3.flash == Some(Up) && s3.prev[key] == Finite(100.0)
  {
  }

  /** Each render remembers the value it showed, flash or not. */
  function FlashStepCorrected(prev: PrevValues, key: string, v: CellValue, parse: string -> Number): (r: FlashStep)
    ensures r.flash == FlashFor(prev, key, v)
    ensures r.prev == prev[key := NumberOf(v, parse)]
  {
    FlashStep(FlashFor(prev, key, v), prev[key := NumberOf(v, parse)])
  }

  /** With the correction a numeric cell always flashes against the value rendered just before. */
  lemma CorrectedComparesWithLastValue(prev: PrevValues, key: string, a: real, b: real, parse: string -> Number)
    ensures var s1 := FlashStepCorrected(prev, key, Num(Finite(a)), parse);
      var s2 := FlashStepCorrected(s1.prev, key, Num(Finite(b)), parse);
      && (s2.flash == Some(Up) <==> b > a)
      && (s2.flash == Some(Down) <==> b < a)
      && (s2.flash == None <==> b == a)
  {
  }

  lemma CorrectedFallAfterRise(key: string, parse: string -> Number)
    ensures var s1 := FlashStepCorrected(map[], key, Num(Finite(100.0)), parse);
      var s2 := FlashStepCorrected(s1.prev, key, Num(Finite(105.0)), parse);
      var s3 := FlashStepCorrected(s2.prev, key, Num(Finite(103.0)), parse);
      s2.flash == Some(Up) && s3.flash == Some(Down)
  {
    CorrectedComparesWithLastValue(map[], key, 100.0, 105.0, parse);
  }

  /**
   * The dependencies `[value, prev, key]` of a cell's effect at its last
   * render; React compares them with `Object.is`, which on these values is
   * equality (NaN is the same as NaN).
   */
  datatype Deps = Deps(value: CellValue, prev: Option<Number>)

  /** What the table's cells remember between renders: `prevValues` and each cell's last dependencies. */
  datatype CellMemory = CellMemory(prevValues: PrevValues, lastDeps: map<string, Deps>)

  /** The dependencies a render of cell `key` with value `v` sees. */
  function DepsOf(prev: PrevValues, key: string, v: CellValue): Deps
  {
    Deps(v, if key in prev then Some(prev[key]) else None)
  }

  /** A flash and the memory after one render of a cell. */
  datatype RenderResult = RenderResult(flash: Option<Flash>, memory: CellMemory)

  /**
   * One render of cell `key`: the effect runs, as written, only on the
   * cell's first render or when its dependencies changed since the last one.
   */
  function RenderStep(m: CellMemory, key: string, v: CellValue, parse: string -> Number): (r: RenderResult)
    ensures r.memory.lastDeps == m.lastDeps[key := DepsOf(m.prevValues, key, v)]
    ensures key in m.lastDeps && m.lastDeps[key] == DepsOf(m.prevValues, key, v) ==>
      r.flash == None && r.memory.prevValues == m.prevValues
    ensures !(key in m.lastDeps && m.lastDeps[key] == DepsOf(m.prevValues, key, v)) ==>
      FlashStep(r.flash, r.memory.prevValues) == FlashStepAsWritten(m.prevValues, key, v, parse)
  {
    var deps := DepsOf(m.prevValues, key, v);
    if key in m.lastDeps && m.lastDeps[key] == deps then
      RenderResult(None, CellMemory(m.prevValues, m.lastDeps[key := deps]))
    else
      var s := FlashStepAsWritten(m.prevValues, key, v, parse);
      RenderResult(s.flash, CellMemory(s.prev, m.lastDeps[key := deps]))
  }

  /**
   * Rendering 100, 105, 105 and 103: the rise flashes, the unchanged 105
   * does not re-run the effect, so 100 stays remembered and the fall to
   * 103 flashes up again.
   */
  lemma RenderKeepsStaleValue(key: string, parse: string -> Number)
    ensures var r1 := RenderStep(CellMemory(map[], map[]), key, Num(Finite(100.0)), parse);
      var r2 := RenderStep(r1.memory, key, Num(Finite(105.0)), parse);
      var r3 := RenderStep(r2.memory, key, Num(Finite(105.0)), parse);
      var r4 := RenderStep(r3.memory, key, Num(Finite(103.0)), parse);
      && r1.flash == None && r2.flash == Some(Up) && r3.flash == None && r4.flash == Some(Up)
      && r4.memory.prevValues[key] == Finite(100.0)
  {
  }

  /** Rendering one cell leaves every other cell's memory as it was. */
  lemma {:induction false} RenderStepOtherCells(m: CellMemory, key: string, v: CellValue, parse: string -> Number, other: string)
    requires other != key
    ensures var r := RenderStep(m, key, v, parse);
      && (other in r.memory.prevValues <==> other in m.prevValues)
      && (other in m.prevValues ==> r.memory.prevValues[other] == m.prevValues[other])
      && (other in r.memory.lastDeps <==> other in m.lastDeps)
      && (other in m.lastDeps ==> r.memory.lastDeps[other] == m.lastDeps[other])
  {
    var r := RenderStep(m, key, v, parse);
    var deps := DepsOf(m.prevValues, key, v);
    if !(key in m.lastDeps && m.lastDeps[key] == deps) {
      var s := FlashStepAsWritten(m.prevValues, key, v, parse);
      assert r.memory.prevValues == s.prev;
    }
  }

  /** The memory of one table's cells, shared by all of its cells. */
  class FlashTracker {
    var prevValues: PrevValues
    var lastDeps: map<string, Deps>

    constructor ()
      ensures prevValues == map[] && lastDeps == map[]
    {
      prevValues, lastDeps := map[], map[];
    }

    /** One render of the cell `symbol`/`field` with value `v`; the flash it starts, if any. */
    method Render(symbol: string, field: string, v: CellValue, parse: string -> Number) returns (flash: Option<Flash>)
      modifies this
      ensures RenderResult(flash, CellMemory(prevValues, lastDeps))
        == RenderStep(CellMemory(old(prevValues), old(lastDeps)), CellKey(symbol, field), v, parse)
    {
      var key := CellKey(symbol, field);
      var deps := Deps(v, if key in prevValues then Some(prevValues[key]) else None);
      flash := None;
      if !(key in lastDeps && lastDeps[key] == deps) {
        flash := FlashFor(prevValues, key, v);
        if flash.None? {
          prevValues := prevValues[key := NumberOf(v, parse)];
        }
      }
      lastDeps := lastDeps[key := deps];
    }
  }
}
