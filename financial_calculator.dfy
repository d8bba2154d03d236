/**
 * The four trading calculators: profit and loss, breakeven over several
 * entries, position size and drawdown. Each keeps its inputs as the strings
 * the text boxes hold, refuses to calculate while a required box is empty,
 * and shows its result through `toFixed`, which stays uninterpreted. The
 * arithmetic is JavaScript's on exact values.
 */
module FinancialCalculator {
  import opened Wrappers
  import opened JsNumbers

  datatype Position = Long | Short

  /** `togglePosition`: `'long'` becomes `'short'` and anything else `'long'`. */
  function TogglePosition(p: Position): (r: Position)
    ensures r != p
  {
    if p == Long then Short else Long
  }

  lemma TogglePositionTwice(p: Position)
    ensures TogglePosition(TogglePosition(p)) == p
  {
  }

  /** A text box's value as a condition: only the empty string is falsy. */
  predicate Filled(s: string)
  {
    s != ""
  }

  const Hundred := Finite(100.0)
  const One := Finite(1.0)
  const Two := Finite(2.0)

  /** `Math.abs`. */
  function Abs(a: Number): (r: Number)
    ensures r.Finite? <==> a.Finite?
    ensures r.Finite? ==> r.value >= 0.0 && (r.value == a.value || r.value == -a.value)
  {
    if a.NaN? then NaN else if a.value < 0.0 then Finite(-a.value) else a
  }

  // ---------------------------------------------------------------------
  // Profit and loss

  datatype PnlNumbers = PnlNumbers(pl: Number, roi: Number, effectiveCost: Number, breakEven: Number)
  datatype PnlResult = PnlResult(pl: string, roi: string, effectiveCost: string, profit: bool, breakEven: string)

  /** The figures `calculateResults` computes from the parsed inputs and the fee fraction. */
  function PnlOf(position: Position, entry: Number, exit: Number, size: Number, lev: Number, feeFraction: Number): PnlNumbers
  {
    var totalFees := Plus(Times(Times(entry, size), feeFraction), Times(Times(exit, size), feeFraction));
    var effectiveCost := Quotient(Times(entry, size), lev);
    var move := if position == Long then Minus(exit, entry) else Minus(entry, exit);
    var pl := Minus(Times(Times(move, size), lev), totalFees);
    PnlNumbers(pl, Times(Quotient(pl, effectiveCost), Hundred), effectiveCost, BreakEven(position, entry, feeFraction))
  }

  /** The breakeven price: the entry moved by twice the fee fraction, up for a long position and down for a short one. */
  function BreakEven(position: Position, entry: Number, feeFraction: Number): Number
  {
    var doubleFee := Times(feeFraction, Two);
    if position == Long then Times(entry, Plus(One, doubleFee)) else Times(entry, Minus(One, doubleFee))
  }

  lemma BreakEvenSide(entry: Number, feeFraction: Number)
    requires entry.Finite? && entry.value > 0.0 && feeFraction.Finite? && feeFraction.value > 0.0
    ensures Greater(BreakEven(Long, entry, feeFraction), entry)
    ensures Less(BreakEven(Short, entry, feeFraction), entry)
  {
    var e, f := entry.value, feeFraction.value;
    assert e * (1.0 + f * 2.0) == e + e * f * 2.0;
    assert e * (1.0 - f * 2.0) == e - e * f * 2.0;
    assert e * f > 0.0;
  }

  /** Without fees a short position gains exactly what a long one loses, and both break even at the entry. */
  lemma PnlMirror(entry: Number, exit: Number, size: Number, lev: Number)
    requires entry.Finite? && exit.Finite? && size.Finite? && lev.Finite?
    ensures var long := PnlOf(Long, entry, exit, size, lev, Finite(0.0));
      var short := PnlOf(Short, entry, exit, size, lev, Finite(0.0));
      && long.pl.Finite? && short.pl.Finite? && short.pl.value == -long.pl.value
      && long.breakEven == entry && short.breakEven == entry
  {
    var e, x, s, l := entry.value, exit.value, size.value, lev.value;
    var zero := Finite(0.0);
    assert e * s * 0.0 == 0.0 && x * s * 0.0 == 0.0;
    assert Plus(Times(Times(entry, size), zero), Times(Times(exit, size), zero)) == zero;
    assert 0.0 * 2.0 == 0.0;
    assert Times(zero, Two) == zero;
    assert e * (1.0 + 0.0) == e && e * (1.0 - 0.0) == e;
    var m := x - e;
    assert (e - x) * s * l == -(m * s * l);
  }

  /**
   * A long position with fees breaks even above its entry, a short one
   * below it, for a positive entry price and a positive fee.
   */
  lemma PnlBreakEvenSide(entry: Number, exit: Number, size: Number, lev: Number, feeFraction: Number)
    requires entry.Finite? && entry.value > 0.0 && feeFraction.Finite? && feeFraction.value > 0.0
    ensures Greater(PnlOf(Long, entry, exit, size, lev, feeFraction).breakEven, entry)
    ensures Less(PnlOf(Short, entry, exit, size, lev, feeFraction).breakEven, entry)
  {
    BreakEvenSide(entry, feeFraction);
  }

  class ProfitLossCalculator {
    var position: Position
    var entryPrice: string
    var exitPrice: string
    var positionSize: string
    var leverage: string
    var fee: string
    var includeFees: bool
    var result: Option<PnlResult>

    constructor ()
      ensures position == Long && entryPrice == "" && exitPrice == "" && positionSize == ""
      ensures leverage == "1" && fee == "0.1" && includeFees && result == None
    {
      position := Long;
      entryPrice := "";
      exitPrice := "";
      positionSize := "";
      leverage := "1";
      fee := "0.1";
      includeFees := true;
      result := None;
    }

    /**
     * `calculateResults`: nothing while entry price, position size or exit
     * price is empty; otherwise the figures, written with two decimals, and
     * `profit` exactly when the result is above zero.
     */
    method CalculateResults(parse: string -> Number, fixed: (Number, nat) -> string)
      modifies this`result
      ensures !(Filled(entryPrice) && Filled(positionSize) && Filled(exitPrice)) ==> result == old(result)
      ensures Filled(entryPrice) && Filled(positionSize) && Filled(exitPrice) ==>
        var feeFraction := if includeFees then Quotient(parse(fee), Hundred) else Finite(0.0);
        var n := PnlOf(position, parse(entryPrice), parse(exitPrice), parse(positionSize), parse(leverage), feeFraction);
        result == Some(PnlResult(fixed(n.pl, 2), fixed(n.roi, 2), fixed(n.effectiveCost, 2), Greater(n.pl, Finite(0.0)), fixed(n.breakEven, 2)))
    {
      if !Filled(entryPrice) || !Filled(positionSize) || !Filled(exitPrice) {
        return;
      }
      var feeFraction := if includeFees then Quotient(parse(fee), Hundred) else Finite(0.0);
      var n := PnlOf(position, parse(entryPrice), parse(exitPrice), parse(positionSize), parse(leverage), feeFraction);
      result := Some(PnlResult(fixed(n.pl, 2), fixed(n.roi, 2), fixed(n.effectiveCost, 2), Greater(n.pl, Finite(0.0)), fixed(n.breakEven, 2)));
    }

    method TogglePositionButton()
      modifies this`position
      ensures position == TogglePosition(old(position))
    {
      position := TogglePosition(position);
    }
  }

  // ---------------------------------------------------------------------
  // Breakeven over several entries

  datatype Entry = Entry(price: string, quantity: string, fee: string)
  datatype Field = Price | Quantity | Fee
  datatype BreakevenResult = BreakevenResult(breakEvenPrice: string, totalQuantity: string, totalCost: string)

  /** `newEntries[index][field] = value` on one entry. */
  function WithField(e: Entry, field: Field, value: string): (r: Entry)
    ensures field == Price ==> r == e.(price := value)
    ensures field == Quantity ==> r == e.(quantity := value)
    ensures field == Fee ==> r == e.(fee := value)
  {
    match field
    case Price => e.(price := value)
    case Quantity => e.(quantity := value)
    case Fee => e.(fee := value)
  }

  /**
   * `[...s].splice(index, 1)`'s remaining array: a negative index counts
   * from the end (and below the start means the first item), an index past
   * the end removes nothing.
   */
  function Spliced<T>(s: seq<T>, index: int): (r: seq<T>)
    ensures var start := if index < 0 then (if |s| + index < 0 then 0 else |s| + index) else index;
      && (start < |s| ==> r == s[..start] + s[start + 1..])
      && (start >= |s| ==> r == s)
  {
    var start := if index < 0 then (if |s| + index < 0 then 0 else |s| + index) else index;
    if start < |s| then s[..start] + s[start + 1..] else s
  }

  /** Both boxes of an entry filled, as `calculateBreakeven`'s first loop demands. */
  predicate Complete(e: Entry)
  {
    Filled(e.price) && Filled(e.quantity)
  }

  /** One entry's addition to the total: cost plus fees when long, credit minus fees when short. */
  function EntryCost(position: Position, e: Entry, parse: string -> Number): Number
  {
    var gross := Times(parse(e.price), parse(e.quantity));
    var fees := Times(gross, Quotient(parse(e.fee), Hundred));
    if position == Long then Plus(gross, fees) else Minus(gross, fees)
  }

  /** `totalCost` after the loop has passed `entries`, added from the first to the last. */
  function TotalCost(position: Position, entries: seq<Entry>, parse: string -> Number): Number
  {
    if |entries| == 0 then Finite(0.0)
    else Plus(TotalCost(position, entries[..|entries| - 1], parse), EntryCost(position, entries[|entries| - 1], parse))
  }

  function TotalQuantity(entries: seq<Entry>, parse: string -> Number): Number
  {
    if |entries| == 0 then Finite(0.0)
    else Plus(TotalQuantity(entries[..|entries| - 1], parse), parse(entries[|entries| - 1].quantity))
  }

  /** The average cost per unit, moved by the default fee: up when long, down when short. */
  function BreakevenPrice(position: Position, entries: seq<Entry>, fees: string, parse: string -> Number): Number
  {
    var feeRate := Quotient(parse(fees), Hundred);
    var perUnit := Quotient(TotalCost(position, entries, parse), TotalQuantity(entries, parse));
    if position == Long then Times(perUnit, Plus(One, feeRate)) else Times(perUnit, Minus(One, feeRate))
  }

  /** Fee-free entries cost the same whichever way the position goes. */
  lemma {:induction false} TotalCostWithoutFees(entries: seq<Entry>, parse: string -> Number)
    requires forall i :: 0 <= i < |entries| ==> parse(entries[i].fee) == Finite(0.0)
    ensures TotalCost(Long, entries, parse) == TotalCost(Short, entries, parse)
    decreases |entries|
  {
    if |entries| > 0 {
      var init := entries[..|entries| - 1];
      assert forall i :: 0 <= i < |init| ==> init[i] == entries[i];
      TotalCostWithoutFees(init, parse);
      assert parse(entries[|entries| - 1].fee) == Finite(0.0);
    }
  }

  /**
   * Without fees the breakeven price is the same for a long and a short
   * position: the quantity-weighted average price. A single fee-free entry
   * breaks even at its own price.
   */
  lemma BreakevenWithoutFees(entries: seq<Entry>, fees: string, parse: string -> Number)
    requires forall i :: 0 <= i < |entries| ==> parse(entries[i].fee) == Finite(0.0)
    requires parse(fees) == Finite(0.0)
    ensures BreakevenPrice(Long, entries, fees, parse) == BreakevenPrice(Short, entries, fees, parse)
    ensures (|entries| == 1 && parse(entries[0].price).Finite? && parse(entries[0].quantity).Finite?
      && parse(entries[0].quantity).value != 0.0) ==>
      BreakevenPrice(Long, entries, fees, parse) == parse(entries[0].price)
  {
    TotalCostWithoutFees(entries, parse);
    assert 0.0 / 100.0 == 0.0;
    var feeRate := Quotient(parse(fees), Hundred);
    assert feeRate == Finite(0.0);
    assert Plus(One, feeRate) == One && Minus(One, feeRate) == One;
    if |entries| == 1 && parse(entries[0].price).Finite? && parse(entries[0].quantity).Finite?
      && parse(entries[0].quantity).value != 0.0 {
      SingleEntryBreakeven(entries[0], fees, parse);
      assert entries == [entries[0]];
    }
  }

  /** A single fee-free entry breaks even at its own price. */
  lemma SingleEntryBreakeven(e: Entry, fees: string, parse: string -> Number)
    requires parse(e.fee) == Finite(0.0) && parse(fees) == Finite(0.0)
    requires parse(e.price).Finite? && parse(e.quantity).Finite? && parse(e.quantity).value != 0.0
    ensures BreakevenPrice(Long, [e], fees, parse) == parse(e.price)
  {
    var p, q := parse(e.price).value, parse(e.quantity).value;
    assert [e][..0] == [];
    assert 0.0 / 100.0 == 0.0;
    assert p * q * 0.0 == 0.0;
    assert EntryCost(Long, e, parse) == Finite(p * q);
    assert TotalCost(Long, [e], parse) == Finite(0.0 + p * q);
    assert TotalQuantity([e], parse) == Finite(0.0 + q);
    assert (0.0 + p * q) / (0.0 + q) == p;
    assert p * (1.0 + 0.0) == p;
  }

  class BreakevenCalculator {
    var position: Position
    var entries: seq<Entry>
    var fees: string
    var result: Option<BreakevenResult>

    /** There is always at least one entry. */
    ghost predicate Valid()
      reads this`entries
    {
      |entries| >= 1
    }

    constructor ()
      ensures Valid()
      ensures position == Long && entries == [Entry("", "", "0.1")] && fees == "0.1" && result == None
    {
      position := Long;
      entries := [Entry("", "", "0.1")];
      fees := "0.1";
      result := None;
    }

    /** `addEntry`: one empty entry carrying the current default fee. */
    method AddEntry()
      requires Valid()
      modifies this`entries
      ensures Valid()
      ensures entries == old(entries) + [Entry("", "", fees)]
    {
      entries := entries + [Entry("", "", fees)];
    }

    /** `removeEntry`: the last entry is never removed. */
    method RemoveEntry(index: int)
      requires Valid()
      modifies this`entries
      ensures Valid()
      ensures |old(entries)| > 1 ==> entries == Spliced(old(entries), index)
      ensures |old(entries)| <= 1 ==> entries == old(entries)
    {
      if |entries| > 1 {
        entries := Spliced(entries, index);
      }
    }

    /** `updateEntry`: one field of one entry; a new fee also becomes the default for later entries. */
    method UpdateEntry(index: nat, field: Field, value: string)
      requires Valid() && index < |entries|
      modifies this`entries, this`fees
      ensures Valid()
      ensures entries == old(entries)[index := WithField(old(entries)[index], field, value)]
      ensures field == Fee ==> fees == value
      ensures field != Fee ==> fees == old(fees)
    {
      entries := entries[index := WithField(entries[index], field, value)];
      if field == Fee {
        fees := value;
      }
    }

    /**
     * `calculateBreakeven`: nothing while some entry lacks a price or a
     * quantity; otherwise the totals over all entries and the breakeven
     * price, with eight and two decimals.
     */
    method CalculateBreakeven(parse: string -> Number, fixed: (Number, nat) -> string)
      modifies this`result
      ensures (exists i :: 0 <= i < |entries| && !Complete(entries[i])) ==> result == old(result)
      ensures (forall i :: 0 <= i < |entries| ==> Complete(entries[i])) ==>
        result == Some(BreakevenResult(
          fixed(BreakevenPrice(position, entries, fees, parse), 8),
          fixed(TotalQuantity(entries, parse), 8),
          fixed(TotalCost(position, entries, parse), 2)))
    {
      var k := 0;
      while k < |entries|
        invariant 0 <= k <= |entries|
        invariant forall i :: 0 <= i < k ==> Complete(entries[i])
      {
        if !Complete(entries[k]) {
          return;
        }
        k := k + 1;
      }
      var totalCost := Finite(0.0);
      var totalQuantity := Finite(0.0);
      var j := 0;
      while j < |entries|
        invariant 0 <= j <= |entries|
        invariant totalCost == TotalCost(position, entries[..j], parse)
        invariant totalQuantity == TotalQuantity(entries[..j], parse)
      {
        assert entries[..j + 1][..j] == entries[..j];
        totalCost := Plus(totalCost, EntryCost(position, entries[j], parse));
        totalQuantity := Plus(totalQuantity, parse(entries[j].quantity));
        j := j + 1;
      }
      assert entries[..|entries|] == entries;
      var feeRate := Quotient(parse(fees), Hundred);
      var perUnit := Quotient(totalCost, totalQuantity);
      var price := if position == Long then Times(perUnit, Plus(One, feeRate)) else Times(perUnit, Minus(One, feeRate));
      result := Some(BreakevenResult(fixed(price, 8), fixed(totalQuantity, 8), fixed(totalCost, 2)));
    }
  }

  // ---------------------------------------------------------------------
  // Position size

  datatype PositionSizeNumbers = PositionSizeNumbers(positionSize: Number, riskAmount: Number, liquidationPrice: Number)
  datatype PositionSizeResult = PositionSizeResult(positionSize: string, riskAmount: string, liquidationPrice: string)

  /** The figures `calculatePositionSize` computes; a stop below the entry means a long position. */
  function PositionSizeOf(account: Number, riskFraction: Number, entry: Number, stop: Number, lev: Number): PositionSizeNumbers
  {
    var riskAmount := Times(account, riskFraction);
    var size := Times(Quotient(riskAmount, Abs(Minus(entry, stop))), lev);
    var liquidationFraction := Quotient(One, lev);
    var liquidation := if Greater(entry, stop) then Times(entry, Minus(One, liquidationFraction))
                       else Times(entry, Plus(One, liquidationFraction));
    PositionSizeNumbers(size, riskAmount, liquidation)
  }

  /**
   * With a positive entry and leverage, liquidation lies below the entry
   * when the stop is below it (a long) and above it otherwise.
   */
  lemma LiquidationSide(account: Number, riskFraction: Number, entry: Number, stop: Number, lev: Number)
    requires entry.Finite? && entry.value > 0.0 && stop.Finite? && lev.Finite? && lev.value > 0.0
    ensures entry.value > stop.value ==> Less(PositionSizeOf(account, riskFraction, entry, stop, lev).liquidationPrice, entry)
    ensures entry.value <= stop.value ==> Greater(PositionSizeOf(account, riskFraction, entry, stop, lev).liquidationPrice, entry)
  {
    var e, f := entry.value, 1.0 / lev.value;
    assert f > 0.0;
    assert e * (1.0 - f) == e - e * f;
    assert e * (1.0 + f) == e + e * f;
    assert e * f > 0.0;
  }

  /** The risk is the risked share of the account, and the size is that risk per unit of price distance, times leverage. */
  lemma PositionSizeRisk(account: Number, riskFraction: Number, entry: Number, stop: Number, lev: Number)
    requires account.Finite? && riskFraction.Finite? && entry.Finite? && stop.Finite? && lev.Finite?
    requires entry.value != stop.value
    ensures var n := PositionSizeOf(account, riskFraction, entry, stop, lev);
      && n.riskAmount == Finite(account.value * riskFraction.value)
      && n.positionSize.Finite?
      && n.positionSize.value * Abs(Minus(entry, stop)).value == account.value * riskFraction.value * lev.value
  {
    var d := Abs(Minus(entry, stop)).value;
    assert d > 0.0;
    var r := account.value * riskFraction.value;
    assert r / d * lev.value * d == r * lev.value;
  }

  class PositionSizeCalculator {
    var accountSize: string
    var riskPercentage: string
    var entryPrice: string
    var stopLoss: string
    var leverage: string
    var result: Option<PositionSizeResult>

    constructor ()
      ensures accountSize == "" && riskPercentage == "1" && entryPrice == "" && stopLoss == ""
      ensures leverage == "1" && result == None
    {
      accountSize := "";
      riskPercentage := "1";
      entryPrice := "";
      stopLoss := "";
      leverage := "1";
      result := None;
    }

    /** `calculatePositionSize`: nothing while account size, entry price or stop loss is empty. */
    method CalculatePositionSize(parse: string -> Number, fixed: (Number, nat) -> string)
      modifies this`result
      ensures !(Filled(accountSize) && Filled(entryPrice) && Filled(stopLoss)) ==> result == old(result)
      ensures Filled(accountSize) && Filled(entryPrice) && Filled(stopLoss) ==>
        var n := PositionSizeOf(parse(accountSize), Quotient(parse(riskPercentage), Hundred), parse(entryPrice), parse(stopLoss), parse(leverage));
        result == Some(PositionSizeResult(fixed(n.positionSize, 8), fixed(n.riskAmount, 2), fixed(n.liquidationPrice, 8)))
    {
      if !Filled(accountSize) || !Filled(entryPrice) || !Filled(stopLoss) {
        return;
      }
      var n := PositionSizeOf(parse(accountSize), Quotient(parse(riskPercentage), Hundred), parse(entryPrice), parse(stopLoss), parse(leverage));
      result := Some(PositionSizeResult(fixed(n.positionSize, 8), fixed(n.riskAmount, 2), fixed(n.liquidationPrice, 8)));
    }
  }

  // ---------------------------------------------------------------------
  // Drawdown

  datatype DrawdownResult = DrawdownResult(drawdownAmount: string, drawdownPercentage: string, totalReturn: string)

  const NotAvailable := "N/A"

  /** `toFixed` writes digits, a sign and a point, or `NaN`/`Infinity`; never `N/A`. */
  ghost predicate NeverNotAvailable(fixed: (Number, nat) -> string)
  {
    forall n, d :: fixed(n, d) != NotAvailable
  }

  /** The figures `calculateDrawdown` shows; the return needs an initial investment. */
  function DrawdownOf(peakValue: string, currentValue: string, initialInvestment: string,
                      parse: string -> Number, fixed: (Number, nat) -> string): DrawdownResult
  {
    var peak := parse(peakValue);
    var current := parse(currentValue);
    var amount := Minus(peak, current);
    var percentage := Times(Quotient(amount, peak), Hundred);
    var totalReturn :=
      if Filled(initialInvestment) then
        var initial := parse(initialInvestment);
        fixed(Times(Quotient(Minus(current, initial), initial), Hundred), 2)
      else NotAvailable;
    DrawdownResult(fixed(amount, 2), fixed(percentage, 2), totalReturn)
  }

  /** The total return reads `N/A` exactly when no initial investment was given. */
  lemma TotalReturnNotAvailable(peakValue: string, currentValue: string, initialInvestment: string,
                                parse: string -> Number, fixed: (Number, nat) -> string)
    requires NeverNotAvailable(fixed)
    ensures DrawdownOf(peakValue, currentValue, initialInvestment, parse, fixed).totalReturn == NotAvailable
      <==> initialInvestment == ""
  {
    if Filled(initialInvestment) {
      var initial := parse(initialInvestment);
      assert fixed(Times(Quotient(Minus(parse(currentValue), initial), initial), Hundred), 2) != NotAvailable;
    }
  }

  class DrawdownCalculator {
    var peakValue: string
    var currentValue: string
    var initialInvestment: string
    var result: Option<DrawdownResult>

    constructor ()
      ensures peakValue == "" && currentValue == "" && initialInvestment == "" && result == None
    {
      peakValue := "";
      currentValue := "";
      initialInvestment := "";
      result := None;
    }

    /** `calculateDrawdown`: nothing while the peak or the current value is empty. */
    method CalculateDrawdown(parse: string -> Number, fixed: (Number, nat) -> string)
      modifies this`result
      ensures !(Filled(peakValue) && Filled(currentValue)) ==> result == old(result)
      ensures Filled(peakValue) && Filled(currentValue) ==>
        result == Some(DrawdownOf(peakValue, currentValue, initialInvestment, parse, fixed))
    {
      if !Filled(peakValue) || !Filled(currentValue) {
        return;
      }
      result := Some(DrawdownOf(peakValue, currentValue, initialInvestment, parse, fixed));
    }
  }
}
