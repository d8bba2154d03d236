/**
 * The basic calculator: a display string, the stored first operand, a
 * pending operator, the flag that makes the next digit start a new number,
 * and the history of finished calculations.
 */
module BasicCalculator {
  import opened Wrappers
  import opened JsNumbers

  const Add := "+"
  const Subtract := "-"
  const Multiply := "×"
  const Divide := "÷"

  /** The operator buttons other than `=`. */
  predicate IsOperator(op: string)
  {
    op == Add || op == Subtract || op == Multiply || op == Divide
  }

  /** `calculate`: the four operations; a zero divisor gives NaN and an unknown operator the second operand. */
  function Calculate(first: Number, second: Number, op: string): (r: Number)
    ensures op == Divide && second == Finite(0.0) ==> r == NaN
    ensures !IsOperator(op) ==> r == second
    ensures IsOperator(op) && first.NaN? ==> r.NaN?
  {
    if op == Add then Plus(first, second)
    else if op == Subtract then Minus(first, second)
    else if op == Multiply then Times(first, second)
    else if op == Divide then (if !StrictEquals(second, Finite(0.0)) then Quotient(first, second) else NaN)
    else second
  }

  /** Subtracting what was added, or dividing by what was multiplied, gives the first operand back. */
  lemma CalculateInverses(a: Number, b: Number)
    requires a.Finite? && b.Finite?
    ensures Calculate(Calculate(a, b, Add), b, Subtract) == a
    ensures b.value != 0.0 ==> Calculate(Calculate(a, b, Multiply), b, Divide) == a
  {
    if b.value != 0.0 {
      assert a.value * b.value / b.value == a.value;
    }
  }

  /** A finite result for a known operator means both operands were numbers, and for `÷` a divisor other than zero. */
  lemma CalculateFinite(a: Number, b: Number, op: string)
    requires IsOperator(op)
    ensures Calculate(a, b, op).Finite? <==> a.Finite? && b.Finite? && (op == Divide ==> b.value != 0.0)
  {
  }

  // ---------------------------------------------------------------------
  // The display string

  function CountChar(s: string, c: char): (n: nat)
    ensures n <= |s|
    ensures n == 0 <==> c !in s
  {
    if |s| == 0 then 0 else (if s[0] == c then 1 else 0) + CountChar(s[1..], c)
  }

  lemma {:induction false} CountCharAppend(a: string, b: string, c: char)
    ensures CountChar(a + b, c) == CountChar(a, c) + CountChar(b, c)
    decreases |a|
  {
    if |a| > 0 {
      CountCharAppend(a[1..], b, c);
      assert (a + b)[1..] == a[1..] + b;
    } else {
      assert a + b == b;
    }
  }

  predicate IsDigit(c: char)
  {
    '0' <= c <= '9'
  }

  /** A digit typed into a number: it replaces a lone `0` and is appended to anything else. */
  function AfterDigit(display: string, digit: char): (r: string)
    requires IsDigit(digit)
    ensures |r| > 0 && r[|r| - 1] == digit
    ensures display != "0" ==> r[..|r| - 1] == display
    ensures display == "0" ==> r == [digit]
    ensures CountChar(r, '.') == CountChar(display, '.')
  {
    if display == "0" then [digit]
    else
      CountCharAppend(display, [digit], '.');
      display + [digit]
  }

  /** `.` typed into a number: appended only when the number has none. */
  function AfterDecimal(display: string): (r: string)
    ensures '.' in display ==> r == display
    ensures '.' !in display ==> r == display + "." && CountChar(r, '.') == 1
  {
    if '.' in display then display
    else
      CountCharAppend(display, ".", '.');
      display + "."
  }

  /** `toggleSign`: a leading `-` is removed, otherwise one is put in front. */
  function ToggledSign(display: string): (r: string)
    ensures |display| > 0 && display[0] == '-' ==> "-" + r == display
    ensures !(|display| > 0 && display[0] == '-') ==> r == "-" + display
    ensures CountChar(r, '.') == CountChar(display, '.')
  {
    if |display| > 0 && display[0] == '-' then
      assert display == "-" + display[1..];
      CountCharAppend("-", display[1..], '.');
      display[1..]
    else
      CountCharAppend("-", display, '.');
      "-" + display
  }

  /** Toggling the sign twice gives the display back exactly when it does not start with two minus signs. */
  lemma ToggleSignTwice(display: string)
    ensures ToggledSign(ToggledSign(display)) == display <==> !(|display| >= 2 && display[0] == '-' && display[1] == '-')
  {
    if |display| >= 2 && display[0] == '-' && display[1] == '-' {
      assert |ToggledSign(ToggledSign(display))| == |display| - 2;
    } else if |display| > 0 && display[0] == '-' {
      assert "-" + display[1..] == display;
    }
  }

  /** The history line `${currentValue} ${operator} ${inputValue} = ${result}`. */
  function HistoryEntry(currentValue: string, op: string, input: Number, result: Number, show: Number -> string): string
  {
    currentValue + " " + op + " " + show(input) + " = " + show(result)
  }

  /** `String(n)` writes at most one decimal point. */
  ghost predicate ShowsOneDotAtMost(show: Number -> string)
  {
    forall n :: CountChar(show(n), '.') <= 1
  }

  class Calculator {
    /** `parseFloat` and `String(n)`, left uninterpreted. */
    const parse: string -> Number
    const show: Number -> string
    var display: string
    var memory: seq<string>
    var currentValue: string
    var operator: Option<string>
    var waitingForOperand: bool

    /**
     * The display never holds two decimal points, the only operators
     * stored are the four buttons, and without one the stored operand is
     * the initial `0`.
     */
    ghost predicate Valid()
      reads this
    {
      && ShowsOneDotAtMost(show)
      && CountChar(display, '.') <= 1
      && (operator.Some? ==> IsOperator(operator.value))
      && (operator.None? ==> currentValue == "0")
    }

    constructor (parse: string -> Number, show: Number -> string)
      requires ShowsOneDotAtMost(show)
      ensures Valid()
      ensures this.parse == parse && this.show == show
      ensures display == "0" && memory == [] && currentValue == "0" && operator == None && !waitingForOperand
    {
      this.parse := parse;
      this.show := show;
      display := "0";
      memory := [];
      currentValue := "0";
      operator := None;
      waitingForOperand := false;
    }

    /** `clearAll`: everything but the history goes back to the start. */
    method ClearAll()
      requires Valid()
      modifies this`display, this`currentValue, this`operator, this`waitingForOperand
      ensures Valid()
      ensures display == "0" && currentValue == "0" && operator == None && !waitingForOperand
    {
      display := "0";
      currentValue := "0";
      operator := None;
      waitingForOperand := false;
    }

    /** `clearHistory`: only the history is emptied. */
    method ClearHistory()
      requires Valid()
      modifies this`memory
      ensures Valid()
      ensures memory == []
    {
      memory := [];
    }

    method InputDigit(digit: char)
      requires Valid() && IsDigit(digit)
      modifies this`display, this`waitingForOperand
      ensures Valid()
      ensures old(waitingForOperand) ==> display == [digit]
      ensures !old(waitingForOperand) ==> display == AfterDigit(old(display), digit)
      ensures !waitingForOperand
    {
      if waitingForOperand {
        display := [digit];
        waitingForOperand := false;
      } else {
        display := AfterDigit(display, digit);
      }
    }

    method InputDecimal()
      requires Valid()
      modifies this`display, this`waitingForOperand
      ensures Valid()
      ensures old(waitingForOperand) ==> display == "0." && !waitingForOperand
      ensures !old(waitingForOperand) ==> display == AfterDecimal(old(display)) && !waitingForOperand
    {
      if waitingForOperand {
        display := "0.";
        assert CountChar(display, '.') == 1;
        waitingForOperand := false;
      } else if !('.' in display) {
        display := AfterDecimal(display);
      }
    }

    method ToggleSign()
      requires Valid()
      modifies this`display
      ensures Valid()
      ensures display == ToggledSign(old(display))
    {
      display := ToggledSign(display);
    }

    /** `inputPercent`: the display divided by 100, written back as a string. */
    method InputPercent()
      requires Valid()
      modifies this`display
      ensures Valid()
      ensures display == show(Quotient(parse(old(display)), Finite(100.0)))
    {
      display := show(Quotient(parse(display), Finite(100.0)));
    }

    /**
     * `performOperation`: the first operator stores the display as the
     * first operand; a later one finishes the pending calculation, shows and
     * records it. Either way the next digit starts a new number.
     */
    method PerformOperation(next: string)
      requires Valid() && IsOperator(next)
      modifies this`display, this`memory, this`currentValue, this`operator, this`waitingForOperand
      ensures Valid()
      ensures waitingForOperand && operator == Some(next)
      ensures old(currentValue) == "0" && old(operator) == None ==>
        currentValue == old(display) && display == old(display) && memory == old(memory)
      ensures !(old(currentValue) == "0" && old(operator) == None) ==>
        var result := Calculate(parse(old(currentValue)), parse(old(display)), old(operator).value);
        && display == show(result) && currentValue == show(result)
        && memory == old(memory) + [HistoryEntry(old(currentValue), old(operator).value, parse(old(display)), result, show)]
    {
      var inputValue := parse(display);
      if currentValue == "0" && operator == None {
        currentValue := display;
      } else if operator.Some? && operator.value != "" {
        var result := Calculate(parse(currentValue), inputValue, operator.value);
        display := show(result);
        memory := memory + [HistoryEntry(currentValue, operator.value, inputValue, result, show)];
        currentValue := show(result);
      }
      waitingForOperand := true;
      operator := Some(next);
    }

    /**
     * `handleEquals`: nothing without a pending operator; otherwise the
     * result is shown, exactly one history line is added, and the
     * calculator returns to its fresh state with the result on display.
     */
    method HandleEquals()
      requires Valid()
      modifies this`display, this`memory, this`currentValue, this`operator, this`waitingForOperand
      ensures Valid()
      ensures old(operator) == None ==>
        display == old(display) && memory == old(memory) && currentValue == old(currentValue)
        && operator == None && waitingForOperand == old(waitingForOperand)
      ensures old(operator).Some? ==>
        var result := Calculate(parse(old(currentValue)), parse(old(display)), old(operator).value);
        && display == show(result)
        && memory == old(memory) + [HistoryEntry(old(currentValue), old(operator).value, parse(old(display)), result, show)]
        && currentValue == "0" && operator == None && waitingForOperand
    {
      if operator.None? || operator.value == "" {
        return;
      }
      var inputValue := parse(display);
      var result := Calculate(parse(currentValue), inputValue, operator.value);
      display := show(result);
      memory := memory + [HistoryEntry(currentValue, operator.value, inputValue, result, show)];
      currentValue := "0";
      operator := None;
      waitingForOperand := true;
    }
  }
}
