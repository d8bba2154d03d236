/**
 * The trading-rules checklist: a list of rules with a done flag, a text
 * box for new rules, toggling, deletion, and the "all checked" footer.
 * The id of a new rule is the clock's value, supplied by the caller.
 */
module Rules {
  import opened Text

  datatype Rule = Rule(id: int, text: string, done: bool)

  /** The checklist before anything is stored: four rules, ids 1 to 4, none done. */
  function InitialRules(): (r: seq<Rule>)
    ensures |r| == 4
    ensures forall i :: 0 <= i < 4 ==> r[i].id == i + 1 && !r[i].done
  {
    [ Rule(1, "Check trend direction", false),
      Rule(2, "Set stop-loss and target", false),
      Rule(3, "Position size calculated", false),
      Rule(4, "No news event imminent", false) ]
  }

  /** `handleToggle`'s new list: the rules with that id flip their done flag. */
  function Toggled(rules: seq<Rule>, id: int): (r: seq<Rule>)
    ensures |r| == |rules|
    ensures forall i :: 0 <= i < |r| && rules[i].id != id ==> r[i] == rules[i]
    ensures forall i :: 0 <= i < |r| && rules[i].id == id ==> r[i] == rules[i].(done := !rules[i].done)
  {
    seq(|rules|, i requires 0 <= i < |rules| =>
      if rules[i].id == id then rules[i].(done := !rules[i].done) else rules[i])
  }

  /** Toggling the same rule twice gives the list back. */
  lemma ToggleTwice(rules: seq<Rule>, id: int)
    ensures Toggled(Toggled(rules, id), id) == rules
  {
  }

  /** `handleDelete`'s new list: `rules.filter(rule => rule.id !== id)`. */
  function Deleted(rules: seq<Rule>, id: int): (r: seq<Rule>)
    ensures |r| <= |rules|
  {
    if |rules| == 0 then []
    else (if rules[0].id == id then [] else [rules[0]]) + Deleted(rules[1..], id)
  }

  /** Exactly the rules with another id remain. */
  lemma {:induction false} DeletedMembers(rules: seq<Rule>, id: int)
    ensures forall x :: x in Deleted(rules, id) <==> x in rules && x.id != id
    decreases |rules|
  {
    if |rules| > 0 {
      DeletedMembers(rules[1..], id);
      assert rules == [rules[0]] + rules[1..];
    }
  }

  /** Deletion works piece by piece, so the rules that stay keep their order. */
  lemma {:induction false} DeletedAppend(a: seq<Rule>, b: seq<Rule>, id: int)
    ensures Deleted(a + b, id) == Deleted(a, id) + Deleted(b, id)
    decreases |a|
  {
    if |a| == 0 {
      assert a + b == b;
    } else {
      var head := if a[0].id == id then [] else [a[0]];
      assert (a + b)[0] == a[0] && (a + b)[1..] == a[1..] + b;
      assert Deleted(a + b, id) == head + Deleted(a[1..] + b, id);
      DeletedAppend(a[1..], b, id);
      assert Deleted(a, id) == head + Deleted(a[1..], id);
    }
  }

  /** A list without that id is left as it is. */
  lemma {:induction false} DeletedNone(rules: seq<Rule>, id: int)
    requires forall x :: x in rules ==> x.id != id
    ensures Deleted(rules, id) == rules
    decreases |rules|
  {
    if |rules| > 0 {
      assert forall x :: x in rules[1..] ==> x in rules;
      DeletedNone(rules[1..], id);
      assert [rules[0]] + rules[1..] == rules;
    }
  }

  /** `rules.every(r => r.done)`. */
  predicate Every(rules: seq<Rule>)
  {
    |rules| == 0 || (rules[0].done && Every(rules[1..]))
  }

  /** `allDone`. */
  predicate AllDone(rules: seq<Rule>)
  {
    |rules| > 0 && Every(rules)
  }

  /** `rules.filter(r => r.done).length`. */
  function CompletedCount(rules: seq<Rule>): (n: nat)
    ensures n <= |rules|
  {
    if |rules| == 0 then 0 else (if rules[0].done then 1 else 0) + CompletedCount(rules[1..])
  }

  /** The footer's two readings agree: all done exactly when the list is non-empty and every rule is counted. */
  lemma {:induction false} AllDoneIff(rules: seq<Rule>)
    ensures AllDone(rules) <==> |rules| > 0 && (forall i :: 0 <= i < |rules| ==> rules[i].done)
    ensures AllDone(rules) <==> |rules| > 0 && CompletedCount(rules) == |rules|
  {
    EveryIff(rules);
  }

  lemma {:induction false} EveryIff(rules: seq<Rule>)
    ensures Every(rules) <==> (forall i :: 0 <= i < |rules| ==> rules[i].done)
    ensures Every(rules) <==> CompletedCount(rules) == |rules|
    decreases |rules|
  {
    if |rules| > 0 {
      EveryIff(rules[1..]);
      if forall i :: 0 <= i < |rules| ==> rules[i].done {
        assert forall i :: 0 <= i < |rules| - 1 ==> rules[1..][i] == rules[i + 1];
      }
      if Every(rules) {
        forall i | 0 <= i < |rules| ensures rules[i].done {
          if i > 0 { assert rules[i] == rules[1..][i - 1]; }
        }
      }
    }
  }

  /** The checklist page: the rules and the text box. */
  class RulesPage {
    var rules: seq<Rule>
    var input: string

    constructor ()
      ensures rules == InitialRules() && input == ""
    {
      rules := InitialRules();
      input := "";
    }

    /** The rules read from storage, when any are stored, replace the initial ones. */
    method Load(stored: seq<Rule>)
      modifies this`rules
      ensures rules == stored
    {
      rules := stored;
    }

    method SetInput(text: string)
      modifies this`input
      ensures input == text
    {
      input := text;
    }

    /**
     * `handleAdd`: blank input changes nothing; otherwise one rule with the
     * trimmed text, not done, is appended and the box is emptied.
     */
    method HandleAdd(now: int)
      modifies this`rules, this`input
      ensures IsBlank(old(input)) ==> rules == old(rules) && input == old(input)
      ensures !IsBlank(old(input)) ==> rules == old(rules) + [Rule(now, Trim(old(input)), false)] && input == ""
    {
      TrimEmptyIffBlank(input);
      if Trim(input) == "" {
        return;
      }
      rules := rules + [Rule(now, Trim(input), false)];
      input := "";
    }

    method HandleToggle(id: int)
      modifies this`rules
      ensures rules == Toggled(old(rules), id)
    {
      rules := Toggled(rules, id);
    }

    method HandleDelete(id: int)
      modifies this`rules
      ensures rules == Deleted(old(rules), id)
    {
      rules := Deleted(rules, id);
    }
  }
}
