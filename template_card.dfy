/**
 * The note-template card: the first three non-blank lines of a template's
 * content as its preview, and the colour classes of its category badge.
 */
module TemplateCard {
  import opened Text
  import opened Wrappers
  import opened JsObjects

  const PreviewLength := 3
  const Fallback := "bg-muted text-muted-foreground"

  const CategoryColors: map<string, string> := map[
    "Trading" := "bg-blue-100 dark:bg-blue-500/20 border-blue-200 dark:border-blue-400/50 text-blue-800 dark:text-blue-100 hover:bg-blue-200 dark:hover:bg-blue-500/30",
    "Analysis" := "bg-green-100 dark:bg-green-500/20 border-green-200 dark:border-green-400/50 text-green-800 dark:text-green-100 hover:bg-green-200 dark:hover:bg-green-500/30",
    "Risk" := "bg-red-100 dark:bg-red-500/20 border-red-200 dark:border-red-400/50 text-red-800 dark:text-red-100 hover:bg-red-200 dark:hover:bg-red-500/30",
    "Strategy" := "bg-purple-100 dark:bg-purple-500/20 border-purple-200 dark:border-purple-400/50 text-purple-800 dark:text-purple-100 hover:bg-purple-200 dark:hover:bg-purple-500/30",
    "Psychology" := "bg-pink-100 dark:bg-pink-500/20 border-pink-200 dark:border-pink-400/50 text-pink-800 dark:text-pink-100 hover:bg-pink-200 dark:hover:bg-pink-500/30",
    "Education" := "bg-yellow-100 dark:bg-yellow-500/20 border-yellow-200 dark:border-yellow-400/50 text-yellow-800 dark:text-yellow-100 hover:bg-yellow-200 dark:hover:bg-yellow-500/30",
    "General" := "bg-gray-100 dark:bg-gray-500/20 border-gray-200 dark:border-gray-400/50 text-gray-800 dark:text-gray-100 hover:bg-gray-200 dark:hover:bg-gray-500/30"
  ]

  /**
   * `line.trim()` as a condition. Only the empty string is falsy, so a line
   * is kept exactly when it is not all whitespace (`KeptIffTrimmed`).
   */
  predicate Kept(line: string)
  {
    !IsBlank(line)
  }

  /** `lines.filter(line => line.trim())`. */
  function NonBlankLines(lines: seq<string>): (r: seq<string>)
    ensures |r| <= |lines|
  {
    if |lines| == 0 then []
    else (if Kept(lines[0]) then [lines[0]] else []) + NonBlankLines(lines[1..])
  }

  /** Exactly the lines that are not all whitespace are kept. */
  lemma {:induction false} NonBlankLinesMembers(lines: seq<string>)
    ensures forall x :: x in NonBlankLines(lines) <==> x in lines && Kept(x)
    decreases |lines|
  {
    if |lines| > 0 {
      NonBlankLinesMembers(lines[1..]);
      assert lines == [lines[0]] + lines[1..];
    }
  }

  /** A line is kept exactly when its trimmed text is not empty. */
  lemma KeptIffTrimmed(line: string)
    ensures Kept(line) <==> Trim(line) != ""
  {
    TrimEmptyIffBlank(line);
  }

  lemma NonBlankLinesCons(x: string, rest: seq<string>)
    ensures NonBlankLines([x] + rest) == (if Kept(x) then [x] else []) + NonBlankLines(rest)
  {
    assert ([x] + rest)[0] == x && ([x] + rest)[1..] == rest;
  }

  /** The filter works piece by piece, so the kept lines stay in their order. */
  lemma {:induction false} NonBlankLinesAppend(a: seq<string>, b: seq<string>)
    ensures NonBlankLines(a + b) == NonBlankLines(a) + NonBlankLines(b)
    decreases |a|
  {
    if |a| == 0 {
      assert a + b == b;
    } else {
      var x, tail := a[0], a[1..];
      assert a == [x] + tail;
      assert a + b == [x] + (tail + b);
      NonBlankLinesCons(x, tail);
      NonBlankLinesCons(x, tail + b);
      NonBlankLinesAppend(tail, b);
    }
  }

  /** The lines of the preview, before they are joined again. */
  function PreviewLines(content: string): (r: seq<string>)
    ensures |r| <= PreviewLength
  {
    var kept := NonBlankLines(Split(content, '\n'));
    if |kept| <= PreviewLength then kept else kept[..PreviewLength]
  }

  /**
   * At most three lines, each not all whitespace and without a line break,
   * taken from the front of the content's non-blank lines; fewer than
   * three only when the content has no more.
   */
  lemma PreviewLinesFacts(content: string)
    ensures var r := PreviewLines(content);
      && (forall i :: 0 <= i < |r| ==> !IsBlank(r[i]) && '\n' !in r[i])
      && r == NonBlankLines(Split(content, '\n'))[..|r|]
      && (|r| < PreviewLength ==> r == NonBlankLines(Split(content, '\n')))
  {
    var lines := Split(content, '\n');
    var kept := NonBlankLines(lines);
    NonBlankLinesMembers(lines);
    var r := PreviewLines(content);
    forall i | 0 <= i < |r| ensures !IsBlank(r[i]) && '\n' !in r[i] {
      assert r[i] in kept;
    }
  }

  /** `contentPreview`. */
  function Preview(content: string): string
  {
    Join(PreviewLines(content), '\n')
  }

  /**
   * Splitting the preview on line breaks, as the card does to render it,
   * gives back its lines; a content without a non-blank line renders as
   * one empty line.
   */
  lemma PreviewRoundTrip(content: string)
    ensures PreviewLines(content) != [] ==> Split(Preview(content), '\n') == PreviewLines(content)
    ensures PreviewLines(content) == [] ==> Preview(content) == "" && Split(Preview(content), '\n') == [""]
  {
    PreviewLinesFacts(content);
    if PreviewLines(content) != [] {
      SplitJoin(PreviewLines(content), '\n');
    }
  }

  /**
   * `CATEGORY_COLORS[category]` as the text a template string makes of it:
   * a listed category's colours, the text of what the object literal
   * inherits under a name of `Object.prototype`, or `None` for `undefined`.
   */
  function ColorsProperty(category: string): (r: Option<string>)
    ensures r.Some? <==> category in CategoryColors || category in ObjectPrototypeMembers
    ensures category in CategoryColors ==> r == Some(CategoryColors[category])
    ensures r.Some? ==> r.value != ""
  {
    if category in CategoryColors then Some(CategoryColors[category])
    else if category in ObjectPrototypeMembers then Some(InheritedText(category))
    else None
  }

  /**
   * The badge's classes, `CATEGORY_COLORS[category] || fallback`: every value
   * found is a non-empty string, a function or an object, all truthy, so only
   * `undefined` falls back.
   */
  function CategoryClass(category: string): (r: string)
    ensures category in CategoryColors ==> r == CategoryColors[category]
    ensures category !in CategoryColors && category in ObjectPrototypeMembers ==> r == InheritedText(category)
    ensures category == ProtoKey ==> r == "[object Object]"
    ensures category !in CategoryColors && category !in ObjectPrototypeMembers ==> r == Fallback
  {
    var found := ColorsProperty(category);
    if found.Some? && found.value != "" then found.value else Fallback
  }

  /**
   * The fallback appears exactly for a name neither listed nor inherited:
   * no colour set and no inherited value prints as the fallback.
   */
  lemma CategoryClassFallback(category: string)
    ensures CategoryClass(category) == Fallback <==> category !in CategoryColors && category !in ObjectPrototypeMembers
  {
    if category !in CategoryColors && category in ObjectPrototypeMembers {
      assert CategoryClass(category)[0] != Fallback[0];
    }
  }

  /** An inherited name such as `toString` gets the method's text as its classes, not the fallback. */
  lemma InheritedCategoryClass()
    ensures CategoryClass("toString") == NativeFunctionText("toString")
    ensures CategoryClass("constructor") == NativeFunctionText("Object")
    ensures CategoryClass("__proto__") == "[object Object]"
  {
    assert "toString" !in CategoryColors && "toString" in ObjectPrototypeMembers;
    assert "constructor" !in CategoryColors && "constructor" in ObjectPrototypeMembers;
  }
}
