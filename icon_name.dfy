/** `formatIconName` (lib/utils.ts:8-19): turns an icon name written in kebab-case,
    snake_case or with spaces into the PascalCase name of an icon component. Both
    regular expressions are modelled with the matching rules of JavaScript, including
    backtracking; case conversion covers ASCII letters only. */
module IconName {
  import Text

  /** The characters of the class `[-_ ]`. */
  predicate IsSeparator(c: char) {
    c == '-' || c == '_' || c == ' '
  }

  predicate NoSeparator(s: string) {
    forall i :: 0 <= i < |s| ==> !IsSeparator(s[i])
  }

  /** The length of the run of separators that `s` starts with. */
  function SeparatorRun(s: string): (k: nat)
    ensures k <= |s|
    ensures k < |s| ==> !IsSeparator(s[k])
  {
    if s != [] && IsSeparator(s[0]) then 1 + SeparatorRun(s[1..]) else 0
  }

  /** How many characters one step of `s.replace(/[-_ ]+(.)/g, ...)` consumes at the
      start of `s`. An ordinary character is copied on its own. A run of separators
      followed by a character other than a line terminator is consumed with that
      character. When the run reaches the end or a line terminator, the engine
      backtracks: a run of two or more gives up its last separator to `(.)`, so the
      match is the run itself; a run of one does not match, and the separator is copied
      on its own. */
  function StepLength(s: string): (m: nat)
    requires s != []
    ensures 1 <= m <= |s|
  {
    if !IsSeparator(s[0]) then 1
    else
      var k := SeparatorRun(s);
      if k < |s| && !Text.IsLineTerminator(s[k]) then k + 1
      else if k >= 2 then k
      else 1
  }

  /** The one character that step emits: the character after the run, upper-cased, or
      the separator given up by backtracking, or the character copied. */
  function StepChar(s: string): char
    requires s != []
  {
    if !IsSeparator(s[0]) then s[0]
    else
      var k := SeparatorRun(s);
      if k < |s| && !Text.IsLineTerminator(s[k]) then Text.UpperAscii(s[k])
      else if k >= 2 then s[k - 1]
      else s[0]
  }

  /** `s.replace(/[-_ ]+(.)/g, (_, c) => c.toUpperCase())`, scanning left to right one
      step at a time. */
  function JoinWords(s: string): (r: string)
    ensures |r| <= |s|
    decreases |s|
  {
    if s == [] then [] else [StepChar(s)] + JoinWords(s[StepLength(s)..])
  }

  /** `s.replace(/^(.)/, (_, c) => c.toUpperCase())`. */
  function CapitalizeFirst(s: string): (r: string)
    ensures |r| == |s|
    ensures s != [] && !Text.IsLineTerminator(s[0]) ==> r[0] == Text.UpperAscii(s[0])
    ensures s == [] || r[1..] == s[1..]
  {
    if s != [] && !Text.IsLineTerminator(s[0]) then [Text.UpperAscii(s[0])] + s[1..] else s
  }

  /** `formatIconName`. */
  function FormatIconName(name: string): (r: string)
    ensures name == "" ==> r == ""
    ensures Text.LowerAsciiString(name) == "linkedin" ==> r == "Linkedin"
    ensures |r| <= |name|
  {
    if name == "" then ""
    else if Text.LowerAsciiString(name) == "linkedin" then "Linkedin"
    else CapitalizeFirst(JoinWords(name))
  }

  /** Everything before position `SeparatorRun(s)` is a separator. */
  lemma {:induction false} SeparatorRunAll(s: string)
    ensures forall i :: 0 <= i < SeparatorRun(s) ==> IsSeparator(s[i])
    decreases |s|
  {
    if s != [] && IsSeparator(s[0]) {
      SeparatorRunAll(s[1..]);
      forall i | 1 <= i < SeparatorRun(s) ensures IsSeparator(s[i]) {
        assert s[i] == s[1..][i - 1];
      }
    }
  }

  lemma {:induction false} SeparatorRunPrefix(run: string, t: string)
    requires |run| > 0 && forall i :: 0 <= i < |run| ==> IsSeparator(run[i])
    requires t == [] || !IsSeparator(t[0])
    ensures SeparatorRun(run + t) == |run|
  {
    if |run| > 1 {
      assert (run + t)[1..] == run[1..] + t;
      SeparatorRunPrefix(run[1..], t);
    } else {
      assert (run + t)[1..] == t;
    }
  }

  lemma {:induction false} SeparatorRunAppend(a: string, b: string)
    requires SeparatorRun(a) < |a|
    ensures SeparatorRun(a + b) == SeparatorRun(a)
  {
    if IsSeparator(a[0]) {
      assert (a + b)[1..] == a[1..] + b;
      SeparatorRunAppend(a[1..], b);
    }
  }

  /** A string without separators passes through unchanged. */
  lemma {:induction false} NoSeparatorUnchanged(s: string)
    requires NoSeparator(s)
    ensures JoinWords(s) == s
    decreases |s|
  {
    if s != [] {
      assert NoSeparator(s[1..]);
      NoSeparatorUnchanged(s[1..]);
    }
  }

  /** A run of separators followed by an ordinary character is replaced by that
      character upper-cased: `-bag` becomes `Bag`. */
  lemma WordBoundary(run: string, c: char, t: string)
    requires |run| > 0 && forall i :: 0 <= i < |run| ==> IsSeparator(run[i])
    requires !IsSeparator(c) && !Text.IsLineTerminator(c)
    ensures JoinWords(run + [c] + t) == [Text.UpperAscii(c)] + JoinWords(t)
  {
    var s := run + [c] + t;
    assert s == run + ([c] + t);
    SeparatorRunPrefix(run, [c] + t);
    assert s[|run|] == c;
    assert s[|run| + 1..] == t;
  }

  /** Every separator in `r` is its last character or comes right before a line
      terminator. */
  predicate SeparatorOnlyAtLineEnd(r: string) {
    forall i :: 0 <= i < |r| - 1 && IsSeparator(r[i]) ==> Text.IsLineTerminator(r[i + 1])
  }

  /** After a step that emits a separator, the rest is empty or starts with a line
      terminator, and the first character of the rest is copied. */
  lemma StepAfterSeparator(s: string)
    requires s != [] && IsSeparator(StepChar(s))
    ensures var m := StepLength(s);
      m < |s| ==> Text.IsLineTerminator(s[m]) && JoinWords(s[m..])[0] == s[m]
  {
    var k := SeparatorRun(s);
    var m := StepLength(s);
    assert IsSeparator(s[0]);
    if m < |s| {
      assert k == 1 ==> !IsSeparator(s[1]);
      assert !IsSeparator(s[m]);
    }
  }

  /** In the result, a separator is either the last character or followed by a line
      terminator: every other run has been merged into the next word. */
  lemma {:induction false} SeparatorOnlyBeforeLineEnd(s: string)
    ensures SeparatorOnlyAtLineEnd(JoinWords(s))
    decreases |s|
  {
    if s != [] {
      var r := JoinWords(s);
      var m := StepLength(s);
      var t := JoinWords(s[m..]);
      SeparatorOnlyBeforeLineEnd(s[m..]);
      assert r == [StepChar(s)] + t;
      if IsSeparator(r[0]) && |r| > 1 {
        StepAfterSeparator(s);
        assert r[1] == t[0];
      }
      forall i | 1 <= i < |r| - 1 && IsSeparator(r[i]) ensures Text.IsLineTerminator(r[i + 1]) {
        assert r[i] == t[i - 1] && r[i + 1] == t[i];
      }
    }
  }

  /** A prefix that ends in an ordinary character takes the same first step of the scan
      whatever follows it. */
  lemma StepWithin(a: string, b: string)
    requires a != [] && !IsSeparator(a[|a| - 1])
    ensures StepLength(a + b) == StepLength(a) && StepChar(a + b) == StepChar(a)
  {
    var s := a + b;
    assert s[0] == a[0];
    if IsSeparator(a[0]) {
      var k := SeparatorRun(a);
      SeparatorRunAll(a);
      SeparatorRunAppend(a, b);
      assert k < |a| && s[k] == a[k];
      if k >= 2 {
        assert s[k - 1] == a[k - 1];
      }
    }
  }

  /** The replacement works word by word: a prefix that ends in an ordinary character is
      rewritten on its own. */
  lemma {:induction false} JoinWordsAppend(a: string, b: string)
    requires a == [] || !IsSeparator(a[|a| - 1])
    ensures JoinWords(a + b) == JoinWords(a) + JoinWords(b)
    decreases |a|
  {
    if a == [] {
      assert a + b == b;
    } else {
      StepWithin(a, b);
      var m := StepLength(a);
      assert (a + b)[m..] == a[m..] + b;
      JoinWordsAppend(a[m..], b);
    }
  }

  /** Capitalising a string capitalises its first part. */
  lemma CapitalizePrefix(x: string, y: string)
    requires x != []
    ensures CapitalizeFirst(x + y) == CapitalizeFirst(x) + y
  {
    assert (x + y)[0] == x[0];
    assert (x + y)[1..] == x[1..] + y;
  }

  /** The words of `a[sep]b` are joined with the second one capitalised. */
  lemma JoinTwoWords(a: string, sep: char, b: string)
    requires b != [] && NoSeparator(a) && NoSeparator(b) && IsSeparator(sep)
    requires !Text.IsLineTerminator(b[0])
    ensures JoinWords(a + [sep] + b) == a + CapitalizeFirst(b)
  {
    var tail := b[1..];
    var rest := [sep] + [b[0]] + tail;
    assert a + [sep] + b == a + rest;
    JoinWordsAppend(a, rest);
    WordBoundary([sep], b[0], tail);
    NoSeparatorUnchanged(a);
    assert NoSeparator(tail);
    NoSeparatorUnchanged(tail);
  }

  /** Two words joined by one separator become one PascalCase word. */
  lemma TwoWords(a: string, sep: char, b: string)
    requires a != [] && b != [] && NoSeparator(a) && NoSeparator(b) && IsSeparator(sep)
    requires !Text.IsLineTerminator(b[0])
    requires Text.LowerAsciiString(a + [sep] + b) != "linkedin"
    ensures FormatIconName(a + [sep] + b) == CapitalizeFirst(a) + CapitalizeFirst(b)
  {
    JoinTwoWords(a, sep, b);
    CapitalizePrefix(a, CapitalizeFirst(b));
  }

  /** `"shopping-bag"` becomes `"ShoppingBag"`. */
  lemma KebabExample(name: string)
    requires name == "shopping-bag"
    ensures FormatIconName(name) == "ShoppingBag"
  {
    assert name == "shopping" + ['-'] + "bag";
    assert NoSeparator("shopping") && NoSeparator("bag");
    assert |Text.LowerAsciiString(name)| == 12;
    TwoWords("shopping", '-', "bag");
    assert CapitalizeFirst("shopping") + CapitalizeFirst("bag") == "ShoppingBag";
  }

  /** A single word is only capitalised. */
  lemma SingleWord(name: string)
    requires name != [] && NoSeparator(name) && !Text.IsLineTerminator(name[0])
    requires Text.LowerAsciiString(name) != "linkedin"
    ensures FormatIconName(name) == [Text.UpperAscii(name[0])] + name[1..]
  {
    NoSeparatorUnchanged(name);
  }

  /** `"palette"` becomes `"Palette"`. */
  lemma SingleWordExample(name: string)
    requires name == "palette"
    ensures FormatIconName(name) == "Palette"
  {
    assert NoSeparator(name) by {
      forall i | 0 <= i < |name| ensures !IsSeparator(name[i]) {
        assert 'a' <= name[i] <= 't';
      }
    }
    assert |Text.LowerAsciiString(name)| == 7;
    SingleWord(name);
    assert [Text.UpperAscii(name[0])] + name[1..] == "Palette";
  }

  /** `"LinkedIn"` is special-cased to `"Linkedin"`. */
  lemma LinkedInExample()
    ensures FormatIconName("LinkedIn") == "Linkedin"
  {
    var lower := Text.LowerAsciiString("LinkedIn");
    assert lower[0] == 'l' && lower[5] == 'd' && lower[6] == 'i';
    assert lower == "linkedin";
  }

  /** A run of separators alone collapses to its last separator: when the run is the
      whole rest of the string, backtracking leaves the last one to `(.)`, and a run of
      one does not match at all. */
  lemma JoinWordsOfRun(run: string)
    requires run != [] && forall i :: 0 <= i < |run| ==> IsSeparator(run[i])
    ensures JoinWords(run) == [run[|run| - 1]]
  {
    SeparatorRunPrefix(run, []);
    assert run + [] == run;
    assert run[StepLength(run)..] == [];
  }

  /** A word followed by a run of separators keeps one separator at its end. */
  lemma TrailingSeparators(word: string, run: string)
    requires word != [] && NoSeparator(word)
    requires run != [] && forall i :: 0 <= i < |run| ==> IsSeparator(run[i])
    requires Text.LowerAsciiString(word + run) != "linkedin"
    ensures FormatIconName(word + run) == CapitalizeFirst(word) + [run[|run| - 1]]
  {
    JoinWordsAppend(word, run);
    NoSeparatorUnchanged(word);
    JoinWordsOfRun(run);
    CapitalizePrefix(word, [run[|run| - 1]]);
  }

  /** A single trailing separator stays as it is: `"bag-"` gives `"Bag-"`. */
  lemma TrailingSeparator(name: string)
    requires name == "bag-"
    ensures FormatIconName(name) == "Bag-"
  {
    var word, run := name[..3], name[3..];
    assert word == "bag" && run == "-";
    assert NoSeparator(word);
    assert name == word + run;
    assert |Text.LowerAsciiString(name)| == 4;
    TrailingSeparators(word, run);
    assert CapitalizeFirst(word) == "Bag";
  }

  /** A longer trailing run shrinks to its last separator: `"bag--"` gives `"Bag-"`. */
  lemma TrailingRun(name: string)
    requires name == "bag--"
    ensures FormatIconName(name) == "Bag-"
  {
    var word, run := name[..3], name[3..];
    assert word == "bag" && run == "--";
    assert NoSeparator(word);
    assert name == word + run;
    assert |Text.LowerAsciiString(name)| == 5;
    TrailingSeparators(word, run);
    assert CapitalizeFirst(word) == "Bag";
  }
}
