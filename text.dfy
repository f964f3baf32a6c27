/** String primitives with the semantics of the JavaScript built-ins the source calls:
    the `\s` character class, `String.prototype.trim`, `split` on a one-character
    separator and `Array.prototype.join`. Strings are sequences of code points. */
module Text {

  /** JavaScript's WhiteSpace and LineTerminator code points: exactly what the regular
      expression class `\s` matches and what `trim` removes. */
  predicate IsSpace(c: char) {
    || c == '\t' || c == '\n' || c == '\U{000B}' || c == '\U{000C}' || c == '\r'
    || c == ' ' || c == '\U{00A0}' || c == '\U{1680}'
    || ('\U{2000}' <= c <= '\U{200A}')
    || c == '\U{2028}' || c == '\U{2029}' || c == '\U{202F}' || c == '\U{205F}'
    || c == '\U{3000}' || c == '\U{FEFF}'
  }

  /** JavaScript's LineTerminator code points: what the regular expression `.` refuses. */
  predicate IsLineTerminator(c: char) {
    c == '\n' || c == '\r' || c == '\U{2028}' || c == '\U{2029}'
  }

  predicate NoSpace(s: string) {
    forall i :: 0 <= i < |s| ==> !IsSpace(s[i])
  }

  /** `toUpperCase` restricted to ASCII letters. */
  function UpperAscii(c: char): (r: char)
    ensures 'a' <= c <= 'z' ==> 'A' <= r <= 'Z'
    ensures !('a' <= c <= 'z') ==> r == c
  {
    if 'a' <= c <= 'z' then (c as int - 'a' as int + 'A' as int) as char else c
  }

  /** `toLowerCase` restricted to ASCII letters. */
  function LowerAscii(c: char): (r: char)
    ensures 'A' <= c <= 'Z' ==> 'a' <= r <= 'z'
    ensures !('A' <= c <= 'Z') ==> r == c
  {
    if 'A' <= c <= 'Z' then (c as int - 'A' as int + 'a' as int) as char else c
  }

  function LowerAsciiString(s: string): (r: string)
    ensures |r| == |s|
    ensures forall i :: 0 <= i < |s| ==> r[i] == LowerAscii(s[i])
  {
    if s == [] then [] else [LowerAscii(s[0])] + LowerAsciiString(s[1..])
  }

  /** `a.startsWith(b)`. */
  predicate StartsWith(s: string, prefix: string) {
    |prefix| <= |s| && s[..|prefix|] == prefix
  }

  /** `s.includes(t)`: `t` occurs in `s` as a contiguous substring. */
  predicate Includes(s: string, t: string) {
    exists i :: 0 <= i <= |s| - |t| && OccursAt(s, t, i)
  }

  predicate OccursAt(s: string, t: string, i: int) {
    0 <= i <= |s| - |t| && s[i..i + |t|] == t
  }

  function Count(s: string, c: char): (n: nat)
    ensures n <= |s|
    ensures n == 0 <==> c !in s
  {
    if s == [] then 0 else (if s[0] == c then 1 else 0) + Count(s[1..], c)
  }

  lemma {:induction false} CountAppend(a: string, b: string, c: char)
    ensures Count(a + b, c) == Count(a, c) + Count(b, c)
  {
    if a == [] {
      assert a + b == b;
    } else {
      assert (a + b)[1..] == a[1..] + b;
      CountAppend(a[1..], b, c);
    }
  }

  /** `trimStart`: the whitespace prefix goes, the rest is kept. */
  function TrimStart(s: string): (r: string)
    ensures |r| <= |s| && r == s[|s| - |r|..]
    ensures r == [] || !IsSpace(r[0])
    ensures forall i :: 0 <= i < |s| - |r| ==> IsSpace(s[i])
  {
    if |s| > 0 && IsSpace(s[0]) then TrimStart(s[1..]) else s
  }

  /** `trimEnd`: the whitespace suffix goes, the rest is kept. */
  function TrimEnd(s: string): (r: string)
    ensures |r| <= |s| && r == s[..|r|]
    ensures r == [] || !IsSpace(r[|r| - 1])
    ensures forall i :: |r| <= i < |s| ==> IsSpace(s[i])
  {
    if |s| > 0 && IsSpace(s[|s| - 1]) then TrimEnd(s[..|s| - 1]) else s
  }

  /** `trim`. */
  function Trim(s: string): (r: string)
  {
    TrimEnd(TrimStart(s))
  }

  /** The result of `trim` is a slice of its input with no whitespace at either end,
      and everything cut off is whitespace. */
  lemma TrimIsSlice(s: string) returns (i: nat, j: nat)
    ensures i <= j <= |s| && Trim(s) == s[i..j]
    ensures Trim(s) == [] || (!IsSpace(Trim(s)[0]) && !IsSpace(Trim(s)[|Trim(s)| - 1]))
    ensures forall k :: 0 <= k < i || j <= k < |s| ==> IsSpace(s[k])
  {
    var t := TrimStart(s);
    var u := TrimEnd(t);
    i := |s| - |t|;
    j := i + |u|;
    assert t == s[i..];
    assert u == t[..|u|];
    assert u == s[i..j];
    if u != [] {
      assert u[0] == t[0];
    }
    forall k | j <= k < |s| ensures IsSpace(s[k]) {
      assert s[k] == t[k - i];
    }
  }

  /** Trimming removes the `\r` that a CRLF line keeps after splitting on `\n`. */
  lemma {:induction false} TrimDropsTrailingCr(s: string)
    ensures Trim(s + ['\r']) == Trim(s)
  {
    TrimStartAppendCr(s);
    var t := TrimStart(s);
    if t != [] {
      var t' := t + ['\r'];
      assert IsSpace(t'[|t'| - 1]);
      assert t'[..|t'| - 1] == t;
      assert TrimEnd(t') == TrimEnd(t);
    }
  }

  lemma {:induction false} TrimStartAppendCr(s: string)
    ensures TrimStart(s + ['\r']) == (if TrimStart(s) == [] then [] else TrimStart(s) + ['\r'])
  {
    if |s| > 0 && IsSpace(s[0]) {
      assert (s + ['\r'])[1..] == s[1..] + ['\r'];
      TrimStartAppendCr(s[1..]);
    } else if s == [] {
      assert TrimStart(['\r'][1..]) == [];
    }
  }

  /** The first position of `c` in `s`, or `|s|` when `c` does not occur (`indexOf`, with
      `|s|` in place of -1). */
  function IndexOf(s: string, c: char): (i: nat)
    ensures i <= |s|
    ensures i < |s| ==> s[i] == c
    ensures c !in s[..i]
    ensures i == |s| <==> c !in s
  {
    if s == [] then 0
    else if s[0] == c then 0
    else 1 + IndexOf(s[1..], c)
  }

  /** `s.split(c)` for a one-character separator: the pieces between occurrences of `c`;
      there is always at least one piece, and the empty string gives `[""]`. */
  function Split(s: string, c: char): (pieces: seq<string>)
    ensures |pieces| == Count(s, c) + 1
    ensures forall k :: 0 <= k < |pieces| ==> c !in pieces[k]
    ensures pieces[0] == s[..IndexOf(s, c)]
    decreases |s|
  {
    var i := IndexOf(s, c);
    if i == |s| then [s]
    else
      var rest := Split(s[i + 1..], c);
      CountSplitsAt(s, c, i);
      [s[..i]] + rest
  }

  lemma CountSplitsAt(s: string, c: char, i: nat)
    requires i < |s| && s[i] == c && c !in s[..i]
    ensures Count(s, c) == 1 + Count(s[i + 1..], c)
  {
    assert s == s[..i] + ([c] + s[i + 1..]);
    CountAppend(s[..i], [c] + s[i + 1..], c);
    CountAppend([c], s[i + 1..], c);
  }

  /** `pieces.join(sep)`; the empty array gives `""`. */
  function Join(pieces: seq<string>, sep: string): (r: string)
  {
    if pieces == [] then []
    else if |pieces| == 1 then pieces[0]
    else pieces[0] + sep + Join(pieces[1..], sep)
  }

  /** Splitting on `c` and joining with `c` gives back the original string. */
  lemma {:induction false} JoinSplit(s: string, c: char)
    ensures Join(Split(s, c), [c]) == s
    decreases |s|
  {
    var i := IndexOf(s, c);
    if i < |s| {
      var head, rest := s[..i], s[i + 1..];
      var tail := Split(rest, c);
      JoinSplit(rest, c);
      assert Split(s, c) == [head] + tail;
      assert Join([head] + tail, [c]) == head + [c] + Join(tail, [c]) by {
        assert ([head] + tail)[1..] == tail;
      }
      assert s == head + [c] + rest;
    } else {
      assert Split(s, c) == [s];
    }
  }

  /** Joining pieces free of `c` and splitting on `c` gives back the pieces. */
  lemma {:induction false} SplitJoin(pieces: seq<string>, c: char)
    requires |pieces| >= 1
    requires forall k :: 0 <= k < |pieces| ==> c !in pieces[k]
    ensures Split(Join(pieces, [c]), c) == pieces
  {
    var p := pieces[0];
    if |pieces| > 1 {
      var others := pieces[1..];
      var rest := Join(others, [c]);
      var s := Join(pieces, [c]);
      assert s == p + [c] + rest;
      IndexOfPrefix(p, rest, c);
      assert s[..|p|] == p && s[|p| + 1..] == rest;
      SplitJoin(others, c);
      assert Split(s, c) == [p] + Split(rest, c);
      assert pieces == [p] + others;
    } else {
      assert IndexOf(p, c) == |p|;
      assert Split(p, c) == [p];
    }
  }

  lemma {:induction false} IndexOfPrefix(p: string, t: string, c: char)
    requires c !in p
    ensures IndexOf(p + [c] + t, c) == |p|
  {
    if p != [] {
      assert (p + [c] + t)[1..] == p[1..] + [c] + t;
      IndexOfPrefix(p[1..], t, c);
    }
  }

  /** A string is the text before position `i`, the character there and the rest. */
  lemma Around(s: string, i: nat)
    requires i < |s|
    ensures s == s[..i] + [s[i]] + s[i + 1..]
  {
  }

  /** Splitting at the first `c`: the text before it, then the pieces of the rest. */
  lemma SplitAtFirst(s: string, c: char)
    requires c in s
    ensures var i := IndexOf(s, c);
      Split(s, c) == [s[..i]] + Split(s[i + 1..], c)
  {
  }

  /** Everything after the first `c` is the join of all pieces but the first, so
      `parts.slice(1).join(c)` is the text after the first separator. */
  lemma SplitTailJoin(s: string, c: char)
    requires c in s
    ensures Join(Split(s, c)[1..], [c]) == s[IndexOf(s, c) + 1..]
  {
    JoinSplit(s[IndexOf(s, c) + 1..], c);
  }
}
