/** The hand-written `.env.local` readers of the maintenance scripts. The file is split
    on `\n` and each line is read on its own, by one of two rules:
    scripts/test-db.js and scripts/reset-analytics.js keep everything after the first
    `=`; scripts/test-db.ts keeps only the text between the first and the second `=`
    and skips a line whose untrimmed key or value is empty. Reading the file itself is
    outside the model: its content is a parameter. */
module EnvFile {
  import opened Wrappers
  import Text

  /** The `env` object the scripts fill in. */
  type Env = map<string, string>

  const UrlVar: string := "NEXT_PUBLIC_SUPABASE_URL"
  const KeyVar: string := "SUPABASE_SERVICE_ROLE_KEY"

  /** `env[key] = value` on a plain object. The key `__proto__` names the prototype
      setter, which ignores a string, so that assignment stores nothing. */
  function Assign(env: Env, key: string, value: string): Env {
    if key == "__proto__" then env else env[key := value]
  }

  /** The two line rules. */
  datatype Dialect = Js | Ts

  /** The key and value one line defines under the `.js` rule: with at least one `=`,
      the trimmed text before the first `=` and the trimmed rest joined back with `=`. */
  function JsEntry(line: string): Option<(string, string)> {
    var parts := Text.Split(line, '=');
    if |parts| >= 2 then Some((Text.Trim(parts[0]), Text.Trim(Text.Join(parts[1..], "="))))
    else None
  }

  /** The key and value one line defines under the `.ts` rule: the first two pieces
      of the split, when both exist and are non-empty before trimming. */
  function TsEntry(line: string): Option<(string, string)> {
    var parts := Text.Split(line, '=');
    var key := parts[0];
    var value := if |parts| >= 2 then parts[1] else "";
    if key != "" && value != "" then Some((Text.Trim(key), Text.Trim(value))) else None
  }

  function Entry(d: Dialect, line: string): Option<(string, string)> {
    match d
    case Js => JsEntry(line)
    case Ts => TsEntry(line)
  }

  /** The object after one line: unchanged, or with the line's key assigned. */
  function Define(env: Env, entry: Option<(string, string)>): Env {
    if entry.None? then env else Assign(env, entry.value.0, entry.value.1)
  }

  /** The object after applying `entries` in order, starting from `{}`. */
  function Fold(entries: seq<Option<(string, string)>>): Env
    decreases |entries|
  {
    if entries == [] then map[]
    else Define(Fold(entries[..|entries| - 1]), entries[|entries| - 1])
  }

  /** What each line defines. */
  function Entries(d: Dialect, lines: seq<string>): (es: seq<Option<(string, string)>>)
    ensures |es| == |lines|
    ensures forall i :: 0 <= i < |lines| ==> es[i] == Entry(d, lines[i])
  {
    seq(|lines|, i requires 0 <= i < |lines| => Entry(d, lines[i]))
  }

  /** The object built from the content of `.env.local`. */
  function ReadEnv(d: Dialect, content: string): Env {
    Fold(Entries(d, Text.Split(content, '\n')))
  }

  /** The guard every script starts with: both variables present and non-empty. */
  predicate Configured(env: Env) {
    UrlVar in env && env[UrlVar] != "" && KeyVar in env && env[KeyVar] != ""
  }

  lemma FoldStep(entries: seq<Option<(string, string)>>, i: nat)
    requires i < |entries|
    ensures Fold(entries[..i + 1]) == Define(Fold(entries[..i]), entries[i])
  {
    assert entries[..i + 1][..i] == entries[..i];
  }

  /** The `forEach` of scripts/test-db.js and scripts/reset-analytics.js. */
  method ParseEnvJs(content: string) returns (env: Env)
    ensures env == ReadEnv(Js, content)
  {
    var lines := Text.Split(content, '\n');
    ghost var entries := Entries(Js, lines);
    env := map[];
    var i := 0;
    while i < |lines|
      invariant 0 <= i <= |lines|
      invariant env == Fold(entries[..i])
    {
      env := ReadLineJs(env, lines[i]);
      FoldStep(entries, i);
      i := i + 1;
    }
    assert entries[..i] == entries;
  }

  /** The callback of the `.js` `forEach`, for one line. */
  method ReadLineJs(env0: Env, line: string) returns (env: Env)
    ensures env == Define(env0, JsEntry(line))
  {
    env := env0;
    var parts := Text.Split(line, '=');
    if |parts| >= 2 {
      var key := Text.Trim(parts[0]);
      var value := Text.Trim(Text.Join(parts[1..], "="));
      assert JsEntry(line) == Some((key, value));
      if key != "__proto__" {
        env := env[key := value];
      }
    }
  }

  /** The `forEach` of scripts/test-db.ts. */
  method ParseEnvTs(content: string) returns (env: Env)
    ensures env == ReadEnv(Ts, content)
  {
    var lines := Text.Split(content, '\n');
    ghost var entries := Entries(Ts, lines);
    env := map[];
    var i := 0;
    while i < |lines|
      invariant 0 <= i <= |lines|
      invariant env == Fold(entries[..i])
    {
      env := ReadLineTs(env, lines[i]);
      FoldStep(entries, i);
      i := i + 1;
    }
    assert entries[..i] == entries;
  }

  /** The callback of the `.ts` `forEach`, for one line. */
  method ReadLineTs(env0: Env, line: string) returns (env: Env)
    ensures env == Define(env0, TsEntry(line))
  {
    env := env0;
    var parts := Text.Split(line, '=');
    var key := parts[0];
    var value := if |parts| >= 2 then parts[1] else "";
    if key != "" && value != "" {
      var k := Text.Trim(key);
      assert TsEntry(line) == Some((k, Text.Trim(value)));
      if k != "__proto__" {
        env := env[k := Text.Trim(value)];
      }
    }
  }

  /** The entries of a line `key=rest` whose key has no `=`. */
  lemma EntryAt(line: string, key: string, rest: string)
    requires '=' !in key && line == key + ['='] + rest
    ensures JsEntry(line) == Some((Text.Trim(key), Text.Trim(rest)))
    ensures var value := rest[..Text.IndexOf(rest, '=')];
      TsEntry(line) == if key != "" && value != "" then Some((Text.Trim(key), Text.Trim(value))) else None
  {
    Text.IndexOfPrefix(key, rest, '=');
    assert line[..|key|] == key && line[|key| + 1..] == rest;
    Text.SplitAtFirst(line, '=');
    var parts := Text.Split(line, '=');
    assert parts[0] == key && parts[1..] == Text.Split(rest, '=');
    Text.JoinSplit(rest, '=');
    assert "=" == ['='];
  }

  /** Under the `.js` rule a line defines something exactly when it has an `=`; the key
      is the trimmed text before the first `=` and the value the trimmed text after it,
      later `=` included. */
  lemma JsEntryMeaning(line: string)
    ensures JsEntry(line).Some? <==> '=' in line
    ensures '=' in line ==>
      var i := Text.IndexOf(line, '=');
      JsEntry(line) == Some((Text.Trim(line[..i]), Text.Trim(line[i + 1..])))
  {
    if '=' in line {
      var i := Text.IndexOf(line, '=');
      SplitAtFirstEquals(line);
      EntryAt(line, line[..i], line[i + 1..]);
    } else {
      NoEqualsIgnored(Js, line);
    }
  }

  lemma SplitAtFirstEquals(line: string)
    requires '=' in line
    ensures var i := Text.IndexOf(line, '=');
      line == line[..i] + ['='] + line[i + 1..]
  {
    Text.Around(line, Text.IndexOf(line, '='));
  }

  /** Under the `.ts` rule the value stops at the second `=`, and the line counts only
      when the untrimmed key and value are both non-empty. */
  lemma TsEntryMeaning(line: string)
    ensures var i := Text.IndexOf(line, '=');
      var rest := if i < |line| then line[i + 1..] else "";
      var value := rest[..Text.IndexOf(rest, '=')];
      && (TsEntry(line).Some? <==> i < |line| && i > 0 && value != "")
      && (TsEntry(line).Some? ==> TsEntry(line) == Some((Text.Trim(line[..i]), Text.Trim(value))))
  {
    var i := Text.IndexOf(line, '=');
    if i < |line| {
      SplitAtFirstEquals(line);
      EntryAt(line, line[..i], line[i + 1..]);
    } else {
      assert |Text.Split(line, '=')| == 1;
    }
  }

  /** A line without `=` is ignored by both rules. */
  lemma NoEqualsIgnored(d: Dialect, line: string)
    requires '=' !in line
    ensures Entry(d, line) == None
  {
    assert |Text.Split(line, '=')| == 1;
  }

  /** On a line with exactly one `=` and text on both sides of it, the two rules agree. */
  lemma RulesAgreeOnSimpleLines(line: string)
    requires Text.Count(line, '=') == 1
    requires var i := Text.IndexOf(line, '='); 0 < i < |line| - 1
    ensures JsEntry(line) == TsEntry(line) != None
  {
    var i := Text.IndexOf(line, '=');
    var key, rest := line[..i], line[i + 1..];
    Text.CountSplitsAt(line, '=', i);
    assert Text.IndexOf(rest, '=') == |rest|;
    assert rest[..|rest|] == rest;
    SplitAtFirstEquals(line);
    EntryAt(line, key, rest);
  }

  /** Trimming removes the `\r` of a CRLF line, so under the `.js` rule a CRLF file
      reads like the same file with LF line ends. */
  lemma JsIgnoresCarriageReturn(line: string)
    ensures JsEntry(line + ['\r']) == JsEntry(line)
  {
    var cr := line + ['\r'];
    var i := Text.IndexOf(line, '=');
    if i < |line| {
      var key, rest := line[..i], line[i + 1..];
      SplitAtFirstEquals(line);
      assert cr == key + ['='] + (rest + ['\r']);
      EntryAt(line, key, rest);
      EntryAt(cr, key, rest + ['\r']);
      Text.TrimDropsTrailingCr(rest);
    } else {
      assert '=' !in cr by {
        assert forall k :: 0 <= k < |line| ==> cr[k] == line[k];
      }
      assert |Text.Split(line, '=')| == 1;
      assert |Text.Split(cr, '=')| == 1;
    }
  }

  /** A key defined by some line keeps the value of the last line that defines it. */
  lemma {:induction false} LastDefinitionWins(entries: seq<Option<(string, string)>>, j: nat, k: string, v: string)
    requires j < |entries| && entries[j] == Some((k, v)) && k != "__proto__"
    requires forall j' :: j < j' < |entries| ==> entries[j'].None? || entries[j'].value.0 != k
    ensures k in Fold(entries) && Fold(entries)[k] == v
    decreases |entries|
  {
    var n := |entries| - 1;
    var init := entries[..n];
    assert entries[..n + 1] == entries;
    FoldStep(entries, n);
    if j < n {
      LastDefinitionWins(init, j, k, v);
    }
  }

  /** A key that no line defines is absent, and so is `__proto__`. */
  lemma {:induction false} UndefinedKeyAbsent(entries: seq<Option<(string, string)>>, k: string)
    requires k == "__proto__" || forall j :: 0 <= j < |entries| ==> entries[j].None? || entries[j].value.0 != k
    ensures k !in Fold(entries)
    decreases |entries|
  {
    if entries != [] {
      var n := |entries| - 1;
      assert entries[..n + 1] == entries;
      FoldStep(entries, n);
      UndefinedKeyAbsent(entries[..n], k);
    }
  }

  /** `KEY=` stores the empty string under the `.js` rule and is skipped under the
      `.ts` rule. */
  lemma EmptyValue(key: string)
    requires key != "" && '=' !in key
    ensures JsEntry(key + "=") == Some((Text.Trim(key), ""))
    ensures TsEntry(key + "=") == None
  {
    assert key + "=" == key + ['='] + [];
    EntryAt(key + "=", key, []);
  }

  /** `KEY= ` stores the empty string under the `.ts` rule too: the value is checked
      before it is trimmed. */
  lemma BlankValue(key: string)
    requires key != "" && '=' !in key
    ensures TsEntry(key + "= ") == Some((Text.Trim(key), ""))
  {
    var space := " ";
    assert key + "= " == key + ['='] + space;
    EntryAt(key + "= ", key, space);
    assert Text.IndexOf(space, '=') == 1;
    assert space[..1] == space;
    assert Text.Trim(space) == [];
  }

  /** The `.ts` rule does not ignore the `\r` of a CRLF line: `KEY=` followed by `\r`
      has a non-empty value before trimming, so it stores the empty string, where the
      same line with an LF ending is skipped. */
  lemma TsCarriageReturnValue(key: string)
    requires key != "" && '=' !in key
    ensures TsEntry(key + "=\r") == Some((Text.Trim(key), ""))
    ensures TsEntry(key + "=") == None
  {
    var cr := "\r";
    assert key + "=\r" == key + ['='] + cr;
    EntryAt(key + "=\r", key, cr);
    assert Text.IndexOf(cr, '=') == 1;
    assert cr[..1] == cr;
    assert Text.Trim(cr) == [];
    EmptyValue(key);
  }

  /** `=v` stores under the empty key under the `.js` rule and is skipped under the
      `.ts` rule. */
  lemma EmptyKey(value: string)
    requires '=' !in value
    ensures JsEntry("=" + value) == Some(("", Text.Trim(value)))
    ensures TsEntry("=" + value) == None
  {
    assert "=" + value == [] + ['='] + value;
    EntryAt("=" + value, [], value);
  }

  /** A value with a second `=`: the `.js` rule keeps all of it, the `.ts` rule only
      the part before the second `=`. */
  lemma SecondEqualsSign(key: string, v1: string, v2: string)
    requires key != "" && v1 != "" && '=' !in key && '=' !in v1
    ensures var value := v1 + "=" + v2;
      && JsEntry(key + "=" + value) == Some((Text.Trim(key), Text.Trim(value)))
      && TsEntry(key + "=" + value) == Some((Text.Trim(key), Text.Trim(v1)))
  {
    var value := v1 + "=" + v2;
    var eq := "=";
    assert eq == ['='];
    EntryAt(key + eq + value, key, value);
    Text.IndexOfPrefix(v1, v2, '=');
    assert value[..|v1|] == v1;
  }
}
