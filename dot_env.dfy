/** The `.env` reader of the portfolio image generator: `KEY=value` lines, with blank
    lines, comments and lines without a key skipped, one pair of quotes stripped, and a
    later line overriding an earlier one. */
module DotEnv {
  import opened Wrappers
  import opened Strings

  /** `v` starts and ends with the same quote character, `"` or `'`. */
  predicate Quoted(v: string) {
    |v| >= 1 && ((v[0] == '"' && v[|v| - 1] == '"') || (v[0] == '\'' && v[|v| - 1] == '\''))
  }

  /** `v.slice(1, -1)` for a quoted value. */
  function Unquote(v: string): (r: string)
    ensures !Quoted(v) ==> r == v
    ensures Quoted(v) && |v| >= 2 ==> v == [v[0]] + r + [v[0]]
    ensures Quoted(v) && |v| == 1 ==> r == ""
  {
    if Quoted(v) then
      if |v| >= 2 then
        assert v == [v[0]] + v[1..|v| - 1] + [v[|v| - 1]];
        v[1..|v| - 1]
      else ""
    else v
  }

  /** The key and value one line defines, if any. */
  function Entry(line: string): (r: Option<(string, string)>)
    ensures r.None? <==> var t := Trim(line); t == "" || t[0] == '#' || IndexOf(t, '=') <= 0
    ensures r.Some? ==> r.value.0 != "" && Trimmed(r.value.0) && '=' !in r.value.0
  {
    var t := Trim(line);
    if t == "" || t[0] == '#' then None
    else
      var idx := IndexOf(t, '=');
      if idx <= 0 then None
      else
        KeyOfLine(t, idx);
        Some((Trim(t[..idx]), Unquote(Trim(t[idx + 1..]))))
  }

  /** The text before the first "=" of a trimmed line starts with a character that is
      neither white space nor "=", so its trimmed form is a real key. */
  lemma {:induction false} KeyOfLine(t: string, idx: int)
    requires Trimmed(t) && 0 < idx < |t| && '=' !in t[..idx]
    ensures var k := Trim(t[..idx]); k != "" && '=' !in k
  {
    var p := t[..idx];
    assert p[0] == t[0] && !IsSpace(p[0]);
    assert !AllSpace(p);
    TrimEmptyIff(p);
    var k := Trim(p);
    var s := SkipSpaces(p, 0);
    TrimSlice(p);
    assert k == p[s..s + |k|];
    assert forall i | 0 <= i < |k| :: k[i] == p[s + i];
  }

  /** A `KEY=value` line with a clean key and a clean, unquoted value is read back. */
  lemma {:induction false} EntryOfPlain(key: string, value: string)
    requires key != "" && Trimmed(key) && '=' !in key && key[0] != '#'
    requires Trimmed(value) && !Quoted(value)
    ensures Entry(key + "=" + value) == Some((key, value))
  {
    var t := key + "=" + value;
    assert t[0] == key[0];
    assert t[|t| - 1] == if value == [] then '=' else value[|value| - 1];
    TrimOfTrimmed(t);
    EqualsAt(key, value);
    TrimOfTrimmed(key);
    TrimOfTrimmed(value);
  }

  /** A quoted value is read back without its quotes, spaces inside them included. */
  lemma {:induction false} EntryOfQuoted(key: string, value: string)
    requires key != "" && Trimmed(key) && '=' !in key && key[0] != '#'
    ensures Entry(key + "=" + ("\"" + value + "\"")) == Some((key, value))
  {
    var q := "\"" + value + "\"";
    assert q[0] == '"' && q[|q| - 1] == '"';
    assert q[1..|q| - 1] == value;
    var t := key + "=" + q;
    assert t[0] == key[0] && t[|t| - 1] == '"';
    TrimOfTrimmed(t);
    EqualsAt(key, q);
    TrimOfTrimmed(key);
    TrimOfTrimmed(q);
  }

  lemma {:induction false} EqualsAt(key: string, value: string)
    requires '=' !in key
    ensures var t := key + "=" + value;
      IndexOf(t, '=') == |key| && t[..|key|] == key && t[|key| + 1..] == value
  {
    var t := key + "=" + value;
    assert t[|key|] == '=' && t[..|key|] == key && t[|key| + 1..] == value;
  }

  /** The entry of every line, in order. */
  function Entries(lines: seq<string>): (r: seq<Option<(string, string)>>)
    ensures |r| == |lines| && forall i | 0 <= i < |lines| :: r[i] == Entry(lines[i])
  {
    if lines == [] then [] else Entries(lines[..|lines| - 1]) + [Entry(lines[|lines| - 1])]
  }

  /** `out[k] = v` for an entry, nothing for a skipped line. */
  function Add(env: map<string, string>, e: Option<(string, string)>): map<string, string> {
    match e
    case None => env
    case Some((k, v)) => env[k := v]
  }

  /** The map the entries build, a later entry overriding an earlier one. */
  function Collect(es: seq<Option<(string, string)>>): map<string, string> {
    if es == [] then map[] else Add(Collect(es[..|es| - 1]), es[|es| - 1])
  }

  /** The entries the lines of a file define. */
  function EnvOf(lines: seq<string>): map<string, string> {
    Collect(Entries(lines))
  }

  predicate Defines(e: Option<(string, string)>, key: string) {
    e.Some? && e.value.0 == key
  }

  /** A key is collected exactly when some entry has it ... */
  lemma {:induction false} CollectKeys(es: seq<Option<(string, string)>>, key: string)
    ensures key in Collect(es) <==> exists i | 0 <= i < |es| :: Defines(es[i], key)
  {
    if es != [] {
      var init := es[..|es| - 1];
      CollectKeys(init, key);
      if exists i | 0 <= i < |init| :: Defines(init[i], key) {
        var i :| 0 <= i < |init| && Defines(init[i], key);
        assert es[i] == init[i];
      }
      if exists i | 0 <= i < |es| :: Defines(es[i], key) {
        var i :| 0 <= i < |es| && Defines(es[i], key);
        if i < |init| {
          assert es[i] == init[i];
        }
      }
    }
  }

  /** ... and its value is the one of the last entry that has it. */
  lemma {:induction false} CollectLastWins(es: seq<Option<(string, string)>>, i: nat)
    requires i < |es| && es[i].Some?
    requires forall j | i < j < |es| :: !Defines(es[j], es[i].value.0)
    ensures es[i].value.0 in Collect(es) && Collect(es)[es[i].value.0] == es[i].value.1
  {
    if i < |es| - 1 {
      var init := es[..|es| - 1];
      assert init[i] == es[i];
      forall j | i < j < |init| ensures !Defines(init[j], init[i].value.0) {
        assert init[j] == es[j];
      }
      CollectLastWins(init, i);
      assert !Defines(es[|es| - 1], es[i].value.0);
    }
  }

  /** One more line adds its entry. */
  lemma {:induction false} EnvStep(lines: seq<string>, n: nat)
    requires n < |lines|
    ensures EnvOf(lines[..n + 1]) == Add(EnvOf(lines[..n]), Entry(lines[n]))
  {
    var es := Entries(lines[..n + 1]);
    assert lines[..n + 1][..n] == lines[..n];
    assert es[..n] == Entries(lines[..n]);
  }

  /** The lines of a file. Splitting on "\n" alone gives the pieces of `/\r?\n/` with a
      "\r" left at the end of some, which the trim of every line removes. */
  function Lines(text: string): seq<string> {
    Split(text, '\n')
  }

  /** The line loop of `loadDotEnv`. */
  method ParseDotEnv(text: string) returns (out: map<string, string>)
    ensures out == EnvOf(Lines(text))
  {
    var lines := Lines(text);
    out := map[];
    for n := 0 to |lines|
      invariant out == EnvOf(lines[..n])
    {
      EnvStep(lines, n);
      match Entry(lines[n])
      case None =>
      case Some((k, v)) =>
        out := out[k := v];
    }
    assert lines[..|lines|] == lines;
  }

  /** The entries of the first file that can be read (`None` stands for one that
      cannot), or none at all. */
  function FirstReadable(files: seq<Option<string>>): (r: map<string, string>)
    ensures (forall i | 0 <= i < |files| :: files[i].None?) ==> r == map[]
    ensures forall i | 0 <= i < |files| && files[i].Some? && (forall j | 0 <= j < i :: files[j].None?) ::
      r == EnvOf(Lines(files[i].value))
  {
    if files == [] then map[]
    else if files[0].Some? then EnvOf(Lines(files[0].value))
    else
      assert forall i | 1 <= i < |files| :: files[1..][i - 1] == files[i];
      FirstReadable(files[1..])
  }

  /** `loadDotEnv`: the loop over the candidate files. */
  method LoadDotEnv(files: seq<Option<string>>) returns (env: map<string, string>)
    ensures env == FirstReadable(files)
  {
    for i := 0 to |files|
      invariant FirstReadable(files[i..]) == FirstReadable(files)
    {
      if files[i].Some? {
        env := ParseDotEnv(files[i].value);
        return;
      }
      assert files[i..][1..] == files[i + 1..];
    }
    assert files[|files|..] == [];
    return map[];
  }

  /** `getApiKey`: the process environment first, then the `.env` files, then "". */
  method ApiKey(fromProcess: Option<string>, files: seq<Option<string>>) returns (key: string)
    ensures fromProcess.Some? && fromProcess.value != "" ==> key == fromProcess.value
    ensures (fromProcess.None? || fromProcess.value == "") ==>
      key == if "OPENAI_API_KEY" in FirstReadable(files) then FirstReadable(files)["OPENAI_API_KEY"] else ""
  {
    if fromProcess.Some? && fromProcess.value != "" {
      return fromProcess.value;
    }
    var env := LoadDotEnv(files);
    key := if "OPENAI_API_KEY" in env then env["OPENAI_API_KEY"] else "";
  }
}
