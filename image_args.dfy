/** The command line of the portfolio image generator: `WxH` sizes, the `--only`
    pattern, the option walker, and the settings `main` derives from the options. */
module ImageArgs {
  import opened Wrappers
  import opened Strings

  type Value = Option<string>

  predicate Truthy(v: Value) {
    v.Some? && v.value != ""
  }

  // ---------------------------------------------------------------------------
  // parseWxH

  datatype Size = Size(w: nat, h: nat)

  /** `t` is `a "x" b` with `a` and `b` non-empty strings of ASCII digits. */
  predicate SplitsAsWxH(t: string, a: string, b: string) {
    t == a + "x" + b && a != [] && b != [] && IsDigits(a) && IsDigits(b)
  }

  /** `t` matches `/^(\d+)x(\d+)$/`. */
  ghost predicate IsWxH(t: string) {
    exists a, b :: SplitsAsWxH(t, a, b)
  }

  /** The digits cannot hold an "x", so the first "x" is the separator. */
  lemma {:induction false} WxHAtFirstX(t: string)
    ensures IsWxH(t) <==>
      var k := IndexOf(t, 'x');
      0 < k < |t| - 1 && IsDigits(t[..k]) && IsDigits(t[k + 1..])
  {
    var k := IndexOf(t, 'x');
    if 0 < k < |t| - 1 && IsDigits(t[..k]) && IsDigits(t[k + 1..]) {
      SplitAt(t, k);
      assert SplitsAsWxH(t, t[..k], t[k + 1..]);
    }
    if IsWxH(t) {
      var a, b :| SplitsAsWxH(t, a, b);
      XSeparates(t, a, b);
    }
  }

  lemma {:induction false} SplitAt(t: string, k: nat)
    requires k < |t| && t[k] == 'x'
    ensures t == t[..k] + "x" + t[k + 1..]
  {
    assert t == t[..k] + [t[k]] + t[k + 1..];
  }

  lemma {:induction false} XSeparates(t: string, a: string, b: string)
    requires SplitsAsWxH(t, a, b)
    ensures IndexOf(t, 'x') == |a| && t[..|a|] == a && t[|a| + 1..] == b
  {
    assert t[|a|] == 'x';
    assert t[..|a|] == a;
    assert t[|a| + 1..] == b;
    assert forall i | 0 <= i < |a| :: a[i] != 'x';
  }

  function FormatError(flag: string, value: string): string {
    flag + " 格式错误：" + value + "（应为 WxH，例如 1536x1024）"
  }

  /** `null` for a falsy value; the two numbers of a trimmed `WxH`; an error otherwise. */
  function ParseWxH(value: Value, flag: string): (r: Result<Option<Size>, string>)
    ensures !Truthy(value) ==> r == Ok(None)
    ensures Truthy(value) ==> (r.Ok? <==> IsWxH(Trim(value.value)))
    ensures Truthy(value) ==> r.Ok? ==> r.value.Some?
    ensures Truthy(value) && r.Err? ==> r.error == FormatError(flag, value.value)
  {
    if !Truthy(value) then Ok(None)
    else
      var t := Trim(value.value);
      var k := IndexOf(t, 'x');
      WxHAtFirstX(t);
      if 0 < k < |t| - 1 && IsDigits(t[..k]) && IsDigits(t[k + 1..]) then
        Ok(Some(Size(DigitsValue(t[..k]), DigitsValue(t[k + 1..]))))
      else Err(FormatError(flag, value.value))
  }

  /** The numbers are the decimal values of the two digit runs. */
  lemma {:induction false} ParseWxHOf(value: string, flag: string, a: string, b: string)
    requires SplitsAsWxH(Trim(value), a, b)
    ensures ParseWxH(Some(value), flag) == Ok(Some(Size(DigitsValue(a), DigitsValue(b))))
  {
    XSeparates(Trim(value), a, b);
  }

  /** Printing a size as `WxH` and parsing it gives the size back. */
  lemma {:induction false} ParseWxHRoundTrip(size: Size, flag: string)
    ensures ParseWxH(Some(NatToString(size.w) + "x" + NatToString(size.h)), flag) == Ok(Some(size))
  {
    var a, b := NatToString(size.w), NatToString(size.h);
    NatToStringDigits(size.w);
    NatToStringDigits(size.h);
    var t := a + "x" + b;
    assert t[0] == a[0] && t[|t| - 1] == b[|b| - 1];
    assert Trimmed(t);
    TrimOfTrimmed(t);
    ParseWxHOf(t, flag, a, b);
  }

  // ---------------------------------------------------------------------------
  // parseMaybeRegex

  /** A filename prefix, or the body and flags of a `/body/flags` literal. */
  datatype Pattern = Prefix(prefix: string) | Regex(body: string, flags: string)

  /** `null` for a falsy or blank value; a regular expression when the trimmed text
      starts with "/" and has another "/" later; the trimmed text otherwise. */
  function ParseMaybeRegex(value: Value): (r: Option<Pattern>)
    ensures r.None? <==> value.None? || AllSpace(value.value)
    ensures r.Some? && r.value.Prefix? ==> r.value.prefix == Trim(value.value) != ""
    ensures r.Some? && r.value.Regex? ==>
      Trim(value.value) == "/" + r.value.body + "/" + r.value.flags && '/' !in r.value.flags
  {
    if !Truthy(value) then None
    else
      var s := Trim(value.value);
      TrimEmptyIff(value.value);
      if s == "" then None
      else if StartsWith(s, "/") && LastIndexOf(s, '/') > 0 then
        var last := LastIndexOf(s, '/');
        SlashSplit(s, last);
        Some(Regex(s[1..last], s[last + 1..]))
      else Some(Prefix(s))
  }

  lemma {:induction false} SlashSplit(s: string, last: nat)
    requires 0 < last < |s| && s[0] == '/' && s[last] == '/'
    ensures s == "/" + s[1..last] + "/" + s[last + 1..]
  {
    assert s == [s[0]] + s[1..last] + [s[last]] + s[last + 1..];
  }

  /** A `/body/flags` literal is read back as its body and flags. */
  lemma {:induction false} ParseMaybeRegexLiteral(body: string, flags: string)
    requires '/' !in flags
    requires flags == [] || !IsSpace(flags[|flags| - 1])
    ensures ParseMaybeRegex(Some("/" + body + "/" + flags)) == Some(Regex(body, flags))
  {
    var s := "/" + body + "/" + flags;
    var last := |body| + 1;
    assert s[0] == '/' && s[last] == '/';
    assert s[last + 1..] == flags && s[1..last] == body;
    assert s[|s| - 1] == if flags == [] then '/' else flags[|flags| - 1];
    TrimOfTrimmed(s);
    LastIndexAt(s, '/', last);
  }

  /** A text without a second slash is a prefix. */
  lemma {:induction false} ParseMaybeRegexPrefix(s: string)
    requires s != [] && Trimmed(s)
    requires '/' !in s[1..]
    ensures ParseMaybeRegex(Some(s)) == Some(Prefix(s))
  {
    TrimOfTrimmed(s);
    if StartsWith(s, "/") {
      assert s == [s[0]] + s[1..];
      assert '/' !in s[1..];
    }
  }

  // ---------------------------------------------------------------------------
  // parseArgs

  /** `{ _: [...], ...}`: the positional tokens, the options given with a value, and
      the two switches given on their own. */
  datatype Args = Args(positional: seq<string>, options: map<string, string>, flags: set<string>)

  const NoArgs := Args([], map[], {})

  predicate IsSwitch(key: string) {
    key == "skip-existing" || key == "dry-run"
  }

  function MissingMessage(key: string): string {
    "缺少参数：--" + key
  }

  /** `next` cannot be the value of an option: missing, or starting with "--", or ""
      when `emptyOk` is false (the source tests `!next`). */
  predicate Unusable(next: seq<string>, emptyOk: bool) {
    next == [] || (next[0] == "" && !emptyOk) || StartsWith(next[0], "--")
  }

  /** The state the walk reaches from `acc` over the tokens `rest`. The source is the
      case `emptyOk == false`. */
  function Parse(rest: seq<string>, acc: Args, emptyOk: bool): (r: Result<Args, string>)
    ensures r.Ok? ==>
      && |acc.positional| <= |r.value.positional|
      && r.value.positional[..|acc.positional|] == acc.positional
      && acc.flags <= r.value.flags && acc.options.Keys <= r.value.options.Keys
    decreases |rest|
  {
    if rest == [] then Ok(acc)
    else
      var a := rest[0];
      if !StartsWith(a, "--") then
        Parse(rest[1..], acc.(positional := acc.positional + [a]), emptyOk)
      else
        var key := a[2..];
        if IsSwitch(key) then Parse(rest[1..], acc.(flags := acc.flags + {key}), emptyOk)
        else if Unusable(rest[1..], emptyOk) then Err(MissingMessage(key))
        else Parse(rest[2..], acc.(options := acc.options[key := rest[1]]), emptyOk)
  }

  /** `parseArgs`: walk the tokens with an index that an option's value advances. */
  method ParseArgs(argv: seq<string>) returns (r: Result<Args, string>)
    ensures r == Parse(argv, NoArgs, false)
  {
    var args := NoArgs;
    var i := 0;
    while i < |argv|
      invariant 0 <= i <= |argv|
      invariant Parse(argv[i..], args, false) == Parse(argv, NoArgs, false)
    {
      var a := argv[i];
      assert argv[i..][1..] == argv[i + 1..];
      if !StartsWith(a, "--") {
        args := args.(positional := args.positional + [a]);
      } else {
        var key := a[2..];
        if IsSwitch(key) {
          args := args.(flags := args.flags + {key});
        } else {
          if i + 1 >= |argv| || argv[i + 1] == "" || StartsWith(argv[i + 1], "--") {
            return Err(MissingMessage(key));
          }
          assert argv[i..][2..] == argv[i + 2..];
          args := args.(options := args.options[key := argv[i + 1]]);
          i := i + 1;
        }
      }
      i := i + 1;
    }
    assert argv[i..] == [];
    return Ok(args);
  }

  /** The walk reads the tokens left to right: once a prefix has been read without
      error, the rest is read from the state the prefix left. */
  lemma {:induction false} ParseAppend(a: seq<string>, b: seq<string>, acc: Args, emptyOk: bool)
    requires Parse(a, acc, emptyOk).Ok?
    ensures Parse(a + b, acc, emptyOk) == Parse(b, Parse(a, acc, emptyOk).value, emptyOk)
    decreases |a|
  {
    if a == [] {
      assert a + b == b;
    } else {
      var t := a[0];
      assert (a + b)[0] == t && (a + b)[1..] == a[1..] + b;
      if !StartsWith(t, "--") {
        ParseAppend(a[1..], b, acc.(positional := acc.positional + [t]), emptyOk);
      } else if IsSwitch(t[2..]) {
        ParseAppend(a[1..], b, acc.(flags := acc.flags + {t[2..]}), emptyOk);
      } else {
        assert (a + b)[1] == a[1] && (a + b)[2..] == a[2..] + b;
        ParseAppend(a[2..], b, acc.(options := acc.options[t[2..] := a[1]]), emptyOk);
      }
    }
  }

  /** Tokens without a leading "--" are appended to `_` in order. */
  lemma {:induction false} ParsePositional(tokens: seq<string>, acc: Args, emptyOk: bool)
    requires forall i | 0 <= i < |tokens| :: !StartsWith(tokens[i], "--")
    ensures Parse(tokens, acc, emptyOk) == Ok(acc.(positional := acc.positional + tokens))
    decreases |tokens|
  {
    if tokens != [] {
      var next := acc.(positional := acc.positional + [tokens[0]]);
      assert forall i | 0 <= i < |tokens[1..]| :: tokens[1..][i] == tokens[i + 1];
      ParsePositional(tokens[1..], next, emptyOk);
      SeqCons(acc.positional, tokens);
    } else {
      assert acc.positional + tokens == acc.positional;
    }
  }

  lemma {:induction false} SeqCons(a: seq<string>, b: seq<string>)
    requires b != []
    ensures a + [b[0]] + b[1..] == a + b
  {
    assert b == [b[0]] + b[1..];
  }

  /** `--skip-existing` and `--dry-run` are set on their own and take no value. */
  lemma {:induction false} ParseSwitch(key: string, acc: Args, emptyOk: bool)
    requires IsSwitch(key)
    ensures Parse(["--" + key], acc, emptyOk) == Ok(acc.(flags := acc.flags + {key}))
  {
    assert ("--" + key)[2..] == key;
    assert ["--" + key][1..] == [];
  }

  /** Any other `--key` takes the next token as its value, overwriting an earlier one. */
  lemma {:induction false} ParseOption(key: string, value: string, acc: Args, emptyOk: bool)
    requires !IsSwitch(key) && !Unusable([value], emptyOk)
    ensures Parse(["--" + key, value], acc, emptyOk) == Ok(acc.(options := acc.options[key := value]))
  {
    var t := ["--" + key, value];
    assert t[0][2..] == key;
    assert t[1..] == [value] && t[2..] == [];
  }

  /** It is an error when that token is missing, starts with "--", or (in the source)
      is empty. */
  lemma {:induction false} ParseMissing(key: string, rest: seq<string>, acc: Args, emptyOk: bool)
    requires !IsSwitch(key) && Unusable(rest, emptyOk)
    ensures Parse(["--" + key] + rest, acc, emptyOk) == Err(MissingMessage(key))
  {
    var t := ["--" + key] + rest;
    assert t[0][2..] == key;
    assert t[1..] == rest;
  }

  // ---------------------------------------------------------------------------
  // The settings of `main`

  const DefaultModel := "gpt-image-1"
  const DefaultSize := "1536x1024"
  const DefaultAspect := "16x10"
  const DefaultResize := "1600x1000"

  /** `args[key]`: the value of an option, or nothing. */
  function Get(args: Args, key: string): Value {
    if key in args.options then Some(args.options[key]) else None
  }

  /** `args[key] ?? fallback`. */
  function Lookup(args: Args, key: string, fallback: string): string {
    if key in args.options then args.options[key] else fallback
  }

  /** `args.help || args.h || args._.includes("help")`. */
  predicate WantsHelp(args: Args) {
    Truthy(Get(args, "help")) || Truthy(Get(args, "h")) || "help" in args.positional
  }

  datatype Config = Config(model: string, genSize: Option<Size>, aspect: Option<Size>,
                           resize: Option<Size>, skipExisting: bool, dryRun: bool,
                           only: Option<Pattern>)

  /** A size option that `""` switches off, as `--aspect` and `--resize` are. */
  function OptionalSize(args: Args, key: string, fallback: string): (r: Result<Option<Size>, string>)
    ensures Get(args, key) == Some("") ==> r == Ok(None)
    ensures key !in args.options ==> r == ParseWxH(Some(fallback), "--" + key)
    ensures Get(args, key) != Some("") ==> r == ParseWxH(Some(Lookup(args, key, fallback)), "--" + key)
  {
    if Get(args, key) == Some("") then Ok(None)
    else ParseWxH(Some(Lookup(args, key, fallback)), "--" + key)
  }

  /** The settings `main` derives from the options, in its order, so that the first
      malformed size is the error reported. */
  function Settings(args: Args): (r: Result<Config, string>)
    ensures r.Ok? ==>
      && r.value.skipExisting == ("skip-existing" in args.flags)
      && r.value.dryRun == ("dry-run" in args.flags)
      && r.value.model == Lookup(args, "model", DefaultModel)
    ensures r.Ok? <==>
      && ParseWxH(Some(Lookup(args, "size", DefaultSize)), "--size").Ok?
      && OptionalSize(args, "aspect", DefaultAspect).Ok?
      && OptionalSize(args, "resize", DefaultResize).Ok?
  {
    var genSize := ParseWxH(Some(Lookup(args, "size", DefaultSize)), "--size");
    var aspect := OptionalSize(args, "aspect", DefaultAspect);
    var resize := OptionalSize(args, "resize", DefaultResize);
    if genSize.Err? then Err(genSize.error)
    else if aspect.Err? then Err(aspect.error)
    else if resize.Err? then Err(resize.error)
    else
      Ok(Config(Lookup(args, "model", DefaultModel), genSize.value, aspect.value, resize.value,
                "skip-existing" in args.flags, "dry-run" in args.flags,
                ParseMaybeRegex(Some(Lookup(args, "only", "")))))
  }

  /** Without options the generator makes 1536x1024 images, crops them to 16:10 and
      scales them to 1600x1000. */
  lemma {:induction false} DefaultSettings(args: Args)
    requires args.options == map[] && args.flags == {}
    ensures Settings(args)
         == Ok(Config(DefaultModel, Some(Size(1536, 1024)), Some(Size(16, 10)),
                      Some(Size(1600, 1000)), false, false, None))
  {
    DefaultSizesParse(args);
    SettingsOk(args, Size(1536, 1024), Size(16, 10), Size(1600, 1000));
  }

  /** Each size option falls back to its default text, which parses. */
  lemma {:induction false} DefaultSizesParse(args: Args)
    requires args.options == map[]
    ensures ParseWxH(Some(Lookup(args, "size", DefaultSize)), "--size") == Ok(Some(Size(1536, 1024)))
    ensures OptionalSize(args, "aspect", DefaultAspect) == Ok(Some(Size(16, 10)))
    ensures OptionalSize(args, "resize", DefaultResize) == Ok(Some(Size(1600, 1000)))
    ensures Lookup(args, "model", DefaultModel) == DefaultModel
    ensures ParseMaybeRegex(Some(Lookup(args, "only", ""))) == None
  {
    DefaultSizes();
    assert Lookup(args, "size", DefaultSize) == DefaultSize;
    assert Lookup(args, "only", "") == "";
  }

  /** Once the three sizes parse, `Settings` assembles them with the other options. */
  lemma {:induction false} SettingsOk(args: Args, genSize: Size, aspect: Size, resize: Size)
    requires ParseWxH(Some(Lookup(args, "size", DefaultSize)), "--size") == Ok(Some(genSize))
    requires OptionalSize(args, "aspect", DefaultAspect) == Ok(Some(aspect))
    requires OptionalSize(args, "resize", DefaultResize) == Ok(Some(resize))
    ensures Settings(args)
         == Ok(Config(Lookup(args, "model", DefaultModel), Some(genSize), Some(aspect), Some(resize),
                      "skip-existing" in args.flags, "dry-run" in args.flags,
                      ParseMaybeRegex(Some(Lookup(args, "only", "")))))
  {
  }

  lemma {:induction false} DefaultSizes()
    ensures ParseWxH(Some(DefaultSize), "--size") == Ok(Some(Size(1536, 1024)))
    ensures ParseWxH(Some(DefaultAspect), "--aspect") == Ok(Some(Size(16, 10)))
    ensures ParseWxH(Some(DefaultResize), "--resize") == Ok(Some(Size(1600, 1000)))
  {
    DefaultSizeText();
    ParseWxHRoundTrip(Size(1536, 1024), "--size");
    ParseWxHRoundTrip(Size(16, 10), "--aspect");
    ParseWxHRoundTrip(Size(1600, 1000), "--resize");
  }

  lemma {:induction false} DefaultSizeText()
    ensures DefaultSize == NatToString(1536) + "x" + NatToString(1024)
    ensures DefaultAspect == NatToString(16) + "x" + NatToString(10)
    ensures DefaultResize == NatToString(1600) + "x" + NatToString(1000)
  {
    assert NatToString(153) == "153" by { assert NatToString(15) == "15"; }
    assert NatToString(102) == "102" by { assert NatToString(10) == "10"; }
    assert NatToString(160) == "160" by { assert NatToString(16) == "16"; }
    assert NatToString(100) == "100";
  }

  // ---------------------------------------------------------------------------
  // An empty `--aspect`

  /** As written, the walk never stores an empty value. */
  lemma {:induction false} NoEmptyValues(rest: seq<string>, acc: Args)
    requires forall k | k in acc.options :: acc.options[k] != ""
    requires Parse(rest, acc, false).Ok?
    ensures var out := Parse(rest, acc, false).value; forall k | k in out.options :: out.options[k] != ""
    decreases |rest|
  {
    if rest != [] {
      var a := rest[0];
      if !StartsWith(a, "--") {
        NoEmptyValues(rest[1..], acc.(positional := acc.positional + [a]));
      } else if IsSwitch(a[2..]) {
        NoEmptyValues(rest[1..], acc.(flags := acc.flags + {a[2..]}));
      } else {
        NoEmptyValues(rest[2..], acc.(options := acc.options[a[2..] := rest[1]]));
      }
    }
  }

  /** So an option given an empty value is an error, `--aspect ""` included, although
      the usage text offers it to switch cropping off ... */
  lemma {:induction false} EmptyValueRejected(key: string)
    requires !IsSwitch(key)
    ensures Parse(["--" + key, ""], NoArgs, false) == Err(MissingMessage(key))
  {
    ParseMissing(key, [""], NoArgs, false);
    assert ["--" + key] + [""] == ["--" + key, ""];
  }

  /** ... and every accepted command line crops and resizes. */
  lemma {:induction false} AcceptedAlwaysCrops(argv: seq<string>)
    requires Parse(argv, NoArgs, false).Ok?
    requires Settings(Parse(argv, NoArgs, false).value).Ok?
    ensures var c := Settings(Parse(argv, NoArgs, false).value).value;
      c.aspect.Some? && c.resize.Some?
  {
    var args := Parse(argv, NoArgs, false).value;
    NoEmptyValues(argv, NoArgs);
    SizeGiven(args, "aspect", DefaultAspect);
    SizeGiven(args, "resize", DefaultResize);
  }

  lemma {:induction false} SizeGiven(args: Args, key: string, fallback: string)
    requires fallback != "" && (key in args.options ==> args.options[key] != "")
    requires OptionalSize(args, key, fallback).Ok?
    ensures OptionalSize(args, key, fallback).value.Some?
  {
    assert Truthy(Some(Lookup(args, key, fallback)));
  }

  /** The walk as evidently intended: only a missing token or one starting with "--"
      lacks a value. */
  function ParseIntended(argv: seq<string>): Result<Args, string> {
    Parse(argv, NoArgs, true)
  }

  /** With it, `--aspect ""` is accepted and switches cropping off. */
  lemma {:induction false} EmptyAspectDisablesCrop(key: string)
    requires key == "aspect"
    ensures ParseIntended(["--" + key, ""]) == Ok(NoArgs.(options := map[key := ""]))
    ensures Settings(NoArgs.(options := map[key := ""])).Ok?
    ensures Settings(NoArgs.(options := map[key := ""])).value.aspect == None
  {
    ParseOption(key, "", NoArgs, true);
    EmptyAspectSettings(NoArgs.(options := map[key := ""]));
  }

  lemma {:induction false} EmptyAspectSettings(args: Args)
    requires Get(args, "aspect") == Some("") && "size" !in args.options && "resize" !in args.options
    ensures Settings(args).Ok? && Settings(args).value.aspect == None
  {
    DefaultSizes();
    assert Lookup(args, "size", DefaultSize) == DefaultSize;
    assert Get(args, "resize") == None;
  }
}
