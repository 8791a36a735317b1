/**
 * The field parsers of `From<&toml::Value> for Command` (src/command.rs):
 * numeric coercions, `env` and `args` entries, the second scan of the
 * process arguments for `name=value` overrides, the dotenv merge and `$name`
 * substitution.
 *
 * The process arguments (`std::env::args()`) and the dotenv variables
 * (`dotenv::vars()`) are inputs.
 */
module Fields {
  import opened Text
  import opened Values
  import opened Commands

  // ---------------------------------------------------------------------------
  // Numbers: `i64 as i32` wraps, `f64 as i32` truncates toward zero and saturates

  const TwoTo31: int := 0x8000_0000
  const TwoTo32: int := 0x1_0000_0000

  predicate InI32(i: int)
  {
    -TwoTo31 <= i < TwoTo31
  }

  /** `i as i32`: the 32-bit value congruent to `i`; values already in range are kept. */
  function WrapI32(i: int): (r: int)
    ensures InI32(r)
    ensures (r - i) % TwoTo32 == 0
    ensures InI32(i) ==> r == i
  {
    var m := i % TwoTo32;
    if m >= TwoTo31 then m - TwoTo32 else m
  }

  /** `f as i32`: truncation toward zero, clamped to the 32-bit range. */
  function TruncI32(f: real): (r: int)
    ensures InI32(r)
    ensures f >= TwoTo31 as real ==> r == TwoTo31 - 1
    ensures f <= -TwoTo31 as real ==> r == -TwoTo31
    ensures -TwoTo31 as real < f < TwoTo31 as real && f >= 0.0 ==> r as real <= f < r as real + 1.0
    ensures -TwoTo31 as real < f < TwoTo31 as real && f < 0.0 ==> r as real - 1.0 < f <= r as real
  {
    if f >= TwoTo31 as real then TwoTo31 - 1
    else if f <= -TwoTo31 as real then -TwoTo31
    else if f >= 0.0 then f.Floor
    else -((-f).Floor)
  }

  /**
   * `repeat`, `max_repeat` and `until`: set from an integer or a float stored
   * under `key`; any other kind of value, or none, leaves the field unset.
   */
  function NumberField(v: Toml, key: string): (r: Option<int>)
    ensures r.Some? <==> Get(v, key).Some? && (Get(v, key).value.Integer? || Get(v, key).value.Float?)
    ensures r.Some? ==> InI32(r.value)
    ensures Get(v, key).Some? && Get(v, key).value.Integer? && InI32(Get(v, key).value.i) ==> r == Some(Get(v, key).value.i)
  {
    match Get(v, key)
    case Some(Integer(i)) => Some(WrapI32(i))
    case Some(Float(f)) => Some(TruncI32(f))
    case _ => None
  }

  // ---------------------------------------------------------------------------
  // Entries of the form "name=value"

  /** A parsed entry, or none when the element is dropped. */
  type Entry = Option<(string, string)>

  /** Index of the last entry named `k`, or -1 when there is none. */
  function LastWith(es: seq<Entry>, k: string): (j: int)
    ensures -1 <= j < |es|
    ensures j >= 0 ==> es[j].Some? && es[j].value.0 == k
    ensures forall i :: j < i < |es| ==> !(es[i].Some? && es[i].value.0 == k)
  {
    if es == [] then -1
    else if es[|es| - 1].Some? && es[|es| - 1].value.0 == k then |es| - 1
    else LastWith(es[..|es| - 1], k)
  }

  /** `x.split("=")` with exactly two pieces: the name and the value around the only `=`. */
  function KeyValue(s: string): (e: Entry)
    ensures e.Some? <==> Count(s, '=') == 1
    ensures e.Some? ==> s == e.value.0 + "=" + e.value.1 && '=' !in e.value.0 && '=' !in e.value.1
  {
    var parts := Split(s, '=');
    if |parts| == 2 then
      SplitJoin(s, '=');
      assert Join(parts, '=') == parts[0] + "=" + Join(parts[1..], '=');
      Some((parts[0], parts[1]))
    else None
  }

  /** Text around exactly one `=` is parsed back into its two sides. */
  lemma KeyValueExact(k: string, v: string)
    requires '=' !in k && '=' !in v
    ensures KeyValue(k + "=" + v) == Some((k, v))
  {
    SplitInTwo(k + "=" + v, '=', k, v);
  }

  /** An `env` element: a string with exactly one `=`; anything else is dropped. */
  function EnvEntry(t: Toml): (e: Entry)
    ensures e.Some? <==> t.Str? && Count(t.s, '=') == 1
    ensures e.Some? ==> t.s == e.value.0 + "=" + e.value.1
  {
    if t.Str? then KeyValue(t.s) else None
  }

  function EnvEntries(items: seq<Toml>): (es: seq<Entry>)
    ensures |es| == |items| && forall i :: 0 <= i < |items| ==> es[i] == EnvEntry(items[i])
  {
    seq(|items|, i requires 0 <= i < |items| => EnvEntry(items[i]))
  }

  /** The environment an `env` array gives: each valid entry inserted in order. */
  function EnvOf(items: seq<Toml>): map<string, string>
  {
    if items == [] then map[]
    else
      var env := EnvOf(items[..|items| - 1]);
      match EnvEntry(items[|items| - 1])
      case Some((k, v)) => env[k := v]
      case None => env
  }

  /**
   * A name is in the environment exactly when some element defines it, and
   * it then holds the value of the last such element.
   */
  lemma {:induction false} EnvLastWins(items: seq<Toml>, k: string)
    ensures var j := LastWith(EnvEntries(items), k);
      (k in EnvOf(items) <==> j >= 0) && (j >= 0 ==> EnvOf(items)[k] == EnvEntry(items[j]).value.1)
    decreases |items|
  {
    if items != [] {
      var init := items[..|items| - 1];
      EnvLastWins(init, k);
      assert EnvEntries(items)[..|items| - 1] == EnvEntries(init);
    }
  }

  /** The `env` loop: `command.env.insert(y[0], y[1])` for each element with two pieces. */
  method InsertEnvEntries(items: seq<Toml>) returns (env: map<string, string>)
    ensures env == EnvOf(items)
  {
    env := map[];
    var i := 0;
    while i < |items|
      invariant i <= |items| && env == EnvOf(items[..i])
    {
      var n := items[i];
      if n.Str? {
        var y := Split(n.s, '=');
        if |y| == 2 {
          env := env[y[0] := y[1]];
        }
      }
      assert items[..i + 1][..i] == items[..i];
      i := i + 1;
    }
    assert items[..i] == items;
  }

  /**
   * An `args` element: a bare name (no `=`) declares the name with an empty
   * value, `name=value` declares it with that value, anything else is dropped.
   */
  function ArgEntry(t: Toml): (e: Entry)
    ensures e.Some? <==> t.Str? && Count(t.s, '=') <= 1
    ensures e.Some? && Count(t.s, '=') == 0 ==> e.value == (t.s, "")
    ensures e.Some? && Count(t.s, '=') == 1 ==> t.s == e.value.0 + "=" + e.value.1
  {
    if !t.Str? then None
    else
      var parts := Split(t.s, '=');
      if |parts| == 1 then
        SplitJoin(t.s, '=');
        Some((parts[0], ""))
      else KeyValue(t.s)
  }

  function ArgEntries(items: seq<Toml>): (es: seq<Entry>)
    ensures |es| == |items| && forall i :: 0 <= i < |items| ==> es[i] == ArgEntry(items[i])
  {
    seq(|items|, i requires 0 <= i < |items| => ArgEntry(items[i]))
  }

  /** The declared arguments an `args` array gives, inserted in order. */
  function ArgsOf(items: seq<Toml>): Args
  {
    if items == [] then []
    else
      var args := ArgsOf(items[..|items| - 1]);
      match ArgEntry(items[|items| - 1])
      case Some((k, v)) => ArgInsert(args, k, v)
      case None => args
  }

  /** A name is declared exactly when some element declares it, with the value of the last one. */
  lemma {:induction false} ArgsLastWins(items: seq<Toml>, k: string)
    ensures var j := LastWith(ArgEntries(items), k);
      ArgLookup(ArgsOf(items), k) == if j >= 0 then Some(ArgEntry(items[j]).value.1) else None
    decreases |items|
  {
    if items != [] {
      var init := items[..|items| - 1];
      ArgsLastWins(init, k);
      assert ArgEntries(items)[..|items| - 1] == ArgEntries(init);
      match ArgEntry(items[|items| - 1])
      case Some((n, v)) => ArgInsertLookup(ArgsOf(init), n, v, k);
      case None =>
    }
  }

  /** The `args` loop: one or two pieces are inserted, others skipped. */
  method InsertArgEntries(items: seq<Toml>) returns (args: Args)
    ensures args == ArgsOf(items)
  {
    args := [];
    var i := 0;
    while i < |items|
      invariant i <= |items| && args == ArgsOf(items[..i])
    {
      var n := items[i];
      if n.Str? {
        var y := Split(n.s, '=');
        if |y| == 1 {
          args := ArgInsert(args, y[0], "");
        } else if |y| == 2 {
          args := ArgInsert(args, y[0], y[1]);
        }
      }
      assert items[..i + 1][..i] == items[..i];
      i := i + 1;
    }
    assert items[..i] == items;
  }

  // ---------------------------------------------------------------------------
  // The second scan of the process arguments (src/command.rs:359-388)

  /** The arguments after the program name, with the `cmd` of `cargo cmd` dropped; panics on an empty vector. */
  function DropProgramName(argv: seq<string>): Result<seq<string>>
  {
    if argv == [] then Err(NoProgramName)
    else if |argv| > 1 && Contains(argv[0], "cargo-cmd") && argv[1] == "cmd" then Ok(argv[2..])
    else Ok(argv[1..])
  }

  predicate IsFileFlag(t: string)
  {
    t == "-f" || t == "--file"
  }

  /** Leading `-f PATH` / `--file PATH` pairs skipped; panics when a flag has no path after it. */
  function SkipFileFlags(oargs: seq<string>): (r: Result<seq<string>>)
    ensures r.Ok? ==> |r.value| <= |oargs| && r.value == oargs[|oargs| - |r.value|..]
    ensures r.Ok? && r.value != [] ==> !IsFileFlag(r.value[0])
    ensures r.Err? ==> r.fault == NoFileName
  {
    if oargs == [] then Ok([])
    else if StartsWith(oargs[0], "-") && IsFileFlag(oargs[0]) then
      if |oargs| < 2 then Err(NoFileName) else SkipFileFlags(oargs[2..])
    else Ok(oargs)
  }

  /**
   * The `name=value` candidates the builder reads from the process
   * arguments: what follows the first token after the flags this scan knows
   * (only `-f`/`--file`).
   */
  function OverrideTokens(argv: seq<string>): Result<seq<string>>
  {
    match DropProgramName(argv)
    case Err(f) => Err(f)
    case Ok(oargs) =>
      match SkipFileFlags(oargs)
      case Err(f) => Err(f)
      case Ok(rest) => if rest == [] then Err(NoTaskName) else Ok(rest[1..])
  }

  /**
   * The scan fails exactly on an empty vector, a dangling `-f`, or no token
   * after the flags; otherwise it yields a suffix of the vector that leaves
   * out the task token.
   */
  lemma OverrideTokensShape(argv: seq<string>)
    ensures OverrideTokens(argv).Err? <==>
      argv == [] || DropProgramName(argv).Err? || SkipFileFlags(DropProgramName(argv).value).Err? ||
      SkipFileFlags(DropProgramName(argv).value).value == []
    ensures OverrideTokens(argv).Ok? ==> var t := OverrideTokens(argv).value;
      |t| < |argv| && t == argv[|argv| - |t|..]
  {
    if OverrideTokens(argv).Ok? {
      var oargs := DropProgramName(argv).value;
      var rest := SkipFileFlags(oargs).value;
      assert oargs == argv[|argv| - |oargs|..];
      assert rest[1..] == argv[|argv| - |rest| + 1..];
    }
  }

  /** The scan as the source writes it: the program name removed, the tokens collected, the task token dropped. */
  method RescanArgs(argv: seq<string>) returns (r: Result<seq<string>>)
    ensures r == OverrideTokens(argv)
  {
    var oargs := argv;
    if |oargs| > 1 {
      if Contains(oargs[0], "cargo-cmd") && oargs[1] == "cmd" {
        oargs := oargs[..1] + oargs[2..];
      }
    }
    if |oargs| == 0 {
      return Err(NoProgramName);
    }
    oargs := oargs[1..];
    assert DropProgramName(argv) == Ok(oargs);
    var commandArgs := CollectCommandArgs(oargs);
    if commandArgs.Err? {
      return commandArgs;
    }
    if |commandArgs.value| == 0 {
      return Err(NoTaskName);
    }
    r := Ok(commandArgs.value[1..]);
  }

  /** One step of the scan: a file flag takes the path after it, any other token ends the flags. */
  lemma SkipStep(oargs: seq<string>)
    requires oargs != []
    ensures !IsFileFlag(oargs[0]) ==> SkipFileFlags(oargs) == Ok([] + oargs)
    ensures IsFileFlag(oargs[0]) && |oargs| == 1 ==> SkipFileFlags(oargs) == Err(NoFileName)
    ensures IsFileFlag(oargs[0]) && |oargs| >= 2 ==> SkipFileFlags(oargs) == SkipFileFlags(oargs[2..])
  {
    if IsFileFlag(oargs[0]) {
      FileFlagIsOption(oargs[0]);
    } else {
      assert [] + oargs == oargs;
    }
  }

  /** Moving the first of the remaining tokens to the collected ones keeps their concatenation. */
  lemma MoveFirst(done: seq<string>, rest: seq<string>)
    requires rest != []
    ensures done + rest == (done + [rest[0]]) + rest[1..]
  {
    assert rest == [rest[0]] + rest[1..];
  }

  /** Both file flags open with a dash, so the scan's dash test lets them through. */
  lemma FileFlagIsOption(t: string)
    requires IsFileFlag(t)
    ensures StartsWith(t, "-")
  {
    if t == "-f" {
      assert t[..1] == "-";
    } else {
      assert t[..1] == "-";
    }
  }

  /** The `while oargs.len() > 0` loop: `remove(0)` under an `all_found` flag. */
  method CollectCommandArgs(tokens: seq<string>) returns (r: Result<seq<string>>)
    ensures r == SkipFileFlags(tokens)
  {
    var oargs := tokens;
    var commandArgs: seq<string> := [];
    var allFound := false;
    ghost var goal := SkipFileFlags(tokens);
    while |oargs| > 0
      invariant !allFound ==> commandArgs == []
      invariant goal == if allFound then Ok(commandArgs + oargs) else SkipFileFlags(oargs)
      decreases |oargs|, if allFound then 0 else 1
    {
      if allFound {
        MoveFirst(commandArgs, oargs);
        commandArgs := commandArgs + [oargs[0]];
        oargs := oargs[1..];
      } else {
        SkipStep(oargs);
        if StartsWith(oargs[0], "-") {
          if IsFileFlag(oargs[0]) {
            if |oargs| == 1 {
              return Err(NoFileName);
            }
            oargs := oargs[2..];
          } else {
            allFound := true;
          }
        } else {
          allFound := true;
        }
      }
    }
    assert commandArgs + oargs == commandArgs;
    r := Ok(commandArgs);
  }

  // ---------------------------------------------------------------------------
  // Overrides from the command line (src/command.rs:390-399)

  function OverrideEntries(toks: seq<string>): (es: seq<Entry>)
    ensures |es| == |toks| && forall i :: 0 <= i < |toks| ==> es[i] == KeyValue(toks[i])
  {
    seq(|toks|, i requires 0 <= i < |toks| => KeyValue(toks[i]))
  }

  /** Each token with exactly one `=` whose name is declared sets that argument's value. */
  function ApplyOverrides(args: Args, toks: seq<string>): (r: Args)
    ensures Keys(r) == Keys(args)
  {
    if toks == [] then args
    else
      var a := ApplyOverrides(args, toks[..|toks| - 1]);
      match KeyValue(toks[|toks| - 1])
      case Some((k, v)) => if ArgLookup(a, k).Some? then ArgInsert(a, k, v) else a
      case None => a
  }

  /**
   * Overrides never declare anything: an undeclared name stays undeclared,
   * and a declared one takes the value of the last token naming it, or keeps
   * its own when no token does.
   */
  lemma {:induction false} OverrideLastWins(args: Args, toks: seq<string>, k: string)
    ensures var j := LastWith(OverrideEntries(toks), k);
      ArgLookup(ApplyOverrides(args, toks), k) ==
        if k in Keys(args) && j >= 0 then Some(KeyValue(toks[j]).value.1) else ArgLookup(args, k)
    decreases |toks|
  {
    if toks != [] {
      var init := toks[..|toks| - 1];
      OverrideLastWins(args, init, k);
      assert OverrideEntries(toks)[..|toks| - 1] == OverrideEntries(init);
      var a := ApplyOverrides(args, init);
      match KeyValue(toks[|toks| - 1])
      case Some((n, v)) =>
        if ArgLookup(a, n).Some? {
          ArgInsertLookup(a, n, v, k);
        }
      case None =>
    }
  }

  /** The override loop: `*command.args.get_mut(name) = value` for declared names. */
  method OverrideArgs(args: Args, toks: seq<string>) returns (r: Args)
    ensures r == ApplyOverrides(args, toks)
  {
    r := args;
    var i := 0;
    while i < |toks|
      invariant i <= |toks| && r == ApplyOverrides(args, toks[..i])
    {
      var v := Split(toks[i], '=');
      if |v| == 2 {
        if ArgLookup(r, v[0]).Some? {
          r := ArgInsert(r, v[0], v[1]);
        }
      }
      assert toks[..i + 1][..i] == toks[..i];
      i := i + 1;
    }
    assert toks[..i] == toks;
  }

  // ---------------------------------------------------------------------------
  // dotenv (src/command.rs:412-419)

  /** Each dotenv variable is added unless the environment already has that name. */
  function MergeDotenv(env: map<string, string>, vars: seq<(string, string)>): map<string, string>
    decreases |vars|
  {
    if vars == [] then env
    else
      var e := if vars[0].0 in env then env else env[vars[0].0 := vars[0].1];
      MergeDotenv(e, vars[1..])
  }

  /**
   * The merge never overwrites: existing names keep their values; a new name
   * is added exactly when some variable carries it, with the first such value.
   */
  lemma {:induction false} DotenvNeverOverwrites(env: map<string, string>, vars: seq<(string, string)>, k: string)
    ensures k in env ==> k in MergeDotenv(env, vars) && MergeDotenv(env, vars)[k] == env[k]
    ensures k !in env ==> (k in MergeDotenv(env, vars) <==> k in Keys(vars))
    ensures k !in env && k in Keys(vars) ==> MergeDotenv(env, vars)[k] == Lookup(vars, k).value
    decreases |vars|
  {
    if vars != [] {
      var e := if vars[0].0 in env then env else env[vars[0].0 := vars[0].1];
      DotenvNeverOverwrites(e, vars[1..], k);
      assert Keys(vars) == [vars[0].0] + Keys(vars[1..]);
    }
  }

  /** The dotenv loop: `if !env.contains_key(k) { env.insert(k, v) }`. */
  method MergeDotenvVars(env: map<string, string>, vars: seq<(string, string)>) returns (r: map<string, string>)
    ensures r == MergeDotenv(env, vars)
  {
    r := env;
    var i := 0;
    while i < |vars|
      invariant i <= |vars| && MergeDotenv(r, vars[i..]) == MergeDotenv(env, vars)
    {
      var (k, v) := vars[i];
      if k !in r {
        r := r[k := v];
      }
      i := i + 1;
    }
  }

  // ---------------------------------------------------------------------------
  // `$name` substitution (src/command.rs:498-500, 511-515)

  /** Every `$name` replaced by its value, argument by argument in the arguments' order. */
  function Substitute(s: string, args: Args): string
    decreases |args|
  {
    if args == [] then s
    else Substitute(Replace(s, "$" + args[0].0, args[0].1), args[1..])
  }

  /** A text without `$` holds no `$name` pattern. */
  lemma NoDollarNoPattern(s: string, name: string)
    requires '$' !in s
    ensures !Contains(s, "$" + name)
  {
    var pat := "$" + name;
    forall i | 0 <= i <= |s| ensures !OccursAt(s, pat, i) {
      if i + |pat| <= |s| {
        assert s[i] in s;
        assert s[i..i + |pat|][0] == s[i] != pat[0];
      }
    }
  }

  /** Substitution leaves text without `$` alone. */
  lemma {:induction false} SubstituteNoDollar(s: string, args: Args)
    requires '$' !in s
    ensures Substitute(s, args) == s
  {
    if args != [] {
      NoDollarNoPattern(s, args[0].0);
      ReplaceAbsent(s, "$" + args[0].0, args[0].1);
      SubstituteNoDollar(s, args[1..]);
    }
  }

  /**
   * A token that is exactly `$name` becomes the value of `name`, provided no
   * argument substituted earlier matches inside it and the value holds no `$`.
   */
  lemma {:induction false} SubstituteToken(args: Args, j: nat)
    requires j < |args| && '$' !in args[j].1
    requires forall i :: 0 <= i < j ==> !Contains("$" + args[j].0, "$" + args[i].0)
    ensures Substitute("$" + args[j].0, args) == args[j].1
  {
    var t := "$" + args[j].0;
    if j == 0 {
      ReplaceWhole(t, args[0].1);
      SubstituteNoDollar(args[0].1, args[1..]);
    } else {
      ReplaceAbsent(t, "$" + args[0].0, args[0].1);
      SubstituteToken(args[1..], j - 1);
    }
  }

  /** The substitution loop for one text: `cmd = cmd.replace("$name", value)` per argument. */
  method SubstituteText(s: string, args: Args) returns (r: string)
    ensures r == Substitute(s, args)
  {
    r := s;
    var i := 0;
    while i < |args|
      invariant i <= |args| && Substitute(r, args[i..]) == Substitute(s, args)
    {
      r := Replace(r, "$" + args[i].0, args[i].1);
      assert args[i..][1..] == args[i + 1..];
      i := i + 1;
    }
  }

  /** Substitution applied to every token of a single-line command. */
  function SubstituteTokens(toks: seq<string>, args: Args): (r: seq<string>)
    ensures |r| == |toks|
  {
    seq(|toks|, i requires 0 <= i < |toks| => Substitute(toks[i], args))
  }

  /** `for c in command.iter_mut()`: each token rewritten where it stands. */
  method SubstituteEach(toks: seq<string>, args: Args) returns (r: seq<string>)
    ensures r == SubstituteTokens(toks, args)
  {
    r := toks;
    var i := 0;
    while i < |r|
      invariant i <= |r| == |toks|
      invariant forall k :: 0 <= k < i ==> r[k] == Substitute(toks[k], args)
      invariant forall k :: i <= k < |r| ==> r[k] == toks[k]
    {
      var c := SubstituteText(r[i], args);
      r := r[i := c];
      i := i + 1;
    }
  }

  // ---------------------------------------------------------------------------
  // Argument lookup in the tokens of a `cmd` array element (src/command.rs:530-534)

  /**
   * `c[1..]` names an argument: the token becomes its value. The slice panics
   * on an empty token and on one whose first character takes more than one
   * byte in UTF-8.
   */
  function ResolveToken(c: string, args: Args): (r: Result<string>)
    ensures r.Err? <==> c == [] || c[0] as int >= 128
    ensures r.Ok? ==> (r.value == c || (c[1..], r.value) in args)
    ensures r.Ok? && c[1..] !in Keys(args) ==> r.value == c
  {
    if c == [] || c[0] as int >= 128 then Err(BadTokenSlice(c))
    else
      match ArgLookup(args, c[1..])
      case Some(x) => Ok(x)
      case None => Ok(c)
  }

  /** Every token resolved in order; the first bad token panics. */
  function ResolveTokens(toks: seq<string>, args: Args): (r: Result<seq<string>>)
    ensures r.Ok? <==> forall i :: 0 <= i < |toks| ==> ResolveToken(toks[i], args).Ok?
    ensures r.Ok? ==> |r.value| == |toks| && forall i :: 0 <= i < |toks| ==> r.value[i] == ResolveToken(toks[i], args).value
  {
    if toks == [] then Ok([])
    else
      match ResolveToken(toks[0], args)
      case Err(f) => Err(f)
      case Ok(c) =>
        match ResolveTokens(toks[1..], args)
        case Err(f) => Err(f)
        case Ok(rest) =>
          assert forall i :: 1 <= i < |toks| ==> toks[i] == toks[1..][i - 1];
          Ok([c] + rest)
  }

  /** The first bad token, after good ones, is the one the lookup panics on. */
  lemma {:induction false} ResolveFirstBad(toks: seq<string>, args: Args, i: nat)
    requires i < |toks| && ResolveToken(toks[i], args).Err?
    requires forall k :: 0 <= k < i ==> ResolveToken(toks[k], args).Ok?
    ensures ResolveTokens(toks, args) == Err(BadTokenSlice(toks[i]))
  {
    if i > 0 {
      ResolveFirstBad(toks[1..], args, i - 1);
    }
  }

  /** The lookup loop over a child's tokens. */
  method ResolveEach(toks: seq<string>, args: Args) returns (r: Result<seq<string>>)
    ensures r == ResolveTokens(toks, args)
  {
    var out := toks;
    var i := 0;
    while i < |out|
      invariant i <= |out| == |toks|
      invariant forall k :: 0 <= k < i ==> ResolveToken(toks[k], args).Ok? && out[k] == ResolveToken(toks[k], args).value
      invariant forall k :: i <= k < |out| ==> out[k] == toks[k]
    {
      var c := out[i];
      if |c| == 0 || c[0] as int >= 128 {
        ResolveFirstBad(toks, args, i);
        return Err(BadTokenSlice(c));
      }
      var x := ArgLookup(args, c[1..]);
      if x.Some? {
        out := out[i := x.value];
      }
      i := i + 1;
    }
    assert out == ResolveTokens(toks, args).value;
    r := Ok(out);
  }
}
