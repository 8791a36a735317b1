/**
 * The command line of the task runner (`main`, src/main.rs:31-127): the
 * scan of the process arguments for `-f`, `-p` and `-h`, the task name and
 * its arguments, the loading of the commands, the forced parallel mode, and
 * the removal of `name=value` tokens that the task already resolved.
 */
module Cli {
  import opened Text
  import opened Values
  import opened Commands
  import opened CommandFrom
  import opened Fields
  import opened Utils
  import opened CommandsMap

  /** What `main` records in `commander_args`: the last `-f` path, and whether `-p` was given. */
  datatype Flags = Flags(file: Option<string>, parallel: bool)

  /** The scan's result: help was asked for, or the flags and the command arguments. */
  datatype Scan = Help | Tokens(flags: Flags, commandArgs: seq<string>)

  predicate IsParallelFlag(t: string)
  {
    t == "-p" || t == "--parallel"
  }

  predicate IsHelpFlag(t: string)
  {
    t == "-h" || t == "--help"
  }

  /** A token the scan takes as one of its own options. */
  predicate IsOption(t: string)
  {
    StartsWith(t, "-") && (IsFileFlag(t) || IsParallelFlag(t) || IsHelpFlag(t))
  }

  /**
   * The scan of the arguments after the program name: leading options are
   * consumed (`-f` with the path after it), `-h` stops everything, and the
   * first other token starts the command arguments, which run to the end.
   */
  function ScanFlags(args: seq<string>, flags: Flags): (r: Result<Scan>)
    ensures r.Ok? && r.value.Tokens? && flags.parallel ==> r.value.flags.parallel
    ensures r.Err? ==> r.fault == NoFileName
    decreases |args|
  {
    if args == [] then Ok(Tokens(flags, []))
    else if StartsWith(args[0], "-") then
      if IsFileFlag(args[0]) then
        if |args| < 2 then Err(NoFileName) else ScanFlags(args[2..], flags.(file := Some(args[1])))
      else if IsParallelFlag(args[0]) then ScanFlags(args[1..], flags.(parallel := true))
      else if IsHelpFlag(args[0]) then Ok(Help)
      else Ok(Tokens(flags, args))
    else Ok(Tokens(flags, args))
  }

  /** The whole scan of the process arguments. */
  function ParseArgv(argv: seq<string>): Result<Scan>
  {
    match DropProgramName(argv)
    case Err(f) => Err(f)
    case Ok(args) => ScanFlags(args, Flags(None, false))
  }

  /** The scan as the source writes it: `remove(0)` in a loop under the `all_found` flag. */
  method MainScan(argv: seq<string>) returns (r: Result<Scan>)
    ensures r == ParseArgv(argv)
  {
    var args := argv;
    if |args| > 1 {
      if Contains(args[0], "cargo-cmd") && args[1] == "cmd" {
        args := args[..1] + args[2..];
      }
    }
    if |args| == 0 {
      return Err(NoProgramName);
    }
    args := args[1..];
    assert DropProgramName(argv) == Ok(args);
    var commandArgs: seq<string> := [];
    var file: Option<string> := None;
    var parallel := false;
    var allFound := false;
    ghost var goal := ScanFlags(args, Flags(None, false));
    while |args| > 0
      invariant !allFound ==> commandArgs == [] && goal == ScanFlags(args, Flags(file, parallel))
      invariant allFound ==> goal == Ok(Tokens(Flags(file, parallel), commandArgs + args))
      decreases |args|, if allFound then 0 else 1
    {
      if allFound {
        MoveFirst(commandArgs, args);
        commandArgs := commandArgs + [args[0]];
        args := args[1..];
      } else {
        if StartsWith(args[0], "-") {
          if args[0] == "-f" || args[0] == "--file" {
            args := args[1..];
            if |args| == 0 {
              return Err(NoFileName);
            }
            file := Some(args[0]);
            args := args[1..];
          } else if args[0] == "-p" || args[0] == "--parallel" {
            parallel := true;
            args := args[1..];
          } else if args[0] == "-h" || args[0] == "--help" {
            return Ok(Help);
          } else {
            allFound := true;
            assert [] + args == args;
          }
        } else {
          allFound := true;
          assert [] + args == args;
        }
      }
    }
    assert commandArgs + args == commandArgs;
    r := Ok(Tokens(Flags(file, parallel), commandArgs));
  }

  /** `p` is made only of `-p`/`--parallel` tokens and `-f PATH`/`--file PATH` pairs. */
  predicate FlagGroups(p: seq<string>)
    decreases |p|
  {
    p == [] ||
    (IsParallelFlag(p[0]) && FlagGroups(p[1..])) ||
    (IsFileFlag(p[0]) && |p| >= 2 && FlagGroups(p[2..]))
  }

  /**
   * The command arguments are the tail of the arguments that starts at the
   * first token that is not an option: everything before it is `-p` flags
   * and `-f PATH` pairs. Help ends the scan only when asked for after such
   * leading flags.
   */
  lemma ScanTail(args: seq<string>, flags: Flags)
    ensures var r := ScanFlags(args, flags);
      r.Ok? && r.value.Tokens? ==> var ca := r.value.commandArgs;
        |ca| <= |args| && ca == args[|args| - |ca|..] && FlagGroups(args[..|args| - |ca|]) &&
        (ca != [] ==> !IsOption(ca[0]))
    ensures ScanFlags(args, flags) == Ok(Help) ==>
      exists i :: 0 <= i < |args| && FlagGroups(args[..i]) && IsHelpFlag(args[i])
  {
    ScanSplits(args, flags);
    ScanHelp(args, flags);
  }

  /** The first flag group of the arguments, its length and the flags after it, when the scan goes on past it. */
  predicate GroupStep(args: seq<string>, flags: Flags, g: nat, flags': Flags)
  {
    args != [] && StartsWith(args[0], "-") &&
    ((IsFileFlag(args[0]) && |args| >= 2 && g == 2 && flags' == flags.(file := Some(args[1]))) ||
     (!IsFileFlag(args[0]) && IsParallelFlag(args[0]) && g == 1 && flags' == flags.(parallel := true)))
  }

  /** After one flag group the scan continues on the rest with updated flags; with no group it stops at once. */
  lemma ScanOneGroup(args: seq<string>, flags: Flags) returns (g: nat, flags': Flags)
    ensures GroupStep(args, flags, g, flags') ==> g <= |args| && ScanFlags(args, flags) == ScanFlags(args[g..], flags')
    ensures !GroupStep(args, flags, g, flags') ==>
      ScanFlags(args, flags).Err? || (ScanFlags(args, flags) == Ok(Help) && IsHelpFlag(args[0])) ||
      (ScanFlags(args, flags) == Ok(Tokens(flags, args)) && (args != [] ==> !IsOption(args[0])))
    ensures !GroupStep(args, flags, g, flags') && ScanFlags(args, flags).Err? ==> |args| == 1 && IsFileFlag(args[0])
  {
    if args != [] && StartsWith(args[0], "-") && IsFileFlag(args[0]) && |args| >= 2 {
      g, flags' := 2, flags.(file := Some(args[1]));
    } else if args != [] && StartsWith(args[0], "-") && !IsFileFlag(args[0]) && IsParallelFlag(args[0]) {
      g, flags' := 1, flags.(parallel := true);
    } else {
      g, flags' := 0, flags;
    }
  }

  /** The command arguments follow a run of flag groups and do not open with an option. */
  lemma {:induction false} ScanSplits(args: seq<string>, flags: Flags)
    ensures var r := ScanFlags(args, flags);
      r.Ok? && r.value.Tokens? ==> var ca := r.value.commandArgs;
        |ca| <= |args| && ca == args[|args| - |ca|..] && FlagGroups(args[..|args| - |ca|]) &&
        (ca != [] ==> !IsOption(ca[0]))
    decreases |args|
  {
    var g, flags' := ScanOneGroup(args, flags);
    var r := ScanFlags(args, flags);
    if GroupStep(args, flags, g, flags') {
      ScanSplits(args[g..], flags');
      if r.Ok? && r.value.Tokens? {
        SplitAfterGroup(args, flags, g, flags', r.value.commandArgs);
      }
    } else if r.Ok? && r.value.Tokens? {
      assert args[..0] == [];
      assert args[0..] == args;
    }
  }

  /** Help is given only for a help flag that follows a run of flag groups. */
  lemma {:induction false} ScanHelp(args: seq<string>, flags: Flags)
    ensures ScanFlags(args, flags) == Ok(Help) ==>
      exists i :: 0 <= i < |args| && FlagGroups(args[..i]) && IsHelpFlag(args[i])
    decreases |args|
  {
    var g, flags' := ScanOneGroup(args, flags);
    if ScanFlags(args, flags) == Ok(Help) {
      if GroupStep(args, flags, g, flags') {
        ScanHelp(args[g..], flags');
        var i :| 0 <= i < |args[g..]| && FlagGroups(args[g..][..i]) && IsHelpFlag(args[g..][i]);
        HelpAfterGroup(args, flags, g, flags', i);
      } else {
        assert args[..0] == [];
      }
    }
  }

  /** A split of the arguments after their first flag group is a split of the whole arguments. */
  lemma SplitAfterGroup(args: seq<string>, flags: Flags, g: nat, flags': Flags, ca: seq<string>)
    requires GroupStep(args, flags, g, flags')
    requires var rest := args[g..];
      |ca| <= |rest| && ca == rest[|rest| - |ca|..] && FlagGroups(rest[..|rest| - |ca|])
    ensures |ca| <= |args| && ca == args[|args| - |ca|..] && FlagGroups(args[..|args| - |ca|])
  {
    var rest := args[g..];
    assert rest[|rest| - |ca|..] == args[|args| - |ca|..];
    PrependGroup(args, g, |args| - |ca|);
  }

  /** A help flag after a run of flag groups past the first group is one after a run of the whole arguments. */
  lemma HelpAfterGroup(args: seq<string>, flags: Flags, g: nat, flags': Flags, i: nat)
    requires GroupStep(args, flags, g, flags')
    requires i < |args[g..]| && FlagGroups(args[g..][..i]) && IsHelpFlag(args[g..][i])
    ensures i + g < |args| && FlagGroups(args[..i + g]) && IsHelpFlag(args[i + g])
  {
    PrependGroup(args, g, i + g);
  }

  /** One flag group in front of a run of flag groups is again a run. */
  lemma PrependGroup(args: seq<string>, g: nat, n: nat)
    requires 1 <= g <= 2 && g <= n <= |args|
    requires g == 1 ==> IsParallelFlag(args[0])
    requires g == 2 ==> IsFileFlag(args[0])
    requires FlagGroups(args[g..][..n - g])
    ensures FlagGroups(args[..n])
  {
    assert args[..n][g..] == args[g..][..n - g];
  }

  /**
   * The split of the arguments into leading flags and a tail that does not
   * open with an option is unique: so `ScanTail` pins the command arguments
   * down to the tail after the longest run of flag groups.
   */
  lemma {:induction false} FlagSplitUnique(p1: seq<string>, t1: seq<string>, p2: seq<string>, t2: seq<string>)
    requires FlagGroups(p1) && FlagGroups(p2) && p1 + t1 == p2 + t2
    requires t1 != [] ==> !IsOption(t1[0])
    requires t2 != [] ==> !IsOption(t2[0])
    ensures p1 == p2 && t1 == t2
    decreases |p1|
  {
    if p1 == [] {
      assert p2 + t2 == t1;
      NoGroupBeforeTail(p2, t2);
    } else if p2 == [] {
      assert p1 + t1 == t2;
      NoGroupBeforeTail(p1, t1);
    } else {
      var g := if IsParallelFlag(p1[0]) then 1 else 2;
      assert p1[0] == (p1 + t1)[0] == (p2 + t2)[0] == p2[0];
      GroupLength(p1);
      GroupLength(p2);
      CutBoth(p1, t1, p2, t2, g);
      FlagSplitUnique(p1[g..], t1, p2[g..], t2);
      assert p1 == p1[..g] + p1[g..];
      assert p2 == p2[..g] + p2[g..];
    }
  }

  /** A run of flag groups before a tail that does not open with an option is empty when the whole is that tail's shape. */
  lemma NoGroupBeforeTail(p: seq<string>, t: seq<string>)
    requires FlagGroups(p)
    requires p + t != [] ==> !IsOption((p + t)[0])
    ensures p == []
  {
    if p != [] {
      assert (p + t)[0] == p[0];
      OptionGroupStart(p);
    }
  }

  /** Two splits of one sequence agree on their first `g` elements and on what follows them. */
  lemma CutBoth(p1: seq<string>, t1: seq<string>, p2: seq<string>, t2: seq<string>, g: nat)
    requires p1 + t1 == p2 + t2 && g <= |p1| && g <= |p2|
    ensures p1[..g] == p2[..g] && p1[g..] + t1 == p2[g..] + t2
  {
    assert p1[..g] == (p1 + t1)[..g];
    assert p2[..g] == (p2 + t2)[..g];
    assert p1[g..] + t1 == (p1 + t1)[g..];
    assert p2[g..] + t2 == (p2 + t2)[g..];
  }

  /** A non-empty run of flag groups opens with an option. */
  lemma OptionGroupStart(p: seq<string>)
    requires FlagGroups(p) && p != []
    ensures IsOption(p[0])
  {
    assert StartsWith("-p", "-") && StartsWith("--parallel", "-");
    assert StartsWith("-f", "-") && StartsWith("--file", "-");
  }

  /** The first group of a non-empty run is one `-p` token or a `-f PATH` pair, and the rest is again a run. */
  lemma GroupLength(p: seq<string>)
    requires FlagGroups(p) && p != []
    ensures var g := if IsParallelFlag(p[0]) then 1 else 2;
      |p| >= g && FlagGroups(p[g..])
  {
  }

  /** The flags recorded after a run of flag groups: each `-f PATH` sets the path, each `-p` sets parallel mode. */
  function FlagsAfter(p: seq<string>, flags: Flags): Flags
    decreases |p|
  {
    if p == [] then flags
    else if IsFileFlag(p[0]) && |p| >= 2 then FlagsAfter(p[2..], flags.(file := Some(p[1])))
    else if IsParallelFlag(p[0]) then FlagsAfter(p[1..], flags.(parallel := true))
    else flags
  }

  /** A run of flag groups is consumed whole: the scan goes on after it with the flags it records. */
  lemma {:induction false} ScanRun(p: seq<string>, t: seq<string>, flags: Flags)
    requires FlagGroups(p)
    ensures ScanFlags(p + t, flags) == ScanFlags(t, FlagsAfter(p, flags))
    decreases |p|
  {
    if p != [] {
      OptionGroupStart(p);
      GroupLength(p);
      var g := if IsParallelFlag(p[0]) then 1 else 2;
      assert (p + t)[0] == p[0];
      assert (p + t)[g..] == p[g..] + t;
      if g == 2 {
        assert (p + t)[1] == p[1];
        ScanRun(p[2..], t, flags.(file := Some(p[1])));
      } else {
        ScanRun(p[1..], t, flags.(parallel := true));
      }
    } else {
      assert p + t == t;
    }
  }

  /**
   * The converse of `ScanTail`: a run of flag groups followed by a tail
   * that does not open with an option scans to exactly that tail, with the
   * flags the run records; a help flag after such a run asks for help.
   */
  lemma ScanComplete(p: seq<string>, t: seq<string>, flags: Flags)
    requires FlagGroups(p)
    ensures t == [] || !IsOption(t[0]) ==> ScanFlags(p + t, flags) == Ok(Tokens(FlagsAfter(p, flags), t))
    ensures t != [] && IsHelpFlag(t[0]) ==> ScanFlags(p + t, flags) == Ok(Help)
  {
    ScanRun(p, t, flags);
    if t != [] && IsHelpFlag(t[0]) {
      assert StartsWith("-h", "-") && StartsWith("--help", "-");
      assert !IsFileFlag(t[0]) && !IsParallelFlag(t[0]);
    }
  }

  /** The scan fails exactly on a `-f` left with no path at the end of a run of flag groups. */
  lemma {:induction false} ScanFails(args: seq<string>, flags: Flags)
    ensures ScanFlags(args, flags).Err? <==>
      args != [] && FlagGroups(args[..|args| - 1]) && IsFileFlag(args[|args| - 1])
    decreases |args|
  {
    var dangling := args != [] && FlagGroups(args[..|args| - 1]) && IsFileFlag(args[|args| - 1]);
    if dangling {
      var p := args[..|args| - 1];
      assert args == p + [args[|args| - 1]];
      ScanRun(p, [args[|args| - 1]], flags);
      assert StartsWith("-f", "-") && StartsWith("--file", "-");
    }
    if ScanFlags(args, flags).Err? {
      var g, flags' := ScanOneGroup(args, flags);
      if GroupStep(args, flags, g, flags') {
        ScanFails(args[g..], flags');
        var rest := args[g..];
        PrependGroup(args, g, |args| - 1);
        assert rest[|rest| - 1] == args[|args| - 1];
      } else {
        assert args[..0] == [];
      }
    }
  }

  /** After `-f PATH` and then only `-p` flags, the recorded file is `PATH`: the last `-f` wins. */
  lemma LastFileRecorded(q: seq<string>, f: string, x: string, r: seq<string>, flags: Flags)
    requires FlagGroups(q) && IsFileFlag(f)
    requires forall i :: 0 <= i < |r| ==> IsParallelFlag(r[i])
    ensures FlagGroups(q + [f, x] + r)
    ensures FlagsAfter(q + [f, x] + r, flags).file == Some(x)
  {
    ParallelRun(r, flags);
    var s := [f, x] + r;
    assert s[2..] == r;
    assert q + [f, x] + r == q + s;
    FlagsAfterAppend(q, s, flags);
    AppendGroups(q, s);
    ParallelRun(r, FlagsAfter(q, flags).(file := Some(x)));
  }

  /** A run of `-p` flags is a run of flag groups that keeps the recorded file and, when not empty, sets parallel mode. */
  lemma {:induction false} ParallelRun(r: seq<string>, flags: Flags)
    requires forall i :: 0 <= i < |r| ==> IsParallelFlag(r[i])
    ensures FlagGroups(r)
    ensures FlagsAfter(r, flags).file == flags.file
    ensures r != [] || flags.parallel ==> FlagsAfter(r, flags).parallel
    decreases |r|
  {
    if r != [] {
      assert !IsFileFlag(r[0]);
      ParallelRun(r[1..], flags.(parallel := true));
    }
  }

  /** Two runs of flag groups one after the other are a run. */
  lemma {:induction false} AppendGroups(q: seq<string>, s: seq<string>)
    requires FlagGroups(q) && FlagGroups(s)
    ensures FlagGroups(q + s)
    decreases |q|
  {
    if q == [] {
      assert q + s == s;
    } else {
      GroupLength(q);
      var g := if IsParallelFlag(q[0]) then 1 else 2;
      AppendGroups(q[g..], s);
      assert (q + s)[g..] == q[g..] + s;
      assert (q + s)[0] == q[0];
      if g == 2 {
        assert (q + s)[1] == q[1];
      }
    }
  }

  /** The flags after two runs are those of the second, started from the first's. */
  lemma {:induction false} FlagsAfterAppend(q: seq<string>, s: seq<string>, flags: Flags)
    requires FlagGroups(q)
    ensures FlagsAfter(q + s, flags) == FlagsAfter(s, FlagsAfter(q, flags))
    decreases |q|
  {
    if q == [] {
      assert q + s == s;
    } else {
      GroupLength(q);
      var g := if IsParallelFlag(q[0]) then 1 else 2;
      assert (q + s)[g..] == q[g..] + s;
      assert (q + s)[0] == q[0];
      if g == 2 {
        assert (q + s)[1] == q[1];
        FlagsAfterAppend(q[2..], s, flags.(file := Some(q[1])));
      } else {
        FlagsAfterAppend(q[1..], s, flags.(parallel := true));
      }
    }
  }

  /**
   * Without `-p` the second scan in `Command::from` (which knows only `-f`)
   * sees the same command arguments as `main`.
   */
  lemma {:induction false} ScanAgreesWithRescan(args: seq<string>, flags: Flags)
    requires !flags.parallel
    ensures var r := ScanFlags(args, flags);
      r.Ok? && r.value.Tokens? && !r.value.flags.parallel ==> SkipFileFlags(args) == Ok(r.value.commandArgs)
    decreases |args|
  {
    if args != [] && StartsWith(args[0], "-") && IsFileFlag(args[0]) && |args| >= 2 {
      ScanAgreesWithRescan(args[2..], flags.(file := Some(args[1])));
    } else if args != [] && StartsWith(args[0], "-") && IsFileFlag(args[0]) {
    } else if args != [] && !(StartsWith(args[0], "-") && IsFileFlag(args[0])) {
      assert SkipFileFlags(args) == Ok(args);
    }
  }

  /**
   * So without `-p`, the override candidates the builder reads are exactly
   * the task's arguments: the command arguments after the task name.
   */
  lemma OverridesAreTaskArguments(argv: seq<string>)
    requires ParseArgv(argv).Ok? && ParseArgv(argv).value.Tokens?
    requires !ParseArgv(argv).value.flags.parallel && ParseArgv(argv).value.commandArgs != []
    ensures OverrideTokens(argv) == Ok(ParseArgv(argv).value.commandArgs[1..])
  {
    ScanAgreesWithRescan(DropProgramName(argv).value, Flags(None, false));
  }

  /**
   * With `-p` the two scans part: `cargo-cmd -p -f a=b.toml t` names task
   * `t` with no arguments for `main`, while the builder's scan stops at
   * `-p` and reads `-f`, `a=b.toml` and `t` as override candidates, so a
   * declared argument `a` is set to `b.toml`.
   */
  lemma ParallelFlagLeaksIntoOverrides(args: Args)
    requires "a" in Keys(args)
    ensures var argv := ["cargo-cmd", "-p", "-f", "a=b.toml", "t"];
      ParseArgv(argv) == Ok(Tokens(Flags(Some("a=b.toml"), true), ["t"])) &&
      OverrideTokens(argv) == Ok(["-f", "a=b.toml", "t"]) &&
      ArgLookup(ApplyOverrides(args, ["-f", "a=b.toml", "t"]), "a") == Some("b.toml")
  {
    var argv := ["cargo-cmd", "-p", "-f", "a=b.toml", "t"];
    assert DropProgramName(argv) == Ok(argv[1..]);
    LeakScan();
    LeakRescan();
    LeakValue(args);
  }

  lemma LeakScan()
    ensures ScanFlags(["-p", "-f", "a=b.toml", "t"], Flags(None, false)) == Ok(Tokens(Flags(Some("a=b.toml"), true), ["t"]))
  {
    var args := ["-p", "-f", "a=b.toml", "t"];
    assert StartsWith(args[0], "-") && IsParallelFlag(args[0]);
    assert args[1..] == ["-f", "a=b.toml", "t"];
    assert StartsWith(args[1], "-") && IsFileFlag(args[1]);
    assert args[1..][2..] == ["t"];
    assert !StartsWith("t", "-") by {
      assert "t"[..1] == "t";
    }
  }

  lemma LeakRescan()
    ensures SkipFileFlags(["-p", "-f", "a=b.toml", "t"]) == Ok(["-p", "-f", "a=b.toml", "t"])
  {
    assert !IsFileFlag("-p");
  }

  lemma LeakValue(args: Args)
    requires "a" in Keys(args)
    ensures ArgLookup(ApplyOverrides(args, ["-f", "a=b.toml", "t"]), "a") == Some("b.toml")
  {
    OverrideLastWins(args, ["-f", "a=b.toml", "t"], "a");
    LeakEntries();
  }

  lemma LeakEntries()
    ensures var es := OverrideEntries(["-f", "a=b.toml", "t"]);
      LastWith(es, "a") == 1 && KeyValue(["-f", "a=b.toml", "t"][1]) == Some(("a", "b.toml"))
  {
    var toks := ["-f", "a=b.toml", "t"];
    assert toks[1] == "a" + "=" + "b.toml";
    KeyValueExact("a", "b.toml");
    assert KeyValue("t").None? by {
      assert Count("t", '=') == 0 by {
        assert "t"[1..] == [];
      }
    }
    var es := OverrideEntries(toks);
    assert es[2].None? && es[1] == Some(("a", "b.toml"));
    assert es[..2] == es[..|es| - 1];
  }

  // ---------------------------------------------------------------------------
  // -p: every loaded command's tree made parallel (src/main.rs:96-103)

  /** Every command of the map with its whole tree marked parallel. */
  function ForceParallel(m: Entries): (r: Entries)
    ensures r.Keys == m.Keys
  {
    map n | n in m :: (m[n].0, ParallelTree(m[n].1))
  }

  /** Forcing parallel mode keeps every name and directory, marks every node parallel and changes nothing else. */
  lemma ForceParallelSpec(m: Entries, n: string)
    requires n in m
    ensures var r := ForceParallel(m);
      r[n].0 == m[n].0 && TreeParallel(r[n].1) && Shape(r[n].1) == Shape(m[n].1)
  {
    var c := m[n].1;
    assert ForceParallel(m)[n] == (m[n].0, ParallelTree(c));
    AllParallelMarksEveryNode([c]);
    assert [c][0] == c;
    ParallelKeepsShape(c);
  }

  /** The loop over the map, as the source writes it. */
  method ForceParallelLoop(m: Entries) returns (r: Entries)
    ensures r == ForceParallel(m)
  {
    r := m;
    var left := m.Keys;
    while left != {}
      invariant left <= m.Keys && r.Keys == m.Keys
      invariant forall n :: n in m && n !in left ==> r[n] == ForceParallel(m)[n]
      invariant forall n :: n in left ==> r[n] == m[n]
      decreases left
    {
      var n :| n in left;
      var (dir, command) := r[n];
      command := command.(parallel := true);
      if |command.children| > 0 {
        command := command.(children := AllParallel(command.children));
      }
      r := r[n := (dir, command)];
      left := left - {n};
    }
  }

  // ---------------------------------------------------------------------------
  // Dropping the `name=value` tokens the task resolved (src/main.rs:119-121)

  /** The token `name=value` for each argument, in the argument order. */
  function ArgTokens(args: Args): (ts: seq<string>)
    ensures |ts| == |args| && forall j :: 0 <= j < |args| ==> ts[j] == args[j].0 + "=" + args[j].1
  {
    seq(|args|, j requires 0 <= j < |args| => args[j].0 + "=" + args[j].1)
  }

  /** `retain(|x| *x != t)`: every token equal to `t` removed. */
  function RemoveToken(toks: seq<string>, t: string): (r: seq<string>)
    ensures |r| <= |toks|
  {
    if toks == [] then []
    else (if toks[0] == t then [] else [toks[0]]) + RemoveToken(toks[1..], t)
  }

  /** The tokens not in `ts`, in their order. */
  function Kept(toks: seq<string>, ts: seq<string>): seq<string>
  {
    if toks == [] then []
    else (if toks[0] in ts then [] else [toks[0]]) + Kept(toks[1..], ts)
  }

  /** Removing one more token is keeping the tokens outside the longer list. */
  lemma {:induction false} RemoveAfterKept(toks: seq<string>, ts: seq<string>, t: string)
    ensures RemoveToken(Kept(toks, ts), t) == Kept(toks, ts + [t])
  {
    if toks != [] {
      RemoveAfterKept(toks[1..], ts, t);
      var head := if toks[0] in ts then [] else [toks[0]];
      RemoveAppend(head, Kept(toks[1..], ts), t);
    }
  }

  lemma {:induction false} RemoveAppend(a: seq<string>, b: seq<string>, t: string)
    ensures RemoveToken(a + b, t) == RemoveToken(a, t) + RemoveToken(b, t)
  {
    if a == [] {
      assert a + b == b;
    } else {
      assert (a + b)[1..] == a[1..] + b;
      RemoveAppend(a[1..], b, t);
    }
  }

  /**
   * What is kept: exactly the tokens outside the list, in their order, so
   * keeping distributes over concatenation.
   */
  lemma {:induction false} KeptSpec(a: seq<string>, b: seq<string>, ts: seq<string>)
    ensures Kept(a + b, ts) == Kept(a, ts) + Kept(b, ts)
    ensures forall x :: x in Kept(a, ts) <==> x in a && x !in ts
  {
    if a == [] {
      assert a + b == b;
    } else {
      assert (a + b)[1..] == a[1..] + b;
      KeptSpec(a[1..], b, ts);
      assert a == [a[0]] + a[1..];
    }
  }

  lemma KeptNothing(toks: seq<string>)
    ensures Kept(toks, []) == toks
  {
    if toks != [] {
      KeptNothing(toks[1..]);
    }
  }

  /** The `for (k, v) in &command.args` loop, each turn a `retain`. */
  method PassArgs(toks: seq<string>, args: Args) returns (r: seq<string>)
    ensures r == Kept(toks, ArgTokens(args))
  {
    r := toks;
    KeptNothing(toks);
    var i := 0;
    while i < |args|
      invariant i <= |args| && r == Kept(toks, ArgTokens(args[..i]))
    {
      var (k, v) := args[i];
      RemoveAfterKept(toks, ArgTokens(args[..i]), k + "=" + v);
      assert ArgTokens(args[..i + 1]) == ArgTokens(args[..i]) + [k + "=" + v];
      r := RemoveToken(r, k + "=" + v);
      i := i + 1;
    }
    assert args[..i] == args;
  }

  // ---------------------------------------------------------------------------
  // main (src/main.rs:31-127)

  /** What the world outside the core answers: files found, `is_file`, path parsing, file contents. */
  datatype World = World(found: seq<Path>, isFile: string -> bool, pathOf: string -> Path, disk: Disk)

  /** What `main` does in the end. */
  datatype Action =
    | ShowHelp
    | NoCommand                                     // `gui()`
    | RunScript(kind: string, target: string, args: seq<string>)
    | NotFound(name: string)
    | Run(dir: Path, command: Command, args: seq<string>)

  /** The files read: those found, and the `-f` file when it is a file. */
  function FilesToRead(flags: Flags, w: World): seq<Path>
  {
    w.found + if flags.file.Some? && w.isFile(flags.file.value) then [w.pathOf(flags.file.value)] else []
  }

  /** What happens to the task name once the commands are loaded. */
  function Dispatch(name: string, rest: seq<string>, m: Entries, w: World): Action
  {
    if name in m then Run(m[name].0, m[name].1, Kept(rest, ArgTokens(m[name].1.args)))
    else if StartsWith(name, "https://") || StartsWith(name, "http://") then RunScript("http", name, rest)
    else if w.isFile(name) then RunScript("file", name, rest)
    else NotFound(name)
  }

  /** `main`: scan, load, force parallel mode if asked, then run the task, a script, or nothing. */
  function Main(proc: Process, w: World, tmp: nat): Result<Action>
  {
    match ParseArgv(proc.argv)
    case Err(f) => Err(f)
    case Ok(Help) => Ok(ShowHelp)
    case Ok(Tokens(flags, ca)) =>
      if ca == [] then Ok(NoCommand)
      else
        match CommandsMap.CommandsMap(FilesToRead(flags, w), w.disk, proc, tmp)
        case Aborted(f) => Err(f)
        case Done(m, _) =>
          Ok(Dispatch(ca[0], ca[1..], if flags.parallel then ForceParallel(m) else m, w))
  }

  /**
   * A task that runs gets the arguments after its name, less the tokens
   * `name=value` of its resolved arguments, in their order (`Kept` is an
   * order-keeping filter, by `KeptSpec`); with `-p` its whole tree is
   * parallel.
   */
  lemma RunGetsItsArguments(proc: Process, w: World, tmp: nat)
    requires Main(proc, w, tmp).Ok? && Main(proc, w, tmp).value.Run?
    ensures var scan := ParseArgv(proc.argv).value; var run := Main(proc, w, tmp).value;
      scan.Tokens? && scan.commandArgs != [] &&
      (forall x :: x in run.args <==> x in scan.commandArgs[1..] && x !in ArgTokens(run.command.args)) &&
      run.args == Kept(scan.commandArgs[1..], ArgTokens(run.command.args)) &&
      (scan.flags.parallel ==> TreeParallel(run.command))
  {
    var scan := ParseArgv(proc.argv).value;
    var ca := scan.commandArgs;
    var m := CommandsMap.CommandsMap(FilesToRead(scan.flags, w), w.disk, proc, tmp).value;
    var m' := if scan.flags.parallel then ForceParallel(m) else m;
    assert Main(proc, w, tmp) == Ok(Dispatch(ca[0], ca[1..], m', w));
    DispatchRun(ca[0], ca[1..], m', w);
    if scan.flags.parallel {
      ForceParallelSpec(m, ca[0]);
    }
  }

  /** A name found in the map runs its command with the task's arguments less its resolved `name=value` tokens. */
  lemma DispatchRun(name: string, rest: seq<string>, m: Entries, w: World)
    requires Dispatch(name, rest, m, w).Run?
    ensures var run := Dispatch(name, rest, m, w);
      name in m && run.command == m[name].1 && run.dir == m[name].0 &&
      run.args == Kept(rest, ArgTokens(run.command.args)) &&
      forall x :: x in run.args <==> x in rest && x !in ArgTokens(run.command.args)
  {
    KeptSpec(rest, [], ArgTokens(m[name].1.args));
    assert rest + [] == rest;
  }

  /** With no task name nothing is loaded: the outcome does not depend on the files at all. */
  lemma NoTaskNoLookup(proc: Process, w1: World, w2: World, tmp: nat)
    requires ParseArgv(proc.argv).Ok? && ParseArgv(proc.argv).value.Tokens?
    requires ParseArgv(proc.argv).value.commandArgs == []
    ensures Main(proc, w1, tmp) == Main(proc, w2, tmp) == Ok(NoCommand)
  {
  }

  /** `main`, step by step. */
  method MainRun(proc: Process, w: World, tmp: nat) returns (r: Result<Action>)
    ensures r == Main(proc, w, tmp)
  {
    var scan := MainScan(proc.argv);
    if scan.Err? {
      return Err(scan.fault);
    }
    if scan.value.Help? {
      return Ok(ShowHelp);
    }
    var flags := scan.value.flags;
    var commandArgs := scan.value.commandArgs;
    if |commandArgs| == 0 {
      return Ok(NoCommand);
    }
    var commandName := commandArgs[0];
    commandArgs := commandArgs[1..];
    var loaded := GetCommandsMap(FilesToRead(flags, w), w.disk, proc, tmp);
    if loaded.Aborted? {
      return Err(loaded.fault);
    }
    var commandsMap := loaded.value;
    if flags.parallel {
      commandsMap := ForceParallelLoop(commandsMap);
    }
    if commandName in commandsMap {
      var (dir, command) := commandsMap[commandName];
      var passed := PassArgs(commandArgs, command.args);
      return Ok(Run(dir, command, passed));
    }
    if StartsWith(commandName, "https://") || StartsWith(commandName, "http://") {
      return Ok(RunScript("http", commandName, commandArgs));
    } else if w.isFile(commandName) {
      return Ok(RunScript("file", commandName, commandArgs));
    }
    r := Ok(NotFound(commandName));
  }
}
