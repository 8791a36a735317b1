/**
 * The part of `get_commands_map` (src/utils.rs:173-218) that works on the
 * files already found: they are sorted and deduplicated, the JSON files
 * are put before the TOML files, each file is read into named commands, and
 * the commands go into one map where a later file's command replaces an
 * earlier one of the same name, paired with the directory of its file.
 */
module CommandsMap {
  import opened Text
  import opened Values
  import opened Commands
  import opened CommandFrom
  import opened Utils

  /** A path as its components (`PathBuf`); the last one is the file name. */
  type Path = seq<string>

  // ---------------------------------------------------------------------------
  // The order of paths (`Ord for PathBuf`): component by component

  /** Text order: character by character, a proper prefix first. */
  predicate TextBefore(a: string, b: string)
    decreases |a|
  {
    if a == [] then b != []
    else b != [] && (a[0] < b[0] || (a[0] == b[0] && TextBefore(a[1..], b[1..])))
  }

  /** Path order: component by component, a proper prefix first. */
  predicate PathBefore(p: Path, q: Path)
    decreases |p|
  {
    if p == [] then q != []
    else q != [] && (TextBefore(p[0], q[0]) || (p[0] == q[0] && PathBefore(p[1..], q[1..])))
  }

  lemma {:induction false} TextIrreflexive(a: string)
    ensures !TextBefore(a, a)
  {
    if a != [] {
      TextIrreflexive(a[1..]);
    }
  }

  lemma {:induction false} TextTransitive(a: string, b: string, c: string)
    requires TextBefore(a, b) && TextBefore(b, c)
    ensures TextBefore(a, c)
    decreases |a|
  {
    if a != [] && a[0] == b[0] && b[0] == c[0] {
      TextTransitive(a[1..], b[1..], c[1..]);
    }
  }

  lemma {:induction false} TextTotal(a: string, b: string)
    requires a != b
    ensures TextBefore(a, b) || TextBefore(b, a)
    decreases |a|
  {
    if a != [] && b != [] && a[0] == b[0] {
      assert a == [a[0]] + a[1..] && b == [b[0]] + b[1..];
      TextTotal(a[1..], b[1..]);
    }
  }

  lemma {:induction false} TextAsymmetric(a: string, b: string)
    ensures !(TextBefore(a, b) && TextBefore(b, a))
    decreases |a|
  {
    if a != [] && b != [] && a[0] == b[0] {
      TextAsymmetric(a[1..], b[1..]);
    }
  }

  lemma {:induction false} PathIrreflexive(p: Path)
    ensures !PathBefore(p, p)
  {
    if p != [] {
      TextIrreflexive(p[0]);
      PathIrreflexive(p[1..]);
    }
  }

  lemma {:induction false} PathTransitive(p: Path, q: Path, r: Path)
    requires PathBefore(p, q) && PathBefore(q, r)
    ensures PathBefore(p, r)
    decreases |p|
  {
    if p != [] {
      if TextBefore(p[0], q[0]) && TextBefore(q[0], r[0]) {
        TextTransitive(p[0], q[0], r[0]);
      } else if p[0] == q[0] && q[0] == r[0] {
        PathTransitive(p[1..], q[1..], r[1..]);
      }
    }
  }

  lemma {:induction false} PathTotal(p: Path, q: Path)
    requires p != q
    ensures PathBefore(p, q) || PathBefore(q, p)
    decreases |p|
  {
    if p != [] && q != [] {
      if p[0] == q[0] {
        assert p == [p[0]] + p[1..] && q == [q[0]] + q[1..];
        PathTotal(p[1..], q[1..]);
      } else {
        TextTotal(p[0], q[0]);
      }
    }
  }

  lemma {:induction false} PathAsymmetric(p: Path, q: Path)
    ensures !(PathBefore(p, q) && PathBefore(q, p))
    decreases |p|
  {
    if p != [] && q != [] {
      TextAsymmetric(p[0], q[0]);
      TextIrreflexive(p[0]);
      if p[0] == q[0] {
        PathAsymmetric(p[1..], q[1..]);
      }
    }
  }

  // ---------------------------------------------------------------------------
  // sort_unstable and dedup (src/utils.rs:180-181)

  predicate StrictlySorted(s: seq<Path>)
  {
    forall i, j :: 0 <= i < j < |s| ==> PathBefore(s[i], s[j])
  }

  /** Puts a path into a strictly sorted list, unless it is there already. */
  function Insert(p: Path, s: seq<Path>): (r: seq<Path>)
  {
    if s == [] then [p]
    else if p == s[0] then s
    else if PathBefore(p, s[0]) then [p] + s
    else [s[0]] + Insert(p, s[1..])
  }

  /** The paths sorted, each once (`sort_unstable` then `dedup`). */
  function SortDedup(files: seq<Path>): seq<Path>
  {
    if files == [] then [] else Insert(files[0], SortDedup(files[1..]))
  }

  /** Inserting keeps the list strictly sorted and adds exactly the path. */
  lemma {:induction false} InsertSorted(p: Path, s: seq<Path>)
    requires StrictlySorted(s)
    ensures StrictlySorted(Insert(p, s))
    ensures forall x :: x in Insert(p, s) <==> x == p || x in s
  {
    if s != [] && p != s[0] {
      PathTotal(p, s[0]);
      if PathBefore(p, s[0]) {
        forall j | 0 < j < |s| ensures PathBefore(p, s[j]) {
          PathTransitive(p, s[0], s[j]);
        }
      } else {
        InsertSorted(p, s[1..]);
        var r := Insert(p, s[1..]);
        forall x | x in r ensures PathBefore(s[0], x) {
          if x != p {
            var j :| 0 <= j < |s[1..]| && s[1..][j] == x;
            assert x == s[j + 1];
          }
        }
      }
    }
  }

  /** After sorting and deduplication the files are strictly increasing, and they are the same files. */
  lemma {:induction false} SortDedupSpec(files: seq<Path>)
    ensures StrictlySorted(SortDedup(files))
    ensures forall x :: x in SortDedup(files) <==> x in files
  {
    if files != [] {
      SortDedupSpec(files[1..]);
      InsertSorted(files[0], SortDedup(files[1..]));
      assert files == [files[0]] + files[1..];
    }
  }

  /** Two lists with the same elements are empty together. */
  lemma SharedNonEmpty(a: seq<Path>, b: seq<Path>)
    ensures (forall x :: x in a <==> x in b) && a != [] ==> b != []
  {
    if (forall x :: x in a <==> x in b) && a != [] {
      assert a[0] in b;
    }
  }

  /** A strictly increasing list is fixed by its elements: sorting and deduplicating has one answer. */
  lemma {:induction false} SortedUnique(a: seq<Path>, b: seq<Path>)
    requires StrictlySorted(a) && StrictlySorted(b)
    requires forall x :: x in a <==> x in b
    ensures a == b
    decreases |a|
  {
    SharedNonEmpty(a, b);
    SharedNonEmpty(b, a);
    if a != [] && b != [] {
      assert a[0] in b && b[0] in a;
      if a[0] != b[0] {
        var i :| 0 <= i < |a| && a[i] == b[0];
        var j :| 0 <= j < |b| && b[j] == a[0];
        assert PathBefore(a[0], a[i]) && PathBefore(b[0], b[j]);
        PathAsymmetric(a[0], b[0]);
        assert false;
      }
      forall x ensures x in a[1..] <==> x in b[1..] {
        if x in a[1..] {
          var i :| 0 <= i < |a[1..]| && a[1..][i] == x;
          assert PathBefore(a[0], a[i + 1]);
          PathIrreflexive(x);
          assert x in a;
          var j :| 0 <= j < |b| && b[j] == x;
          assert b[1..][j - 1] == x;
        }
        if x in b[1..] {
          var i :| 0 <= i < |b[1..]| && b[1..][i] == x;
          assert PathBefore(b[0], b[i + 1]);
          PathIrreflexive(x);
          assert x in b;
          var j :| 0 <= j < |a| && a[j] == x;
          assert a[1..][j - 1] == x;
        }
      }
      SortedUnique(a[1..], b[1..]);
      assert a == [a[0]] + a[1..] && b == [b[0]] + b[1..];
    } else if a != [] || b != [] {
      assert false;
    }
  }

  // ---------------------------------------------------------------------------
  // JSON files before TOML files (src/utils.rs:182-193)

  /** Index of the last dot of a name, or -1. */
  function LastDot(name: string): (j: int)
    ensures -1 <= j < |name|
    ensures j >= 0 ==> name[j] == '.' && forall k :: j < k < |name| ==> name[k] != '.'
    ensures j < 0 ==> forall k :: 0 <= k < |name| ==> name[k] != '.'
  {
    if name == [] then -1
    else if name[|name| - 1] == '.' then |name| - 1
    else LastDot(name[..|name| - 1])
  }

  /**
   * `Path::extension`: what follows the last dot of the file name; none
   * when the name has no dot, only a leading one, or is `..`.
   */
  function Extension(p: Path): (e: Option<string>)
    ensures e.Some? ==> p != [] && '.' !in e.value
  {
    if p == [] then None
    else
      var name := p[|p| - 1];
      var j := LastDot(name);
      if name == ".." || j <= 0 then None
      else
        Some(name[j + 1..])
  }

  /** The file name of a path (the last component). */
  function FileName(p: Path): string
  {
    if p == [] then "" else p[|p| - 1]
  }

  /** The files with extension `ext`, in the order given. */
  function WithExtension(files: seq<Path>, ext: string): (r: seq<Path>)
  {
    if files == [] then []
    else
      var last := files[|files| - 1];
      WithExtension(files[..|files| - 1], ext) + (if Extension(last) == Some(ext) then [last] else [])
  }

  /** The files kept are exactly those with the extension, in their order: a sorted list stays sorted. */
  lemma {:induction false} WithExtensionSpec(files: seq<Path>, ext: string)
    ensures forall x :: x in WithExtension(files, ext) <==> x in files && Extension(x) == Some(ext)
    ensures StrictlySorted(files) ==> StrictlySorted(WithExtension(files, ext))
  {
    if files != [] {
      var init := files[..|files| - 1];
      var last := files[|files| - 1];
      WithExtensionSpec(init, ext);
      assert files == init + [last];
      if StrictlySorted(files) {
        assert StrictlySorted(init);
        var w := WithExtension(init, ext);
        forall i | 0 <= i < |w| ensures PathBefore(w[i], last) {
          assert w[i] in init;
        }
      }
    }
  }

  /** Index of the first file without an extension, or -1. */
  function FirstWithout(files: seq<Path>): (j: int)
    ensures -1 <= j < |files|
    ensures j >= 0 ==> Extension(files[j]).None? && forall k :: 0 <= k < j ==> Extension(files[k]).Some?
    ensures j < 0 ==> forall k :: 0 <= k < |files| ==> Extension(files[k]).Some?
  {
    if files == [] then -1
    else if Extension(files[0]).None? then 0
    else
      var j := FirstWithout(files[1..]);
      assert forall k :: 0 < k < |files| ==> files[k] == files[1..][k - 1];
      if j < 0 then -1 else j + 1
  }

  /**
   * The order the files are read in: first every `.json` file, then every
   * `.toml` file, each group in the given order; other files are skipped.
   * The first file with no extension at all panics (`extension().unwrap()`).
   */
  function ProcessingOrder(files: seq<Path>): Result<seq<Path>>
  {
    var j := FirstWithout(files);
    if j >= 0 then Err(NoExtension(FileName(files[j])))
    else Ok(WithExtension(files, "json") + WithExtension(files, "toml"))
  }

  /**
   * The order fails exactly when some file has no extension. Otherwise no
   * TOML file comes before a JSON file, a file is read exactly when its
   * extension is one of the two, and sorted files stay sorted within each
   * group.
   */
  lemma ProcessingOrderSpec(files: seq<Path>)
    ensures ProcessingOrder(files).Err? <==> exists k :: 0 <= k < |files| && Extension(files[k]).None?
    ensures ProcessingOrder(files).Ok? ==> var order := ProcessingOrder(files).value;
      (forall i, j :: 0 <= i < j < |order| ==>
        !(Extension(order[i]) == Some("toml") && Extension(order[j]) == Some("json"))) &&
      (forall x :: x in order <==> x in files && (Extension(x) == Some("json") || Extension(x) == Some("toml"))) &&
      (StrictlySorted(files) ==> StrictlySorted(WithExtension(files, "json")) && StrictlySorted(WithExtension(files, "toml")))
  {
    if FirstWithout(files) < 0 {
      var js := WithExtension(files, "json");
      var ts := WithExtension(files, "toml");
      WithExtensionSpec(files, "json");
      WithExtensionSpec(files, "toml");
      var order := js + ts;
      forall i, j | 0 <= i < j < |order|
        ensures !(Extension(order[i]) == Some("toml") && Extension(order[j]) == Some("json"))
      {
        if i < |js| {
          assert order[i] in js;
        } else {
          assert order[i] in ts && order[j] in ts;
        }
      }
    }
  }

  /** The two loops of the source that build `sorted_files`. */
  method OrderFiles(files: seq<Path>) returns (r: Result<seq<Path>>)
    ensures r == ProcessingOrder(files)
  {
    var sorted: seq<Path> := [];
    var i := 0;
    while i < |files|
      invariant i <= |files|
      invariant forall k :: 0 <= k < i ==> Extension(files[k]).Some?
      invariant sorted == WithExtension(files[..i], "json")
    {
      var e := Extension(files[i]);
      if e.None? {
        assert FirstWithout(files) == i;
        return Err(NoExtension(FileName(files[i])));
      }
      assert files[..i + 1][..i] == files[..i];
      if e.value == "json" {
        sorted := sorted + [files[i]];
      }
      i := i + 1;
    }
    assert files[..i] == files;
    var jsons := sorted;
    i := 0;
    while i < |files|
      invariant i <= |files|
      invariant sorted == jsons + WithExtension(files[..i], "toml")
    {
      assert files[..i + 1][..i] == files[..i];
      if Extension(files[i]).value == "toml" {
        sorted := sorted + [files[i]];
      }
      i := i + 1;
    }
    assert files[..i] == files;
    r := Ok(sorted);
  }

  // ---------------------------------------------------------------------------
  // Reading the files and merging their commands (src/utils.rs:195-217)

  /** The parsed contents of the files (reading and parsing are not modelled). */
  datatype Disk = Disk(toml: Path -> Toml, json: Path -> Json)

  /** The directory of a file (`path.pop()`). */
  function Parent(p: Path): Path
  {
    if p == [] then [] else p[..|p| - 1]
  }

  /** The named commands of one file: TOML files by `handle_toml`, JSON files by `handle_json`. */
  function FileCommands(p: Path, disk: Disk, proc: Process, tmp: nat): Outcome<Named>
  {
    if Extension(p) == Some("toml") then HandleToml(disk.toml(p), FileName(p) == "Cargo.toml", proc, tmp)
    else if Extension(p) == Some("json") then HandleJson(disk.json(p), proc, tmp)
    else Done([], tmp)
  }

  /** The commands of one file, with the directory they are paired with. */
  type Batch = (Path, Named)

  /** How one file is read, given the next free temporary-file number. */
  type Reader = (Path, nat) -> Outcome<Named>

  /** The reader of `get_commands_map`: `FileCommands` on the given contents and process. */
  function ReaderOf(disk: Disk, proc: Process): Reader
  {
    (p: Path, t: nat) => FileCommands(p, disk, proc, t)
  }

  /** The commands of the files in order; the first file that panics ends the reading. */
  function Produced(order: seq<Path>, read: Reader, tmp: nat): Outcome<seq<Batch>>
  {
    if order == [] then Done([], tmp)
    else
      var last := order[|order| - 1];
      match Produced(order[..|order| - 1], read, tmp)
      case Aborted(f) => Aborted(f)
      case Done(bs, t) =>
        match read(last, t)
        case Aborted(f) => Aborted(f)
        case Done(named, t2) => Done(bs + [(Parent(last), named)], t2)
  }

  /** The map from command names to their directory and command. */
  type Entries = map<string, (Path, Command)>

  /** One file's commands inserted in order, each replacing any earlier one of its name. */
  function Merge(m: Entries, dir: Path, named: Named): Entries
  {
    if named == [] then m
    else
      var last := named[|named| - 1];
      Merge(m, dir, named[..|named| - 1])[last.0 := (dir, last.1)]
  }

  /** Every file's commands merged, file after file. */
  function MergeAll(bs: seq<Batch>): Entries
  {
    if bs == [] then map[]
    else
      var last := bs[|bs| - 1];
      Merge(MergeAll(bs[..|bs| - 1]), last.0, last.1)
  }

  /** `get_commands_map` on the files found. */
  function CommandsMap(files: seq<Path>, disk: Disk, proc: Process, tmp: nat): Outcome<Entries>
  {
    match ProcessingOrder(SortDedup(files))
    case Err(f) => Aborted(f)
    case Ok(order) =>
      match Produced(order, ReaderOf(disk, proc), tmp)
      case Aborted(f) => Aborted(f)
      case Done(bs, t) => Done(MergeAll(bs), t)
  }

  /** Index of the last command named `n`, or -1. */
  function LastNamed(named: Named, n: string): (j: int)
    ensures -1 <= j < |named|
    ensures j >= 0 ==> named[j].0 == n && forall k :: j < k < |named| ==> named[k].0 != n
    ensures j < 0 ==> forall k :: 0 <= k < |named| ==> named[k].0 != n
  {
    if named == [] then -1
    else if named[|named| - 1].0 == n then |named| - 1
    else LastNamed(named[..|named| - 1], n)
  }

  /** Within one file, the last command of a name wins; names the file lacks keep their entry. */
  lemma {:induction false} MergeLastWins(m: Entries, dir: Path, named: Named, n: string)
    ensures var j := LastNamed(named, n);
      (n in Merge(m, dir, named) <==> n in m || j >= 0) &&
      (n in Merge(m, dir, named) ==> Merge(m, dir, named)[n] == if j >= 0 then (dir, named[j].1) else m[n])
  {
    if named != [] {
      MergeLastWins(m, dir, named[..|named| - 1], n);
    }
  }

  /** Index of the last file whose commands name `n`, or -1. */
  function LastBatch(bs: seq<Batch>, n: string): (k: int)
    ensures -1 <= k < |bs|
    ensures k >= 0 ==> LastNamed(bs[k].1, n) >= 0 && forall i :: k < i < |bs| ==> LastNamed(bs[i].1, n) < 0
    ensures k < 0 ==> forall i :: 0 <= i < |bs| ==> LastNamed(bs[i].1, n) < 0
  {
    if bs == [] then -1
    else if LastNamed(bs[|bs| - 1].1, n) >= 0 then |bs| - 1
    else LastBatch(bs[..|bs| - 1], n)
  }

  /**
   * Across files, a name maps to the command of the last file that defines
   * it (its last command of that name), paired with that file's directory;
   * a name no file defines is absent.
   */
  lemma {:induction false} MergeAllLastWins(bs: seq<Batch>, n: string)
    ensures var k := LastBatch(bs, n);
      (n in MergeAll(bs) <==> k >= 0) &&
      (k >= 0 ==> MergeAll(bs)[n] == (bs[k].0, bs[k].1[LastNamed(bs[k].1, n)].1))
  {
    if bs != [] {
      var init := bs[..|bs| - 1];
      var last := bs[|bs| - 1];
      MergeAllLastWins(init, n);
      MergeLastWins(MergeAll(init), last.0, last.1, n);
    }
  }

  /**
   * `get_commands_map` as a whole: with the files in processing order, a
   * name is present exactly when some file defines it, and it maps to the
   * last such file's (last) command of that name, paired with that file's
   * directory.
   */
  lemma CommandsMapLastFileWins(files: seq<Path>, disk: Disk, proc: Process, tmp: nat, n: string)
    requires CommandsMap(files, disk, proc, tmp).Done?
    ensures ProcessingOrder(SortDedup(files)).Ok?
    ensures var order := ProcessingOrder(SortDedup(files)).value;
      var bs := Produced(order, ReaderOf(disk, proc), tmp).value;
      var m := CommandsMap(files, disk, proc, tmp).value;
      var k := LastBatch(bs, n);
      |bs| == |order| && (n in m <==> k >= 0) &&
      (k >= 0 ==> m[n] == (Parent(order[k]), bs[k].1[LastNamed(bs[k].1, n)].1))
  {
    var order := ProcessingOrder(SortDedup(files)).value;
    ProducedDirs(order, ReaderOf(disk, proc), tmp);
    MergeAllLastWins(Produced(order, ReaderOf(disk, proc), tmp).value, n);
  }

  /** Each file's commands are paired with the file's own directory, one batch per file, in order. */
  lemma {:induction false} ProducedDirs(order: seq<Path>, read: Reader, tmp: nat)
    requires Produced(order, read, tmp).Done?
    ensures var bs := Produced(order, read, tmp).value;
      |bs| == |order| && forall k :: 0 <= k < |order| ==> bs[k].0 == Parent(order[k])
  {
    if order != [] {
      var init := order[..|order| - 1];
      ProducedStep(order, read, tmp);
      ProducedDirs(init, read, tmp);
      var bs := Produced(order, read, tmp).value;
      var before := Produced(init, read, tmp).value;
      forall k | 0 <= k < |order| ensures bs[k].0 == Parent(order[k]) {
        if k < |init| {
          assert bs[k] == before[k] && order[k] == init[k];
        }
      }
    }
  }

  /** A reading that does not panic extends the reading of all files but the last by one batch. */
  lemma ProducedStep(order: seq<Path>, read: Reader, tmp: nat)
    requires order != []
    requires Produced(order, read, tmp).Done?
    ensures var init := Produced(order[..|order| - 1], read, tmp);
      var bs := Produced(order, read, tmp).value;
      init.Done? && |bs| == |init.value| + 1 && bs[..|init.value|] == init.value &&
      bs[|init.value|].0 == Parent(order[|order| - 1])
  {
  }

  /** Once a file panics, reading more files does not undo it. */
  lemma {:induction false} ProducedAbortStays(order: seq<Path>, i: nat, read: Reader, tmp: nat)
    requires i <= |order|
    requires Produced(order[..i], read, tmp).Aborted?
    ensures Produced(order, read, tmp) == Produced(order[..i], read, tmp)
    decreases |order| - i
  {
    if i < |order| {
      assert order[..i + 1][..i] == order[..i];
      ProducedAbortStays(order, i + 1, read, tmp);
    } else {
      assert order[..i] == order;
    }
  }

  /** The insert of the source: `remove` the name when present, then `insert` it. */
  method InsertAll(m: Entries, dir: Path, named: Named) returns (r: Entries)
    ensures r == Merge(m, dir, named)
  {
    r := m;
    var i := 0;
    while i < |named|
      invariant i <= |named| && r == Merge(m, dir, named[..i])
    {
      var (name, command) := named[i];
      if name in r {
        r := r - {name};
        r := r[name := (dir, command)];
      } else {
        r := r[name := (dir, command)];
      }
      assert named[..i + 1][..i] == named[..i];
      i := i + 1;
    }
    assert named[..i] == named;
  }

  /** `get_commands_map` from the sort on, step by step. */
  method GetCommandsMap(files: seq<Path>, disk: Disk, proc: Process, tmp: nat) returns (r: Outcome<Entries>)
    ensures r == CommandsMap(files, disk, proc, tmp)
  {
    var sorted := OrderFiles(SortDedup(files));
    if sorted.Err? {
      return Aborted(sorted.fault);
    }
    var order := sorted.value;
    ghost var read := ReaderOf(disk, proc);
    var m: Entries := map[];
    var t := tmp;
    ghost var bs: seq<Batch> := [];
    var i := 0;
    while i < |order|
      invariant i <= |order|
      invariant Produced(order[..i], read, tmp) == Done(bs, t) && m == MergeAll(bs)
    {
      var file := order[i];
      var path := Parent(file);
      var named := ReadFile(file, disk, proc, t);
      ProducedNext(order, i, read, tmp, bs, t);
      if named.Aborted? {
        ProducedAbortStays(order, i + 1, read, tmp);
        return Aborted(named.fault);
      }
      m := InsertAll(m, path, named.value);
      MergeNext(bs, path, named.value);
      bs := bs + [(path, named.value)];
      t := named.tmp;
      i := i + 1;
    }
    assert order[..i] == order;
    r := Done(m, t);
  }

  /** The body of the source's last loop for one file: `handle_toml` or `handle_json` by extension. */
  method ReadFile(file: Path, disk: Disk, proc: Process, t: nat) returns (named: Outcome<Named>)
    ensures named == ReaderOf(disk, proc)(file, t)
  {
    if Extension(file) == Some("toml") {
      named := HandleTomlFile(disk.toml(file), FileName(file) == "Cargo.toml", proc, t);
    } else if Extension(file) == Some("json") {
      named := HandleJsonFile(disk.json(file), proc, t);
    } else {
      named := Done([], t);
    }
  }

  /** Reading one more file adds its batch, or ends in its panic; the map takes the batch's commands. */
  lemma ProducedNext(order: seq<Path>, i: nat, read: Reader, tmp: nat, bs: seq<Batch>, t: nat)
    requires i < |order|
    requires Produced(order[..i], read, tmp) == Done(bs, t)
    ensures var o := read(order[i], t);
      Produced(order[..i + 1], read, tmp) ==
        match o
        case Aborted(f) => Aborted(f)
        case Done(got, t2) => Done(bs + [(Parent(order[i]), got)], t2)
  {
    assert order[..i + 1][..i] == order[..i];
  }

  /** Merging one more batch merges its commands into the map so far. */
  lemma MergeNext(bs: seq<Batch>, dir: Path, named: Named)
    ensures MergeAll(bs + [(dir, named)]) == Merge(MergeAll(bs), dir, named)
  {
    assert (bs + [(dir, named)])[..|bs|] == bs;
  }
}
