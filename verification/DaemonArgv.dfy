/** Recognising daemon processes from `/proc/<pid>/cmdline` and choosing which to keep
    (`src/daemon_singleton.rs`). */
module DaemonArgv {
  import opened Prelude
  import opened Utf8

  /** `slice::split`: the pieces between separators; always at least one. */
  function Pieces<T(==)>(s: seq<T>, separator: T): (r: seq<seq<T>>)
    ensures |r| >= 1
  {
    if s == [] then [[]]
    else
      var rest := Pieces(s[1..], separator);
      if s[0] == separator then [[]] + rest else [[s[0]] + rest[0]] + rest[1..]
  }

  lemma {:induction false} FirstPiece<T>(block: seq<T>, separator: T, rest: seq<T>)
    requires separator !in block
    ensures Pieces(block + [separator] + rest, separator) == [block] + Pieces(rest, separator)
  {
    var s := block + [separator] + rest;
    if block == [] {
      assert s[1..] == rest;
    } else {
      FirstPiece(block[1..], separator, rest);
      assert s[1..] == block[1..] + [separator] + rest;
      assert [block[0]] + block[1..] == block;
    }
  }

  // --- /proc/<pid>/cmdline ---

  function Texts(pieces: seq<seq<byte>>): seq<string> {
    if pieces == [] then [] else
      var text := Decode(pieces[0]);
      (if pieces[0] != [] && text.Some? then [text.value] else []) + Texts(pieces[1..])
  }

  function ParseProcCmdline(raw: seq<byte>): seq<string> {
    Texts(Pieces(raw, 0))
  }

  /** How the kernel lays out argv: each argument followed by a NUL. */
  function Cmdline(argv: seq<string>): seq<byte> {
    if argv == [] then [] else Encode(argv[0]) + [0] + Cmdline(argv[1..])
  }

  predicate NulFree(s: string) {
    forall i :: 0 <= i < |s| ==> s[i] as int != 0
  }

  function NonEmpty(argv: seq<string>): seq<string> {
    if argv == [] then [] else (if argv[0] != "" then [argv[0]] else []) + NonEmpty(argv[1..])
  }

  /** Parsing undoes the kernel's layout except that empty arguments are dropped, so an argv without
      empty arguments comes back unchanged. */
  lemma {:induction false} CmdlineRoundTrip(argv: seq<string>)
    requires forall a :: a in argv ==> NulFree(a)
    ensures ParseProcCmdline(Cmdline(argv)) == NonEmpty(argv)
    ensures "" !in argv ==> ParseProcCmdline(Cmdline(argv)) == argv
  {
    if argv != [] {
      CmdlineRoundTrip(argv[1..]);
      assert NulFree(argv[0]);
      EncodeIsNulFree(argv[0]);
      FirstPiece(Encode(argv[0]), 0, Cmdline(argv[1..]));
      DecodeInvertsEncode(Encode(argv[0]), argv[0]);
      var pieces := Pieces(Cmdline(argv), 0);
      assert pieces[1..] == Pieces(Cmdline(argv[1..]), 0);
      assert argv == [argv[0]] + argv[1..];
    } else {
      assert Texts([[]]) == [];
    }
  }

  // --- Finding the subcommand ---

  predicate IsLong(arg: string) {
    |arg| >= 2 && arg[0] == '-' && arg[1] == '-'
  }

  predicate TakesValue(arg: string) {
    '=' !in arg && arg in ["--config", "--config-path"]
  }

  /** The words from the subcommand on: global flags and their values are skipped, `--` ends them. */
  function AfterFlags(words: seq<string>): (r: Option<seq<string>>)
    ensures r.Some? ==> 1 <= |r.value| <= |words|
  {
    if words == [] then None
    else if words[0] == "--" then if |words| > 1 then Some(words[1..]) else None
    else if IsLong(words[0]) then
      if TakesValue(words[0]) then if |words| > 1 then AfterFlags(words[2..]) else None
      else AfterFlags(words[1..])
    else Some(words)
  }

  method FirstCliSubcommand(argv: seq<string>) returns (r: Option<nat>)
    ensures argv == [] ==> r.None?
    ensures argv != [] ==>
              (if AfterFlags(argv[1..]).None? then r.None?
               else r.Some? && 1 <= r.value < |argv| && argv[r.value..] == AfterFlags(argv[1..]).value)
  {
    var skipNext := false;
    var index := 1;
    while index < |argv|
      invariant 1 <= index && (argv != [] ==> index <= |argv|)
      invariant argv != [] && !skipNext ==> AfterFlags(argv[1..]) == AfterFlags(argv[index..])
      invariant argv != [] && skipNext ==>
                  AfterFlags(argv[1..]) == if index < |argv| then AfterFlags(argv[index + 1..]) else None
    {
      var arg := argv[index];
      if skipNext {
        skipNext := false;
        index := index + 1;
        continue;
      }
      assert argv[index..][1..] == argv[index + 1..];
      if arg == "--" {
        return if index + 1 < |argv| then Some(index + 1) else None;
      }
      if IsLong(arg) {
        if TakesValue(arg) {
          skipNext := true;
          assert index + 1 < |argv| ==> argv[index..][2..] == argv[index + 2..];
        }
        index := index + 1;
        continue;
      }
      return Some(index);
    }
    return None;
  }

  // --- Is this a daemon? ---

  /** Whether a piece of a path is a component at all. */
  function IsComponent(): string -> bool {
    (c: string) => c != "" && c != "."
  }

  /** `Path::file_name` on Unix: the last component, unless there is none or it is `..`. */
  function FileName(path: string): Option<string> {
    var components := Filter(Pieces(path, '/'), IsComponent());
    if components == [] || components[|components| - 1] == ".." then None
    else Some(components[|components| - 1])
  }

  /** The subcommand forms that end up in the long-lived daemon. */
  predicate DaemonWords(words: seq<string>) {
    && |words| >= 1 && words[0] == "daemon"
    && (|words| == 1
        || words[1] == "--foreground"
        || (words[1] == "start" && (|words| == 2 || words[2] == "--foreground"))
        || (words[1] == "restart" && |words| == 2))
  }

  /** The words after the program name start the daemon. */
  predicate StartsDaemon(words: seq<string>) {
    AfterFlags(words).Some? && DaemonWords(AfterFlags(words).value)
  }

  predicate IsDaemonArgv(argv: seq<string>, binary: string) {
    argv != [] && FileName(argv[0]) == Some(binary) && StartsDaemon(argv[1..])
  }

  /** One complete global flag: a value flag with its value, or any other word that starts with two dashes. */
  predicate IsFlag(words: seq<string>) {
    || (|words| == 2 && (words[0] == "--config" || words[0] == "--config-path"))
    || (|words| == 1 && "--" <= words[0] && words[0] != "--" && words[0] != "--config" && words[0] != "--config-path")
  }

  predicate AllFlags(flags: seq<seq<string>>) {
    forall f :: f in flags ==> IsFlag(f)
  }

  function Flat(flags: seq<seq<string>>): seq<string> {
    if flags == [] then [] else flags[0] + Flat(flags[1..])
  }

  lemma FlagIsSkipped(flag: seq<string>, words: seq<string>)
    requires IsFlag(flag)
    ensures AfterFlags(flag + words) == AfterFlags(words)
  {
    assert (flag + words)[|flag|..] == words;
  }

  lemma {:induction false} FlagsAreSkipped(flags: seq<seq<string>>, words: seq<string>)
    requires AllFlags(flags)
    ensures AfterFlags(Flat(flags) + words) == AfterFlags(words)
  {
    if flags == [] {
      assert Flat(flags) + words == words;
    } else {
      FlagsAreSkipped(flags[1..], words);
      FlagIsSkipped(flags[0], Flat(flags[1..]) + words);
      assert Flat(flags) + words == flags[0] + (Flat(flags[1..]) + words);
    }
  }

  /** Global flags between the program and its subcommand never change the answer, whatever the values. */
  lemma GlobalFlagsAreTransparent(argv: seq<string>, flags: seq<seq<string>>, binary: string)
    requires AllFlags(flags) && argv != []
    ensures IsDaemonArgv([argv[0]] + (Flat(flags) + argv[1..]), binary) <==> IsDaemonArgv(argv, binary)
  {
    FlagsAreSkipped(flags, argv[1..]);
    var flagged := [argv[0]] + (Flat(flags) + argv[1..]);
    assert flagged[0] == argv[0] && flagged[1..] == Flat(flags) + argv[1..];
    assert StartsDaemon(flagged[1..]) <==> StartsDaemon(argv[1..]);
  }

  lemma FlatCons(flag: seq<string>, rest: seq<seq<string>>)
    ensures Flat([flag] + rest) == flag + Flat(rest)
  {
    assert ([flag] + rest)[1..] == rest;
  }

  /** What `AfterFlags` steps over is one complete flag. */
  lemma FirstFlag(words: seq<string>) returns (n: nat)
    requires AfterFlags(words).Some? && IsLong(words[0]) && words[0] != "--"
    ensures 1 <= n <= |words| && IsFlag(words[..n]) && AfterFlags(words[n..]) == AfterFlags(words)
  {
    n := if TakesValue(words[0]) then 2 else 1;
  }

  lemma FlagsJoin(words: seq<string>, n: nat, rest: seq<seq<string>>, tail: seq<string>)
    requires n <= |words| && words[n..] == Flat(rest) + tail
    ensures words == Flat([words[..n]] + rest) + tail
  {
    FlatCons(words[..n], rest);
    assert words == words[..n] + words[n..];
    assert words[..n] + (Flat(rest) + tail) == (words[..n] + Flat(rest)) + tail;
  }

  lemma {:induction false} FlagsBefore(words: seq<string>) returns (flags: seq<seq<string>>, tail: seq<string>)
    requires AfterFlags(words).Some?
    ensures AllFlags(flags) && words == Flat(flags) + tail
    ensures tail == AfterFlags(words).value || tail == ["--"] + AfterFlags(words).value
    decreases |words|
  {
    if words[0] == "--" || !IsLong(words[0]) {
      flags, tail := [], words;
    } else {
      var n := FirstFlag(words);
      var rest: seq<seq<string>>;
      rest, tail := FlagsBefore(words[n..]);
      flags := [words[..n]] + rest;
      FlagsJoin(words, n, rest, tail);
    }
  }

  predicate IsDaemonForm(form: seq<string>) {
    || form == ["daemon"] || ["daemon", "--foreground"] <= form
    || form == ["daemon", "start"] || ["daemon", "start", "--foreground"] <= form
    || form == ["daemon", "restart"]
  }

  /** `words` is any complete global flags, an optional `--`, then one of the daemon forms. */
  ghost predicate InGrammar(words: seq<string>) {
    exists flags: seq<seq<string>>, form: seq<string> ::
      && AllFlags(flags) && IsDaemonForm(form)
      && (words == Flat(flags) + form || words == Flat(flags) + (["--"] + form))
  }

  lemma FormIsItsOwnTail(form: seq<string>, dashes: string)
    requires IsDaemonForm(form) && dashes == "--"
    ensures AfterFlags(form) == Some(form) && AfterFlags([dashes] + form) == Some(form)
  {
    assert form[0][0] == 'd';
    assert ([dashes] + form)[1..] == form;
  }

  // --- The base name of a path ---

  predicate IsName(name: string) {
    name != "" && name != "." && name != ".." && '/' !in name
  }

  /** Nothing but slashes and lone dots: what may follow the last component. */
  predicate IsIdle(tail: string) {
    tail != "" ==>
      && tail[0] == '/'
      && forall i :: 0 <= i < |tail| && tail[i] != '/' ==>
           tail[i] == '.' && i > 0 && tail[i - 1] == '/' && (i + 1 < |tail| ==> tail[i + 1] == '/')
  }

  /** The path is a directory prefix, then the name, then nothing that counts. */
  ghost predicate EndsInName(path: string, name: string) {
    && IsName(name)
    && exists dir: string, tail: string ::
         path == dir + name + tail && (dir == "" || dir[|dir| - 1] == '/') && IsIdle(tail)
  }

  lemma {:induction false} FilterFront<T>(x: T, s: seq<T>, p: T -> bool)
    ensures Filter([x] + s, p) == (if p(x) then [x] else []) + Filter(s, p)
  {
    if |s| == 0 {
      assert [x] + s == s + [x];
      FilterAppend(s, x, p);
    } else {
      var front, last := s[..|s| - 1], s[|s| - 1];
      FilterFront(x, front, p);
      FilterAppend([x] + front, last, p);
      assert [x] + s == [x] + front + [last];
    }
  }

  function LastComponent(path: string): Option<string> {
    var components := Filter(Pieces(path, '/'), IsComponent());
    if components == [] then None else Some(components[|components| - 1])
  }

  lemma {:induction false} OnePiece(path: string)
    requires '/' !in path
    ensures Pieces(path, '/') == [path]
  {
    if |path| > 0 {
      OnePiece(path[1..]);
      assert [path[0]] + path[1..] == path;
    }
  }

  lemma LastOfOne(path: string)
    requires '/' !in path
    ensures LastComponent(path) == if path == "" || path == "." then None else Some(path)
  {
    OnePiece(path);
    assert [] + [path] == [path];
    FilterAppend([], path, IsComponent());
  }

  lemma LastOfSplit(block: string, rest: string)
    requires '/' !in block
    ensures LastComponent(block + "/" + rest) ==
            if LastComponent(rest).Some? then LastComponent(rest)
            else if block == "" || block == "." then None else Some(block)
  {
    FirstPiece(block, '/', rest);
    var pieces := Pieces(rest, '/');
    FilterFront(block, pieces, IsComponent());
    assert Pieces(block + "/" + rest, '/') == [block] + pieces;
  }

  lemma {:induction false} SplitPath(path: string) returns (block: string, rest: string)
    requires '/' in path
    ensures path == block + "/" + rest && '/' !in block
  {
    if path[0] == '/' {
      block, rest := "", path[1..];
    } else {
      block, rest := SplitPath(path[1..]);
      block := [path[0]] + block;
    }
  }

  /** A slash and one idle block before an idle tail. */
  lemma IdleBlock(block: string, rest: string)
    requires '/' !in block
    ensures IsIdle("/" + block + "/" + rest) <==> (block == "" || block == ".") && IsIdle("/" + rest)
  {
    var all, tail := "/" + block + "/" + rest, "/" + rest;
    var n := |block| + 1;
    assert all[n..] == tail && all[1..n] == block;
    assert (block != "" ==> all[1] == block[0]) && (|block| > 1 ==> all[2] == block[1]);
    if IsIdle(all) {
      forall i | 0 <= i < |tail| && tail[i] != '/'
        ensures tail[i] == '.' && i > 0 && tail[i - 1] == '/' && (i + 1 < |tail| ==> tail[i + 1] == '/')
      {
        assert all[n + i] == tail[i];
      }
    }
    if (block == "" || block == ".") && IsIdle(tail) {
      forall i | 0 <= i < |all| && all[i] != '/'
        ensures all[i] == '.' && i > 0 && all[i - 1] == '/' && (i + 1 < |all| ==> all[i + 1] == '/')
      {
        if i >= n {
          assert tail[i - n] == all[i];
        }
      }
    }
  }

  lemma IdleOne(block: string)
    requires '/' !in block
    ensures IsIdle("/" + block) <==> block == "" || block == "."
  {
    var all := "/" + block;
    assert all[1..] == block;
    assert (block != "" ==> all[1] == block[0]) && (|block| > 1 ==> all[2] == block[1]);
  }

  lemma {:induction false} IdleMeansNone(rest: string)
    ensures IsIdle("/" + rest) <==> LastComponent(rest).None?
    decreases |rest|
  {
    if '/' in rest {
      var block, later := SplitPath(rest);
      IdleMeansNone(later);
      IdleBlock(block, later);
      LastOfSplit(block, later);
      assert "/" + rest == "/" + block + "/" + later;
    } else {
      IdleOne(rest);
      LastOfOne(rest);
    }
  }

  lemma {:induction false} NameIsLast(dir: string, name: string, tail: string)
    requires IsName(name) && (dir == "" || dir[|dir| - 1] == '/') && IsIdle(tail)
    ensures LastComponent(dir + name + tail) == Some(name)
    decreases |dir|
  {
    if dir == "" {
      if tail == "" {
        assert dir + name + tail == name;
        LastOfOne(name);
      } else {
        assert tail == "/" + tail[1..];
        IdleMeansNone(tail[1..]);
        LastOfSplit(name, tail[1..]);
        assert dir + name + tail == name + "/" + tail[1..];
      }
    } else {
      assert dir[|dir| - 1] in dir;
      var block, later := SplitPath(dir);
      assert later != "" ==> later[|later| - 1] == dir[|dir| - 1];
      NameIsLast(later, name, tail);
      LastOfSplit(block, later + name + tail);
      assert dir + name + tail == block + "/" + (later + name + tail);
    }
  }

  lemma {:induction false} LastIsName(path: string) returns (dir: string, tail: string)
    requires LastComponent(path).Some?
    ensures path == dir + LastComponent(path).value + tail && (dir == "" || dir[|dir| - 1] == '/') && IsIdle(tail)
    ensures LastComponent(path).value != "" && LastComponent(path).value != "." && '/' !in LastComponent(path).value
    decreases |path|
  {
    if '/' !in path {
      LastOfOne(path);
      dir, tail := "", "";
    } else {
      var block, rest := SplitPath(path);
      LastOfSplit(block, rest);
      if LastComponent(rest).Some? {
        dir, tail := LastIsName(rest);
        dir := block + "/" + dir;
      } else {
        IdleMeansNone(rest);
        dir, tail := "", "/" + rest;
      }
    }
  }

  /** The base name, by the shape of the path: `name` is the base name exactly if the path is a prefix up to a slash,
      the name, and nothing after it but slashes and lone dots. */
  lemma FileNameExactly(path: string, name: string)
    ensures FileName(path) == Some(name) <==> EndsInName(path, name)
  {
    if LastComponent(path).Some? {
      var dir, tail := LastIsName(path);
    }
    if EndsInName(path, name) {
      var dir: string, tail: string :|
        path == dir + name + tail && (dir == "" || dir[|dir| - 1] == '/') && IsIdle(tail);
      NameIsLast(dir, name, tail);
    }
  }

  /** The accepted command lines, as a grammar: exactly those whose program has the binary's base name and
      whose remaining words are flags, an optional `--` and a daemon form. */
  lemma DaemonArgvGrammar(argv: seq<string>, binary: string)
    ensures IsDaemonArgv(argv, binary) <==> argv != [] && EndsInName(argv[0], binary) && InGrammar(argv[1..])
  {
    if argv != [] {
      FileNameExactly(argv[0], binary);
      StartsDaemonGrammar(argv[1..]);
    }
  }

  lemma StartsDaemonGrammar(words: seq<string>)
    ensures StartsDaemon(words) <==> InGrammar(words)
  {
    if StartsDaemon(words) {
      var flags, tail := FlagsBefore(words);
      var form := AfterFlags(words).value;
      assert AllFlags(flags) && IsDaemonForm(form);
    }
    if InGrammar(words) {
      var flags: seq<seq<string>>, form: seq<string> :|
        && AllFlags(flags) && IsDaemonForm(form)
        && (words == Flat(flags) + form || words == Flat(flags) + (["--"] + form));
      FormIsItsOwnTail(form, "--");
      FlagsAreSkipped(flags, form);
      FlagsAreSkipped(flags, ["--"] + form);
    }
  }

  /** `is_daemon_argv`, by index as the source does it. */
  method CheckDaemonArgv(argv: seq<string>, binary: string) returns (r: bool)
    ensures r <==> argv != [] && EndsInName(argv[0], binary) && InGrammar(argv[1..])
  {
    DaemonArgvGrammar(argv, binary);
    if argv == [] || FileName(argv[0]) != Some(binary) {
      return false;
    }
    var found := FirstCliSubcommand(argv);
    if found.None? {
      return false;
    }
    var i := found.value;
    ghost var words := argv[i..];
    assert words[0] == argv[i] && (i + 1 < |argv| ==> words[1] == argv[i + 1]);
    assert (i + 2 < |argv| ==> words[2] == argv[i + 2]);
    if argv[i] != "daemon" {
      return false;
    }
    if i + 1 == |argv| || argv[i + 1] == "--foreground" {
      return true;
    }
    if argv[i + 1] == "start" {
      return i + 2 == |argv| || argv[i + 2] == "--foreground";
    }
    return argv[i + 1] == "restart" && i + 2 == |argv|;
  }

  // --- Choosing the keeper ---

  datatype ReapPlan = ReapPlan(keeper: Option<int>, targets: seq<int>)

  predicate Increasing(s: seq<int>) {
    forall i, j :: 0 <= i < j < |s| ==> s[i] < s[j]
  }

  lemma TailIsLarger(s: seq<int>)
    requires Increasing(s) && s != []
    ensures Increasing(s[1..]) && forall y :: y in s[1..] ==> s[0] < y
    ensures forall y :: y in s <==> y == s[0] || y in s[1..]
  {
    assert s == [s[0]] + s[1..];
  }

  lemma PrependIncreasing(x: int, rest: seq<int>)
    requires Increasing(rest) && forall y :: y in rest ==> x < y
    ensures Increasing([x] + rest)
  {
    assert forall i :: 0 <= i < |rest| ==> rest[i] in rest;
  }

  function Insert(x: int, s: seq<int>): (r: seq<int>)
    requires Increasing(s)
    ensures Increasing(r) && forall y :: y in r <==> y == x || y in s
  {
    if s == [] || x < s[0] then [x] + s
    else if x == s[0] then s
    else
      var rest := Insert(x, s[1..]);
      TailIsLarger(s);
      PrependIncreasing(s[0], rest);
      [s[0]] + rest
  }

  /** `sort_unstable` then `dedup`. */
  function SortDedup(s: seq<int>): (r: seq<int>)
    ensures Increasing(r) && forall y :: y in r <==> y in s
  {
    if s == [] then [] else Insert(s[0], SortDedup(s[1..]))
  }

  function Without(s: seq<int>, x: Option<int>): (r: seq<int>)
    requires Increasing(s)
    ensures Increasing(r) && forall y :: y in r <==> y in s && Some(y) != x
  {
    if s == [] then [] else
      var rest := Without(s[1..], x);
      TailIsLarger(s);
      PrependIncreasing(s[0], rest);
      if Some(s[0]) == x then rest else [s[0]] + rest
  }

  /** The pidfile's process if it is alive, else the lowest pid; every other candidate once, in order. */
  function PlanDaemonReap(candidates: seq<int>, pidfile: Option<int>): (r: ReapPlan)
    ensures r.keeper.None? <==> candidates == []
    ensures r.keeper.Some? ==> r.keeper.value in candidates
    ensures pidfile.Some? && pidfile.value in candidates ==> r.keeper == pidfile
    ensures r.keeper.Some? && r.keeper != pidfile ==> forall y :: y in candidates ==> r.keeper.value <= y
    ensures Increasing(r.targets)
    ensures forall y :: y in r.targets <==> y in candidates && Some(y) != r.keeper
  {
    var live := SortDedup(candidates);
    assert candidates != [] ==> candidates[0] in live;
    var keeper := if pidfile.Some? && pidfile.value in live then pidfile
                  else if live != [] then Some(live[0]) else None;
    ReapPlan(keeper, Without(live, keeper))
  }

  lemma {:induction false} IncreasingIsUnique(a: seq<int>, b: seq<int>)
    requires Increasing(a) && Increasing(b) && forall y :: y in a <==> y in b
    ensures a == b
  {
    assert (a == [] || a[0] in a) && (b == [] || b[0] in b);
    if a == [] {
    } else {
      TailIsLarger(a);
      TailIsLarger(b);
      IncreasingIsUnique(a[1..], b[1..]);
    }
  }

  /** Reaping converges: whichever targets are already gone, planning again keeps the same process and
      targets exactly the survivors, so once they are gone nothing is left to do. */
  lemma ReplanningIsStable(candidates: seq<int>, survivors: seq<int>, pidfile: Option<int>)
    requires PlanDaemonReap(candidates, pidfile).keeper.Some?
    requires PlanDaemonReap(candidates, pidfile).keeper.value in survivors
    requires forall y :: y in survivors ==> y in candidates
    ensures var first, again := PlanDaemonReap(candidates, pidfile), PlanDaemonReap(survivors, pidfile);
            && again.keeper == first.keeper
            && (forall y :: y in again.targets <==> y in first.targets && y in survivors)
            && ((forall y :: y in candidates ==> y in survivors) ==> again == first)
  {
    var first, again := PlanDaemonReap(candidates, pidfile), PlanDaemonReap(survivors, pidfile);
    assert again.keeper == first.keeper;
    if forall y :: y in candidates ==> y in survivors {
      IncreasingIsUnique(first.targets, again.targets);
    }
  }
}
