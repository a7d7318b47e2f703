/**
 * The command-line surface: `argument_parser` and the argument-count check
 * that guards it. Every `exit()` after a message becomes an error value;
 * `os.path.isfile` and `os.path.isdir` are passed in as predicates.
 */
module CommandLine {
  import opened Outcome

  const LEFT_FLAG: string := "--left"
  const RIGHT_FLAG: string := "--right"
  const OUT_FLAG: string := "--out"

  /** The list the parser tests membership in (line 118). */
  const ACCEPTABLE_FLAGS: seq<string> := [LEFT_FLAG, OUT_FLAG, RIGHT_FLAG]

  datatype CliError =
    | WrongArgumentCount(count: nat)
    | UnacceptableFlag(flag: string)
    | DuplicateFlags
    | NotAFile(flag: string, path: string)
    | NotADirectory(path: string)
    | NotMp4(flag: string)

  datatype Paths = Paths(left: string, right: string, out: string)

  /** The membership test `flag not in acceptable_args` (lines 123-129), negated. */
  predicate IsAcceptableFlag(f: string)
    ensures IsAcceptableFlag(f) <==> f == LEFT_FLAG || f == RIGHT_FLAG || f == OUT_FLAG
  {
    f in ACCEPTABLE_FLAGS
  }

  /** The three flags are acceptable and pairwise distinct: a permutation of the accepted ones. */
  predicate FlagsValid(args: seq<string>)
    requires |args| >= 7
  {
    && IsAcceptableFlag(args[1]) && IsAcceptableFlag(args[3]) && IsAcceptableFlag(args[5])
    && args[1] != args[3] && args[1] != args[5] && args[3] != args[5]
  }

  /** The set test of line 133 is the pairwise-distinctness test. */
  lemma ThreeDistinct(a: string, b: string, c: string)
    ensures |{a, b, c}| == 3 <==> a != b && a != c && b != c
  {
    if a == b {
      assert {a, b, c} == {a, c};
    } else if a == c || b == c {
      assert {a, b, c} == {a, b};
    } else {
      assert |{a, b}| == 2;
      assert {a, b, c} == {a, b} + {c};
    }
  }

  /** Python's `s[-4:]`: the last four characters, or the whole string when it is shorter. */
  function LastFour(s: string): (r: string)
    ensures |r| == if |s| < 4 then |s| else 4
    ensures s == s[..|s| - |r|] + r
  {
    if |s| < 4 then s else s[|s| - 4..]
  }

  /**
   * The suffix test of lines 179 and 182. Short names never pass: it accepts
   * exactly the names of at least four characters ending in ".mp4" or ".MP4".
   */
  predicate IsMp4Name(s: string)
    ensures IsMp4Name(s) <==> 4 <= |s| && (s[|s| - 4..] == ".mp4" || s[|s| - 4..] == ".MP4")
  {
    LastFour(s) == ".mp4" || LastFour(s) == ".MP4"
  }

  /**
   * Lines 138-165: which value goes to which path, decided by the first and
   * second flags. In all six orderings of valid flags, each path is the value
   * paired with its own flag.
   */
  function AssignPaths(args: seq<string>): (r: Paths)
    requires |args| >= 7
    ensures FlagsValid(args) ==>
      && LEFT_FLAG in FlagValues(args) && RIGHT_FLAG in FlagValues(args) && OUT_FLAG in FlagValues(args)
      && r == Paths(FlagValues(args)[LEFT_FLAG], FlagValues(args)[RIGHT_FLAG], FlagValues(args)[OUT_FLAG])
  {
    if args[1] == LEFT_FLAG then
      if args[3] == RIGHT_FLAG then Paths(args[2], args[4], args[6])
      else Paths(args[2], args[6], args[4])
    else if args[1] == RIGHT_FLAG then
      if args[3] == LEFT_FLAG then Paths(args[4], args[2], args[6])
      else Paths(args[6], args[2], args[4])
    else if args[1] == OUT_FLAG then
      if args[3] == LEFT_FLAG then Paths(args[4], args[6], args[2])
      else Paths(args[6], args[4], args[2])
    else Paths("", "", "")
  }

  /** The value written after each flag, independent of the order of the pairs. */
  function FlagValues(args: seq<string>): map<string, string>
    requires |args| >= 7
  {
    map[args[1] := args[2], args[3] := args[4], args[5] := args[6]]
  }

  /** `argument_parser` (lines 115-186); its only caller has checked that there are seven entries. */
  function ParseArguments(args: seq<string>, isFile: string -> bool, isDir: string -> bool): (r: Result<Paths, CliError>)
    requires |args| >= 7
    ensures r.Ok? ==> FlagsValid(args) && r.value == AssignPaths(args)
    ensures r.Ok? ==> isFile(r.value.left) && isFile(r.value.right) && isDir(r.value.out)
    ensures r.Ok? ==> IsMp4Name(r.value.left) && IsMp4Name(r.value.right)
  {
    if !IsAcceptableFlag(args[1]) then Err(UnacceptableFlag(args[1]))
    else if !IsAcceptableFlag(args[3]) then Err(UnacceptableFlag(args[3]))
    else if !IsAcceptableFlag(args[5]) then Err(UnacceptableFlag(args[5]))
    else if |{args[1], args[3], args[5]}| != 3 then Err(DuplicateFlags)
    else
      ThreeDistinct(args[1], args[3], args[5]);
      var paths := AssignPaths(args);
      if !isFile(paths.left) then Err(NotAFile(LEFT_FLAG, paths.left))
      else if !isFile(paths.right) then Err(NotAFile(RIGHT_FLAG, paths.right))
      else if !isDir(paths.out) then Err(NotADirectory(paths.out))
      else if !IsMp4Name(paths.left) then Err(NotMp4(LEFT_FLAG))
      else if !IsMp4Name(paths.right) then Err(NotMp4(RIGHT_FLAG))
      else Ok(paths)
  }

  /** The module-level entry (lines 188-197): exactly seven argv entries, then the parser. */
  function ParseCommandLine(argv: seq<string>, isFile: string -> bool, isDir: string -> bool): (r: Result<Paths, CliError>)
    ensures |argv| != 7 ==> r == Err(WrongArgumentCount(|argv|))
    ensures |argv| == 7 ==> r == ParseArguments(argv, isFile, isDir)
  {
    if |argv| != 7 then Err(WrongArgumentCount(|argv|)) else ParseArguments(argv, isFile, isDir)
  }

  /**
   * The command line is accepted exactly when it has seven entries, the flags
   * are a permutation of the accepted three, the left and right values name
   * files ending in ".mp4" or ".MP4" and the out value names a directory; the
   * paths returned are the values paired with their flags.
   */
  lemma ParseCommandLineExactly(argv: seq<string>, isFile: string -> bool, isDir: string -> bool)
    ensures ParseCommandLine(argv, isFile, isDir).Ok? <==>
      && |argv| == 7 && FlagsValid(argv)
      && var v := FlagValues(argv);
         && LEFT_FLAG in v && RIGHT_FLAG in v && OUT_FLAG in v
         && isFile(v[LEFT_FLAG]) && isFile(v[RIGHT_FLAG]) && isDir(v[OUT_FLAG])
         && IsMp4Name(v[LEFT_FLAG]) && IsMp4Name(v[RIGHT_FLAG])
    ensures ParseCommandLine(argv, isFile, isDir).Ok? ==>
      var v := FlagValues(argv);
      ParseCommandLine(argv, isFile, isDir).value == Paths(v[LEFT_FLAG], v[RIGHT_FLAG], v[OUT_FLAG])
  {
    if |argv| == 7 && FlagsValid(argv) {
      ThreeDistinct(argv[1], argv[3], argv[5]);
    }
  }

  /** An unacceptable flag is reported, and reported before any duplicate or path error. */
  lemma UnacceptableFlagFirst(args: seq<string>, isFile: string -> bool, isDir: string -> bool)
    requires |args| >= 7
    requires !IsAcceptableFlag(args[1]) || !IsAcceptableFlag(args[3]) || !IsAcceptableFlag(args[5])
    ensures ParseArguments(args, isFile, isDir).Err?
    ensures ParseArguments(args, isFile, isDir).error.UnacceptableFlag?
    ensures !IsAcceptableFlag(ParseArguments(args, isFile, isDir).error.flag)
    ensures !IsAcceptableFlag(args[1]) ==>
      ParseArguments(args, isFile, isDir) == Err(UnacceptableFlag(args[1]))
    ensures IsAcceptableFlag(args[1]) && !IsAcceptableFlag(args[3]) ==>
      ParseArguments(args, isFile, isDir) == Err(UnacceptableFlag(args[3]))
    ensures IsAcceptableFlag(args[1]) && IsAcceptableFlag(args[3]) && !IsAcceptableFlag(args[5]) ==>
      ParseArguments(args, isFile, isDir) == Err(UnacceptableFlag(args[5]))
  {
  }

  /**
   * With valid flags, the path checks run in the order left is a file, right
   * is a file, out is a directory, left is an mp4, right is an mp4, and the
   * first one that fails decides the error.
   */
  lemma PathErrorOrder(args: seq<string>, isFile: string -> bool, isDir: string -> bool)
    requires |args| >= 7 && FlagsValid(args)
    ensures var p, r := AssignPaths(args), ParseArguments(args, isFile, isDir);
      && (!isFile(p.left) ==> r == Err(NotAFile(LEFT_FLAG, p.left)))
      && (isFile(p.left) && !isFile(p.right) ==> r == Err(NotAFile(RIGHT_FLAG, p.right)))
      && (isFile(p.left) && isFile(p.right) && !isDir(p.out) ==> r == Err(NotADirectory(p.out)))
      && (isFile(p.left) && isFile(p.right) && isDir(p.out) && !IsMp4Name(p.left) ==>
            r == Err(NotMp4(LEFT_FLAG)))
      && (isFile(p.left) && isFile(p.right) && isDir(p.out) && IsMp4Name(p.left) && !IsMp4Name(p.right) ==>
            r == Err(NotMp4(RIGHT_FLAG)))
      && (isFile(p.left) && isFile(p.right) && isDir(p.out) && IsMp4Name(p.left) && IsMp4Name(p.right) ==>
            r == Ok(p))
  {
    ThreeDistinct(args[1], args[3], args[5]);
  }

  /** Acceptable but repeated flags are reported as duplicates. */
  lemma RepeatedFlagsAreDuplicates(args: seq<string>, isFile: string -> bool, isDir: string -> bool)
    requires |args| >= 7
    requires IsAcceptableFlag(args[1]) && IsAcceptableFlag(args[3]) && IsAcceptableFlag(args[5])
    requires args[1] == args[3] || args[1] == args[5] || args[3] == args[5]
    ensures ParseArguments(args, isFile, isDir) == Err(DuplicateFlags)
  {
    ThreeDistinct(args[1], args[3], args[5]);
  }

  /**
   * Order independence: two argument lists with acceptable flags that pair
   * the same values with the same flags parse to the same outcome, whatever
   * order the pairs come in.
   */
  lemma ParseIgnoresPairOrder(a: seq<string>, b: seq<string>, isFile: string -> bool, isDir: string -> bool)
    requires |a| >= 7 && |b| >= 7
    requires FlagsValid(a) && FlagsValid(b)
    requires FlagValues(a) == FlagValues(b)
    ensures ParseArguments(a, isFile, isDir) == ParseArguments(b, isFile, isDir)
  {
    ThreeDistinct(a[1], a[3], a[5]);
    ThreeDistinct(b[1], b[3], b[5]);
  }
}
