/**
 * Command-line normalisation for the `rika` executable: default options,
 * the option callbacks folded left to right (the last occurrence wins), the
 * RIKA_OPTIONS tokens placed before the command line, the format string made
 * exactly two characters, and targets expanded by glob with directories
 * removed. OptionParser's token syntax and Shellwords are library parsing:
 * arguments arrive here already split into option events and operands.
 */
module ArgsParsing {
  import opened Wrappers
  import opened Values

  /** The boolean options: -m, -t, -k, -s and -a. */
  datatype Flag = MetadataFlag | TextFlag | KeySortFlag | SourceFlag | AsArrayFlag

  /** One command-line element as OptionParser delivers it to the callbacks.
      A boolean option's value is nil when none was given (`-m`), true for
      `+`/`true`/`yes`, false for `-`/`false`/`no` and for the `--no-` form. */
  datatype Token =
    | FormatOption(format: string)
    | FlagOption(flag: Flag, value: Option<bool>)
    | Operand(arg: string)

  /** The options hash. */
  datatype Options = Options(asArray: bool, format: string, metadata: bool, text: bool, source: bool, keySort: bool)

  /** DEFAULT_OPTIONS: AwesomePrint for metadata, to_s for text, every section on, keys sorted. */
  const DefaultOptions := Options(asArray := false, format := "at", metadata := true, text := true,
                                  source := true, keySort := true)

  function FlagValue(o: Options, f: Flag): bool
  {
    match f
    case MetadataFlag => o.metadata
    case TextFlag => o.text
    case KeySortFlag => o.keySort
    case SourceFlag => o.source
    case AsArrayFlag => o.asArray
  }

  predicate SetsFlag(t: Token, f: Flag)
  {
    t.FlagOption? && t.flag == f
  }

  /** What one option callback does to the options hash. */
  function ApplyOption(o: Options, t: Token): (r: Options)
    ensures t.FormatOption? ==> r == o.(format := t.format)
    ensures t.FlagOption? ==> FlagValue(r, t.flag) == t.value.GetOr(true) && r.format == o.format
    ensures forall g :: !SetsFlag(t, g) ==> FlagValue(r, g) == FlagValue(o, g)
    ensures t.Operand? ==> r == o
  {
    match t
    case FormatOption(format) => o.(format := format)
    case Operand(_) => o
    case FlagOption(f, v) =>
      var b := v.GetOr(true);
      match f
      case MetadataFlag => o.(metadata := b)
      case TextFlag => o.(text := b)
      case KeySortFlag => o.(keySort := b)
      case SourceFlag => o.(source := b)
      case AsArrayFlag => o.(asArray := b)
  }

  /** The callbacks of all option tokens, fired left to right. */
  function FoldOptions(o: Options, ts: seq<Token>): Options
    decreases |ts|
  {
    if ts == [] then o else ApplyOption(FoldOptions(o, ts[..|ts| - 1]), ts[|ts| - 1])
  }

  /** What `parse!` leaves in the argument array: the operands, in order. */
  function OperandTokens(ts: seq<Token>): (r: seq<Token>)
    ensures forall t :: t in r ==> t.Operand?
    decreases |ts|
  {
    if ts == [] then []
    else OperandTokens(ts[..|ts| - 1]) + (if ts[|ts| - 1].Operand? then [ts[|ts| - 1]] else [])
  }

  /** The operand strings, in order. */
  function Operands(ts: seq<Token>): seq<string>
    decreases |ts|
  {
    if ts == [] then []
    else Operands(ts[..|ts| - 1]) + (if ts[|ts| - 1].Operand? then [ts[|ts| - 1].arg] else [])
  }

  /** The postprocessing of the format string: one character is doubled, and
      only the first two characters are kept. */
  function NormalizeFormat(f: string): (r: string)
    ensures |f| == 0 ==> r == ""
    ensures |f| == 1 ==> r == [f[0], f[0]]
    ensures |f| >= 2 ==> r == [f[0], f[1]]
  {
    var doubled := if |f| == 1 then f + f else f;
    if |doubled| <= 2 then doubled else doubled[..2]
  }

  /** The options `call` returns for the whole token list (environment tokens first). */
  function ResolveOptions(ts: seq<Token>): Options
  {
    var o := FoldOptions(DefaultOptions, ts);
    o.(format := NormalizeFormat(o.format))
  }

  /** `files.reject { |file| File.directory?(file) }` */
  function RejectDirectories(fs: FileSystem, files: seq<string>): (r: seq<string>)
    ensures |r| <= |files|
    decreases |files|
  {
    if files == [] then []
    else RejectDirectories(fs, files[..|files| - 1]) + (if fs.isDirectory(files[|files| - 1]) then [] else [files[|files| - 1]])
  }

  /** The kept files are exactly the given files that are not directories. */
  lemma {:induction false} RejectDirectoriesMembers(fs: FileSystem, files: seq<string>, t: string)
    ensures t in RejectDirectories(fs, files) <==> t in files && !fs.isDirectory(t)
    decreases |files|
  {
    if files != [] {
      var init := files[..|files| - 1];
      RejectDirectoriesMembers(fs, init, t);
      assert files == init + [files[|files| - 1]];
    }
  }

  /** `create_target_array`: each argument's glob matches, minus directories,
      concatenated in argument order. */
  function ExpandTargets(fs: FileSystem, args: seq<string>): seq<string>
    decreases |args|
  {
    if args == [] then []
    else ExpandTargets(fs, args[..|args| - 1]) + RejectDirectories(fs, fs.glob(args[|args| - 1]))
  }

  // ---------------------------------------------------------------------
  // The option parser.

  class ArgsParser {
    var args: seq<Token>
    var options: Options

    /** `ArgsParser.new`; `call` assigns both fields before using them. */
    constructor ()
      ensures args == [] && options == DefaultOptions
    {
      args := [];
      options := DefaultOptions;
    }

    /** `ArgsParser.call(args)`, shorthand for `ArgsParser.new.call(args)`. */
    static method CallOnNew(arguments: seq<Token>, environment: seq<Token>, fs: FileSystem)
      returns (resultOptions: Options, targets: seq<string>)
      ensures resultOptions == ResolveOptions(environment + arguments)
      ensures targets == ExpandTargets(fs, Operands(environment + arguments))
    {
      var parser := new ArgsParser();
      resultOptions, targets := parser.Call(arguments, environment, fs);
    }

    /** `call(args)`: returns the options and the targets. */
    method Call(arguments: seq<Token>, environment: seq<Token>, fs: FileSystem)
      returns (resultOptions: Options, targets: seq<string>)
      modifies this
      ensures resultOptions == options == ResolveOptions(environment + arguments)
      ensures targets == ExpandTargets(fs, Operands(environment + arguments))
      ensures args == OperandTokens(environment + arguments)
    {
      args := arguments;
      options := DefaultOptions;
      PrependEnvironmentArgs(environment);
      ParseOptions();
      PostprocessFormatOptions();
      targets := CreateTargetArray(fs);
      OperandsOfOperandTokens(environment + arguments);
      resultOptions := options;
    }

    /** `prepend_environment_args`: the RIKA_OPTIONS tokens go in front, where
        the command line can override them. */
    method PrependEnvironmentArgs(environment: seq<Token>)
      modifies this`args
      ensures args == environment + old(args)
    {
      args := environment + args;
    }

    /** `option_parser.parse!(args)` */
    method ParseOptions()
      modifies this
      ensures options == FoldOptions(old(options), old(args))
      ensures args == OperandTokens(old(args))
    {
      options, args := ParseOptionTokens(options, args);
    }

    /** `postprocess_format_options` */
    method PostprocessFormatOptions()
      modifies this`options
      ensures options == old(options).(format := NormalizeFormat(old(options).format))
    {
      if |options.format| == 1 {
        options := options.(format := options.format + options.format);
      }
      if |options.format| > 2 {
        options := options.(format := options.format[..2]);
      }
    }

    /** `create_target_array`, once `parse!` has left only operands. */
    method CreateTargetArray(fs: FileSystem) returns (targets: seq<string>)
      requires forall t :: t in args ==> t.Operand?
      ensures targets == ExpandTargets(fs, Operands(args))
    {
      targets := [];
      var i := 0;
      while i < |args|
        invariant 0 <= i <= |args|
        invariant targets == ExpandTargets(fs, Operands(args[..i]))
      {
        assert args[..i + 1][..i] == args[..i];
        assert args[i] in args;
        var files := RemoveDirectories(fs, fs.glob(args[i].arg));
        targets := targets + files;
        i := i + 1;
        assert Operands(args[..i]) == Operands(args[..i - 1]) + [args[i - 1].arg];
      }
      assert args[..i] == args;
    }
  }

  /** OptionParser's `parse!` with the option callbacks of the `rika`
      command: fires the callbacks in order and returns the operands. */
  method ParseOptionTokens(initial: Options, tokens: seq<Token>) returns (options: Options, remaining: seq<Token>)
    ensures options == FoldOptions(initial, tokens)
    ensures remaining == OperandTokens(tokens)
  {
    options := initial;
    remaining := [];
    var i := 0;
    while i < |tokens|
      invariant 0 <= i <= |tokens|
      invariant options == FoldOptions(initial, tokens[..i])
      invariant remaining == OperandTokens(tokens[..i])
    {
      assert tokens[..i + 1][..i] == tokens[..i];
      options := ApplyOption(options, tokens[i]);
      if tokens[i].Operand? {
        remaining := remaining + [tokens[i]];
      }
      i := i + 1;
    }
    assert tokens[..i] == tokens;
  }

  /** `files.reject { |file| File.directory?(file) }` */
  method RemoveDirectories(fs: FileSystem, files: seq<string>) returns (kept: seq<string>)
    ensures kept == RejectDirectories(fs, files)
  {
    kept := [];
    var i := 0;
    while i < |files|
      invariant 0 <= i <= |files|
      invariant kept == RejectDirectories(fs, files[..i])
    {
      assert files[..i + 1][..i] == files[..i];
      if !fs.isDirectory(files[i]) {
        kept := kept + [files[i]];
      }
      i := i + 1;
    }
    assert files[..i] == files;
  }

  // ---------------------------------------------------------------------
  // Properties.

  /** `parse!` keeps exactly the operands, so reading operands again changes nothing. */
  lemma {:induction false} OperandsOfOperandTokens(ts: seq<Token>)
    ensures Operands(OperandTokens(ts)) == Operands(ts)
    decreases |ts|
  {
    if ts != [] {
      var init := ts[..|ts| - 1];
      OperandsOfOperandTokens(init);
      OperandsConcat(OperandTokens(init), if ts[|ts| - 1].Operand? then [ts[|ts| - 1]] else []);
    }
  }

  lemma {:induction false} OperandsConcat(a: seq<Token>, b: seq<Token>)
    ensures Operands(a + b) == Operands(a) + Operands(b)
    decreases |b|
  {
    if b == [] {
      assert a + b == a;
    } else {
      assert (a + b)[..|a + b| - 1] == a + b[..|b| - 1];
      OperandsConcat(a, b[..|b| - 1]);
    }
  }

  /** With no arguments and an empty environment the options are DEFAULT_OPTIONS. */
  lemma NoArgumentsGiveDefaults()
    ensures ResolveOptions([]) == DefaultOptions
  {
  }

  /** Normalising a normalised format changes nothing, and a normalised
      format is empty or two characters long. */
  lemma NormalizeFormatIdempotent(f: string)
    ensures NormalizeFormat(NormalizeFormat(f)) == NormalizeFormat(f)
    ensures |NormalizeFormat(f)| == 0 || |NormalizeFormat(f)| == 2
  {
  }

  /** Folding over a concatenation is folding over each part in turn. */
  lemma {:induction false} FoldOptionsConcat(o: Options, a: seq<Token>, b: seq<Token>)
    ensures FoldOptions(o, a + b) == FoldOptions(FoldOptions(o, a), b)
    decreases |b|
  {
    if b == [] {
      assert a + b == a;
    } else {
      assert (a + b)[..|a + b| - 1] == a + b[..|b| - 1];
      FoldOptionsConcat(o, a, b[..|b| - 1]);
    }
  }

  /** A boolean option takes the value of its last occurrence: true when that
      occurrence carries no value, the value given otherwise. */
  lemma {:induction false} FlagLastOccurrenceWins(o: Options, ts: seq<Token>, f: Flag, i: nat)
    requires i < |ts| && SetsFlag(ts[i], f)
    requires forall j :: i < j < |ts| ==> !SetsFlag(ts[j], f)
    ensures FlagValue(FoldOptions(o, ts), f) == ts[i].value.GetOr(true)
    decreases |ts|
  {
    if i < |ts| - 1 {
      FlagLastOccurrenceWins(o, ts[..|ts| - 1], f, i);
    }
  }

  /** A boolean option that no token mentions keeps its earlier value. */
  lemma {:induction false} FlagUnmentionedKept(o: Options, ts: seq<Token>, f: Flag)
    requires forall j :: 0 <= j < |ts| ==> !SetsFlag(ts[j], f)
    ensures FlagValue(FoldOptions(o, ts), f) == FlagValue(o, f)
    decreases |ts|
  {
    if ts != [] {
      FlagUnmentionedKept(o, ts[..|ts| - 1], f);
    }
  }

  /** The format takes the value of its last occurrence. */
  lemma {:induction false} FormatLastOccurrenceWins(o: Options, ts: seq<Token>, i: nat)
    requires i < |ts| && ts[i].FormatOption?
    requires forall j :: i < j < |ts| ==> !ts[j].FormatOption?
    ensures FoldOptions(o, ts).format == ts[i].format
    decreases |ts|
  {
    if i < |ts| - 1 {
      FormatLastOccurrenceWins(o, ts[..|ts| - 1], i);
    }
  }

  /** A boolean option given on the command line beats the same option in the
      environment: the result is what the command line alone would give. */
  lemma CommandLineOverridesEnvironmentFlag(environment: seq<Token>, arguments: seq<Token>, f: Flag, i: nat)
    requires i < |arguments| && SetsFlag(arguments[i], f)
    ensures FlagValue(ResolveOptions(environment + arguments), f) == FlagValue(ResolveOptions(arguments), f)
  {
    var last :| i <= last < |arguments| && SetsFlag(arguments[last], f)
                && forall j :: last < j < |arguments| ==> !SetsFlag(arguments[j], f) by {
      LastSetting(arguments, f, i);
    }
    FlagLastOccurrenceWins(DefaultOptions, arguments, f, last);
    FlagLastOccurrenceWins(DefaultOptions, environment + arguments, f, |environment| + last);
  }

  /** A format given on the command line beats a format in the environment. */
  lemma CommandLineOverridesEnvironmentFormat(environment: seq<Token>, arguments: seq<Token>, i: nat)
    requires i < |arguments| && arguments[i].FormatOption?
    ensures ResolveOptions(environment + arguments).format == ResolveOptions(arguments).format
  {
    FoldOptionsConcat(DefaultOptions, environment, arguments);
    var last :| i <= last < |arguments| && arguments[last].FormatOption?
                && forall j :: last < j < |arguments| ==> !arguments[j].FormatOption? by {
      LastFormat(arguments, i);
    }
    FormatLastOccurrenceWins(FoldOptions(DefaultOptions, environment), arguments, last);
    FormatLastOccurrenceWins(DefaultOptions, arguments, last);
  }

  lemma {:induction false} LastSetting(ts: seq<Token>, f: Flag, i: nat)
    requires i < |ts| && SetsFlag(ts[i], f)
    ensures exists last :: i <= last < |ts| && SetsFlag(ts[last], f)
                           && forall j :: last < j < |ts| ==> !SetsFlag(ts[j], f)
    decreases |ts| - i
  {
    if exists k :: i < k < |ts| && SetsFlag(ts[k], f) {
      var k :| i < k < |ts| && SetsFlag(ts[k], f);
      LastSetting(ts, f, k);
    }
  }

  lemma {:induction false} LastFormat(ts: seq<Token>, i: nat)
    requires i < |ts| && ts[i].FormatOption?
    ensures exists last :: i <= last < |ts| && ts[last].FormatOption?
                           && forall j :: last < j < |ts| ==> !ts[j].FormatOption?
    decreases |ts| - i
  {
    if exists k :: i < k < |ts| && ts[k].FormatOption? {
      var k :| i < k < |ts| && ts[k].FormatOption?;
      LastFormat(ts, k);
    }
  }

  /** Targets are the per-argument expansions concatenated in argument order. */
  lemma {:induction false} ExpandTargetsConcat(fs: FileSystem, a: seq<string>, b: seq<string>)
    ensures ExpandTargets(fs, a + b) == ExpandTargets(fs, a) + ExpandTargets(fs, b)
    decreases |b|
  {
    if b == [] {
      assert a + b == a;
    } else {
      var ab := a + b;
      var init := b[..|b| - 1];
      var last := b[|b| - 1];
      assert ab[..|ab| - 1] == a + init;
      assert ab[|ab| - 1] == last;
      ExpandTargetsConcat(fs, a, init);
      var x := ExpandTargets(fs, a);
      var y := ExpandTargets(fs, init);
      var z := RejectDirectories(fs, fs.glob(last));
      calc {
        ExpandTargets(fs, ab);
        ExpandTargets(fs, a + init) + z;
        (x + y) + z;
        x + (y + z);
        x + ExpandTargets(fs, b);
      }
    }
  }

  /** An argument that matches nothing on the filesystem (a URL that is not a
      path, a missing file) adds no target and raises nothing. */
  lemma UnmatchedArgumentDropped(fs: FileSystem, before: seq<string>, arg: string, after: seq<string>)
    requires fs.glob(arg) == []
    ensures ExpandTargets(fs, before + [arg] + after) == ExpandTargets(fs, before) + ExpandTargets(fs, after)
  {
    var single := ExpandTargets(fs, [arg]);
    assert single == [] by {
      assert [arg][..0] == [];
      assert single == ExpandTargets(fs, []) + RejectDirectories(fs, fs.glob(arg));
    }
    ExpandTargetsConcat(fs, before, [arg]);
    var withArg := ExpandTargets(fs, before + [arg]);
    assert withArg == ExpandTargets(fs, before) + single;
    assert withArg == ExpandTargets(fs, before);
    ExpandTargetsConcat(fs, before + [arg], after);
  }

  /** A target is exactly a non-directory among the glob matches of some argument. */
  lemma {:induction false} TargetsComeFromGlobs(fs: FileSystem, args: seq<string>, t: string)
    ensures t in ExpandTargets(fs, args) <==>
            !fs.isDirectory(t) && exists i :: 0 <= i < |args| && t in fs.glob(args[i])
    decreases |args|
  {
    if args != [] {
      var init := args[..|args| - 1];
      var last := args[|args| - 1];
      TargetsComeFromGlobs(fs, init, t);
      RejectDirectoriesMembers(fs, fs.glob(last), t);
      if exists i :: 0 <= i < |args| && t in fs.glob(args[i]) {
        var i :| 0 <= i < |args| && t in fs.glob(args[i]);
        if i < |args| - 1 {
          assert init[i] == args[i];
        }
      }
      if exists i :: 0 <= i < |init| && t in fs.glob(init[i]) {
        var i :| 0 <= i < |init| && t in fs.glob(init[i]);
        assert args[i] == init[i];
      }
    }
  }
}
