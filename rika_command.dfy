/**
 * The `rika` command: options and targets from the command line (RIKA_OPTIONS
 * first), a warning when there are no targets, the two output formatters
 * chosen from the format string, then one parse per target, printed either
 * document by document or as one array of hashes. Standard output and
 * standard error are the strings written to them; the filesystem, Tika and
 * the renderers are the host functions in `Host`.
 */
module Command {
  import opened Wrappers
  import opened Values
  import opened Assoc
  import opened Formatters
  import opened ParseResults
  import opened Parsing
  import opened ArgsParsing

  /** The outside world one run sees. */
  datatype Host = Host(fs: FileSystem, engine: Engine, render: RenderFn)

  /** `max_content_length`: all of the text when text is wanted, none otherwise. */
  function MaxContentLength(o: Options): (n: int)
    ensures n == -1 <==> o.text
    ensures n == 0 <==> !o.text
  {
    if o.text then DefaultMaxContentLength else 0
  }

  /** `Rika.parse(target, max_content_length:, key_sort:)` as the command calls it. */
  function ParseTarget(o: Options, target: string, host: Host): Result<ParseResult, Error>
  {
    ParseDocumentSpec(target, o.keySort, MaxContentLength(o), host.fs, host.engine)
  }

  /** `format[i]`: one character, or nil (the empty string) past the end. */
  function CharAt(s: string, i: nat): (c: string)
    ensures i < |s| ==> c == [s[i]]
    ensures i >= |s| ==> c == ""
  {
    if i < |s| then [s[i]] else ""
  }

  /** The metadata and text renderers the format string selects, and the
      libraries loaded afterwards; the first invalid character's error otherwise. */
  function OutputFormats(format: string, loaded: set<string>): Result<(Renderer, Renderer, set<string>), Error>
  {
    match Get(CharAt(format, 0), loaded)
    case Failure(e) => Failure(e)
    case Success((metadataRenderer, loaded1)) =>
      match Get(CharAt(format, 1), loaded1)
      case Failure(e) => Failure(e)
      case Success((textRenderer, loaded2)) => Success((metadataRenderer, textRenderer, loaded2))
  }

  /** One structured document is printed instead of separate sections when
      both metadata and text are wanted in the same JSON or YAML format. */
  predicate CombinedOutput(o: Options)
  {
    o.metadata && o.text && o.format in ["jj", "JJ", "yy"]
  }

  /** `result_hash`: the selected pieces of a result, under the keys
      "source", "metadata" and "text", in that order. */
  function ResultHashOf(o: Options, result: ParseResult): (h: seq<(Value, Value)>)
    ensures UniqueKeys(h)
    ensures Lookup(h, Str("source")) == if o.source then Some(OptStr(Lookup(result.metadata, DataSourceKey))) else None
    ensures Lookup(h, Str("metadata")) == if o.metadata then Some(MetadataValue(result.metadata)) else None
    ensures Lookup(h, Str("text")) == if o.text then Some(Str(result.content)) else None
    ensures forall k :: k != Str("source") && k != Str("metadata") && k != Str("text") ==> Lookup(h, k).None?
  {
    var h0: seq<(Value, Value)> := [];
    var h1 := if o.source then Put(h0, Str("source"), OptStr(Lookup(result.metadata, DataSourceKey))) else h0;
    var h2 := if o.metadata then Put(h1, Str("metadata"), MetadataValue(result.metadata)) else h1;
    if o.text then Put(h2, Str("text"), Str(result.content)) else h2
  }

  /** `single_document_output` */
  function SingleDocument(o: Options, metadataRenderer: Renderer, textRenderer: Renderer, target: string,
                          result: ParseResult, render: RenderFn): string
  {
    if CombinedOutput(o) then
      render(metadataRenderer, Hash(ResultHashOf(o, result)))
    else
      (if o.source then "Source: " + target + "\n" else "")
      + (if o.metadata then render(metadataRenderer, MetadataValue(result.metadata)) + "\n" else "")
      + (if o.text then render(textRenderer, Str(result.content)) + "\n" else "")
  }

  /** How each target is parsed: its result, or the error it raises. */
  type TargetParse = string -> Result<ParseResult, Error>

  /** The parse `run` applies to every target. */
  function TargetParser(o: Options, host: Host): (parse: TargetParse)
    ensures forall target :: parse(target) == ParseTarget(o, target, host)
  {
    target => ParseTarget(o, target, host)
  }

  /** The result hashes of `result_array_output`, one per target in order;
      the first failing parse's error otherwise. */
  function ArrayHashes(o: Options, targets: seq<string>, parse: TargetParse): Result<seq<Value>, Error>
    decreases |targets|
  {
    if targets == [] then Success([])
    else
      match ArrayHashes(o, targets[..|targets| - 1], parse)
      case Failure(e) => Failure(e)
      case Success(hashes) =>
        match parse(targets[|targets| - 1])
        case Failure(e) => Failure(e)
        case Success(result) => Success(hashes + [Hash(ResultHashOf(o, result))])
  }

  /** `result_array_output`: the array rendered with the metadata renderer. */
  function ArrayOutput(o: Options, metadataRenderer: Renderer, targets: seq<string>, parse: TargetParse,
                       render: RenderFn): Result<string, Error>
  {
    match ArrayHashes(o, targets, parse)
    case Failure(e) => Failure(e)
    case Success(hashes) => Success(render(metadataRenderer, Array(hashes)))
  }

  /** What the one-document-at-a-time loop of `run` writes, and the error that
      stops it: each document is printed as soon as it is parsed. */
  function Streamed(o: Options, metadataRenderer: Renderer, textRenderer: Renderer, targets: seq<string>,
                    parse: TargetParse, render: RenderFn): (string, Option<Error>)
    decreases |targets|
  {
    if targets == [] then ("", None)
    else
      var previous := Streamed(o, metadataRenderer, textRenderer, targets[..|targets| - 1], parse, render);
      var target := targets[|targets| - 1];
      if previous.1.Some? then previous
      else
        match parse(target)
        case Failure(e) => (previous.0, Some(e))
        case Success(result) =>
          (previous.0 + Puts(SingleDocument(o, metadataRenderer, textRenderer, target, result, render)), None)
  }

  /** What `run` writes to standard output once the formats are set, and the
      error it raises, if any. */
  function RunOutput(o: Options, metadataRenderer: Renderer, textRenderer: Renderer, targets: seq<string>,
                     host: Host): (string, Option<Error>)
  {
    if o.asArray then
      match ArrayOutput(o, metadataRenderer, targets, TargetParser(o, host), host.render)
      case Failure(e) => ("", Some(e))
      case Success(s) => (Puts(s), None)
    else Streamed(o, metadataRenderer, textRenderer, targets, TargetParser(o, host), host.render)
  }

  /** The text `warn_if_no_targets_specified` writes. */
  function NoTargetsMessage(helpText: string): (m: string)
    ensures |m| > 0 && m[|m| - 1] == '\n'
  {
    "\nNo targets specified.\n\n" + helpText + "\n"
  }

  class RikaCommand {
    var args: seq<Token>
    var options: Options
    var targets: seq<string>
    var helpText: string
    var metadataFormatter: Option<Renderer>
    var textFormatter: Option<Renderer>
    /** The libraries `require`d so far in this process. */
    var loaded: set<string>
    var stdout: string
    var stderr: string

    /** `RikaCommand.new(args)`: keeps its own copy of the arguments. */
    constructor (args: seq<Token>, loaded: set<string>)
      ensures this.args == args && this.loaded == loaded
      ensures options == DefaultOptions && targets == [] && helpText == ""
      ensures metadataFormatter.None? && textFormatter.None?
      ensures stdout == "" && stderr == ""
    {
      this.args := args;
      this.loaded := loaded;
      options := DefaultOptions;
      targets := [];
      helpText := "";
      metadataFormatter := None;
      textFormatter := None;
      stdout := "";
      stderr := "";
    }

    /** `run`: the error is the exception that ends the run, if any. */
    method Run(environment: seq<Token>, help: string, host: Host) returns (err: Option<Error>)
      modifies this
      ensures args == OperandTokens(environment + old(args))
      ensures options == ResolveOptions(environment + old(args))
      ensures targets == RejectDirectories(host.fs, Operands(environment + old(args)))
      ensures helpText == help
      ensures stderr == old(stderr) + if targets == [] then NoTargetsMessage(help) else ""
      ensures var first := Get(CharAt(options.format, 0), old(loaded));
        var formats := OutputFormats(options.format, old(loaded));
        && (first.Failure? ==> metadataFormatter == old(metadataFormatter) && loaded == old(loaded))
        && (first.Success? ==> metadataFormatter == Some(first.value.0))
        && (first.Success? && formats.Failure? ==> loaded == first.value.1)
      ensures var formats := OutputFormats(options.format, old(loaded));
        && (formats.Failure? ==> err == Some(formats.error) && stdout == old(stdout))
        && (formats.Success? ==>
              && metadataFormatter == Some(formats.value.0) && textFormatter == Some(formats.value.1)
              && loaded == formats.value.2
              && stdout == old(stdout) + RunOutput(options, formats.value.0, formats.value.1, targets, host).0
              && err == RunOutput(options, formats.value.0, formats.value.1, targets, host).1)
    {
      err := ProcessArgs(environment, help, host.fs);
      if err.Some? {
        return;
      }
      if options.asArray {
        var output := ResultArrayOutput(host);
        if output.Failure? {
          return Some(output.error);
        }
        stdout := stdout + Puts(output.value);
      } else {
        err := PutsEachDocument(host);
      }
    }

    /** The `targets.each` loop of `run`. */
    method PutsEachDocument(host: Host) returns (err: Option<Error>)
      requires metadataFormatter.Some? && textFormatter.Some?
      modifies this`stdout
      ensures var expected := Streamed(options, metadataFormatter.value, textFormatter.value, targets,
                                       TargetParser(options, host), host.render);
        stdout == old(stdout) + expected.0 && err == expected.1
    {
      var o := options;
      var mf := metadataFormatter.value;
      var tf := textFormatter.value;
      var documents := targets;
      ghost var parse := TargetParser(o, host);
      var i := 0;
      while i < |documents|
        invariant 0 <= i <= |documents|
        invariant Streamed(o, mf, tf, documents[..i], parse, host.render).1.None?
        invariant stdout == old(stdout) + Streamed(o, mf, tf, documents[..i], parse, host.render).0
      {
        var result := ParseDocument(documents[i], o.keySort, MaxContentLength(o), host.fs, host.engine);
        assert result == parse(documents[i]);
        StreamedStep(o, mf, tf, documents, parse, host.render, i);
        if result.Failure? {
          StreamedFailureSticks(o, mf, tf, documents, parse, host.render, i + 1);
          return Some(result.error);
        }
        var document := SingleDocumentOutput(documents[i], result.value, host.render);
        AppendAssociates(old(stdout), Streamed(o, mf, tf, documents[..i], parse, host.render).0, Puts(document));
        stdout := stdout + Puts(document);
        i := i + 1;
      }
      assert documents[..i] == documents;
      err := None;
    }

    /** `process_args` */
    method ProcessArgs(environment: seq<Token>, help: string, fs: FileSystem) returns (err: Option<Error>)
      modifies this
      ensures args == OperandTokens(environment + old(args))
      ensures options == ResolveOptions(environment + old(args))
      ensures targets == RejectDirectories(fs, Operands(environment + old(args)))
      ensures helpText == help
      ensures stderr == old(stderr) + if targets == [] then NoTargetsMessage(help) else ""
      ensures stdout == old(stdout)
      ensures var first := Get(CharAt(options.format, 0), old(loaded));
        var formats := OutputFormats(options.format, old(loaded));
        && (first.Failure? ==> metadataFormatter == old(metadataFormatter) && loaded == old(loaded))
        && (first.Success? ==> metadataFormatter == Some(first.value.0))
        && (first.Success? && formats.Failure? ==> loaded == first.value.1)
      ensures var formats := OutputFormats(options.format, old(loaded));
        && (formats.Failure? <==> err.Some?)
        && (formats.Failure? ==> err == Some(formats.error))
        && (formats.Success? ==>
              metadataFormatter == Some(formats.value.0) && textFormatter == Some(formats.value.1)
              && loaded == formats.value.2)
    {
      options, targets, helpText := ParseCommandLine(environment, help, fs);
      WarnIfNoTargetsSpecified();
      err := SetOutputFormats();
    }

    /** `parse_command_line`: the options, the targets and the help text. */
    method ParseCommandLine(environment: seq<Token>, help: string, fs: FileSystem)
      returns (resolved: Options, files: seq<string>, helpOut: string)
      modifies this`args
      ensures args == OperandTokens(environment + old(args))
      ensures resolved == ResolveOptions(environment + old(args))
      ensures files == RejectDirectories(fs, Operands(environment + old(args)))
      ensures helpOut == help
    {
      PrependEnvironmentOptions(environment);
      var parsed, remaining := ParseOptionTokens(DefaultOptions, args);
      args := remaining;
      OperandsOfOperandTokens(environment + old(args));
      files := RemoveDirectories(fs, Operands(args));
      var format := parsed.format;
      if |format| == 1 {
        format := format + format;
      }
      if |format| > 2 {
        format := format[..2];
      }
      resolved := parsed.(format := format);
      helpOut := help;
    }

    /** `prepend_environment_options`: the RIKA_OPTIONS tokens go in front. */
    method PrependEnvironmentOptions(environment: seq<Token>)
      modifies this`args
      ensures args == environment + old(args)
    {
      args := environment + args;
    }

    /** `warn_if_no_targets_specified` */
    method WarnIfNoTargetsSpecified()
      modifies this`stderr
      ensures stderr == old(stderr) + if targets == [] then NoTargetsMessage(helpText) else ""
    {
      if targets == [] {
        var message := NoTargetsMessage(helpText);
        assert Puts(message) == message;
        stderr := stderr + Puts(message);
      }
    }

    /** `set_output_formats`: the metadata formatter is assigned before the
        text character is checked; an invalid character raises. */
    method SetOutputFormats() returns (err: Option<Error>)
      modifies this`metadataFormatter, this`textFormatter, this`loaded
      ensures var first := Get(CharAt(options.format, 0), old(loaded));
        var formats := OutputFormats(options.format, old(loaded));
        && (first.Failure? ==> metadataFormatter == old(metadataFormatter) && loaded == old(loaded))
        && (first.Success? ==> metadataFormatter == Some(first.value.0))
        && (first.Success? && formats.Failure? ==> loaded == first.value.1)
      ensures var formats := OutputFormats(options.format, old(loaded));
        && (formats.Failure? <==> err.Some?)
        && (formats.Failure? ==> err == Some(formats.error) && textFormatter == old(textFormatter))
        && (formats.Success? ==>
              metadataFormatter == Some(formats.value.0) && textFormatter == Some(formats.value.1)
              && loaded == formats.value.2)
    {
      var format := options.format;
      var first := Get(CharAt(format, 0), loaded);
      if first.Failure? {
        return Some(first.error);
      }
      metadataFormatter := Some(first.value.0);
      loaded := first.value.1;
      var second := Get(CharAt(format, 1), loaded);
      if second.Failure? {
        return Some(second.error);
      }
      textFormatter := Some(second.value.0);
      loaded := second.value.1;
      err := None;
    }

    /** `result_hash(result)` */
    method ResultHash(result: ParseResult) returns (h: seq<(Value, Value)>)
      ensures h == ResultHashOf(options, result)
    {
      h := [];
      if options.source {
        h := Put(h, Str("source"), OptStr(Lookup(result.metadata, DataSourceKey)));
      }
      if options.metadata {
        h := Put(h, Str("metadata"), MetadataValue(result.metadata));
      }
      if options.text {
        h := Put(h, Str("text"), Str(result.content));
      }
    }

    /** `single_document_output(target, result)` */
    method SingleDocumentOutput(target: string, result: ParseResult, render: RenderFn) returns (s: string)
      requires metadataFormatter.Some? && textFormatter.Some?
      ensures s == SingleDocument(options, metadataFormatter.value, textFormatter.value, target, result, render)
    {
      if options.metadata && options.text && options.format in ["jj", "JJ", "yy"] {
        var h := ResultHash(result);
        return render(metadataFormatter.value, Hash(h));
      }
      s := "";
      if options.source {
        s := s + "Source: " + target + "\n";
      }
      if options.metadata {
        s := s + render(metadataFormatter.value, MetadataValue(result.metadata)) + "\n";
      }
      if options.text {
        s := s + render(textFormatter.value, Str(result.content)) + "\n";
      }
    }

    /** `result_array_output` */
    method ResultArrayOutput(host: Host) returns (r: Result<string, Error>)
      requires metadataFormatter.Some?
      ensures r == ArrayOutput(options, metadataFormatter.value, targets, TargetParser(options, host), host.render)
    {
      ghost var parse := TargetParser(options, host);
      var hashes: seq<Value> := [];
      var i := 0;
      while i < |targets|
        invariant 0 <= i <= |targets|
        invariant ArrayHashes(options, targets[..i], parse) == Success(hashes)
      {
        assert targets[..i + 1][..i] == targets[..i];
        var result := ParseDocument(targets[i], options.keySort, MaxContentLength(options), host.fs, host.engine);
        assert result == parse(targets[i]);
        if result.Failure? {
          ArrayHashesFailureSticks(options, targets, parse, i + 1);
          return Failure(result.error);
        }
        var h := ResultHash(result.value);
        hashes := hashes + [Hash(h)];
        i := i + 1;
      }
      assert targets[..i] == targets;
      r := Success(host.render(metadataFormatter.value, Array(hashes)));
    }
  }

  // ---------------------------------------------------------------------
  // Properties.

  /** One more target: its document is printed after the earlier ones, or its error ends the loop. */
  lemma StreamedStep(o: Options, metadataRenderer: Renderer, textRenderer: Renderer,
                     targets: seq<string>, parse: TargetParse, render: RenderFn, i: nat)
    requires i < |targets| && Streamed(o, metadataRenderer, textRenderer, targets[..i], parse, render).1.None?
    ensures var previous := Streamed(o, metadataRenderer, textRenderer, targets[..i], parse, render);
      var parsed := parse(targets[i]);
      && (parsed.Failure? ==>
            Streamed(o, metadataRenderer, textRenderer, targets[..i + 1], parse, render) == (previous.0, Some(parsed.error)))
      && (parsed.Success? ==>
            Streamed(o, metadataRenderer, textRenderer, targets[..i + 1], parse, render)
              == (previous.0 + Puts(SingleDocument(o, metadataRenderer, textRenderer, targets[i], parsed.value,
                                                   render)), None))
  {
    assert targets[..i + 1][..i] == targets[..i];
  }

  /** String concatenation is associative; the output loop appends to a
      standard output that already holds earlier text. */
  lemma AppendAssociates(a: string, b: string, c: string)
    ensures (a + b) + c == a + (b + c)
  {
  }

  /** Once a parse has failed, later targets change nothing: the failure is the run's. */
  lemma {:induction false} ArrayHashesFailureSticks(o: Options, targets: seq<string>, parse: TargetParse, k: nat)
    requires k <= |targets| && ArrayHashes(o, targets[..k], parse).Failure?
    ensures ArrayHashes(o, targets, parse) == ArrayHashes(o, targets[..k], parse)
    decreases |targets|
  {
    if k < |targets| {
      var init := targets[..|targets| - 1];
      assert init[..k] == targets[..k];
      ArrayHashesFailureSticks(o, init, parse, k);
    } else {
      assert targets[..k] == targets;
    }
  }

  /** Once a document has failed, nothing more is printed. */
  lemma {:induction false} StreamedFailureSticks(o: Options, metadataRenderer: Renderer, textRenderer: Renderer,
                                                 targets: seq<string>, parse: TargetParse, render: RenderFn,
                                                 k: nat)
    requires k <= |targets| && Streamed(o, metadataRenderer, textRenderer, targets[..k], parse, render).1.Some?
    ensures Streamed(o, metadataRenderer, textRenderer, targets, parse, render)
            == Streamed(o, metadataRenderer, textRenderer, targets[..k], parse, render)
    decreases |targets|
  {
    if k < |targets| {
      var init := targets[..|targets| - 1];
      assert init[..k] == targets[..k];
      StreamedFailureSticks(o, metadataRenderer, textRenderer, init, parse, render, k);
    } else {
      assert targets[..k] == targets;
    }
  }

  /** The array holds one result hash per target, in target order, exactly
      when every target parses. */
  lemma {:induction false} ArrayHashesPerTarget(o: Options, targets: seq<string>, parse: TargetParse)
    ensures ArrayHashes(o, targets, parse).Success?
            <==> forall i :: 0 <= i < |targets| ==> parse(targets[i]).Success?
    ensures ArrayHashes(o, targets, parse).Success? ==>
              var hashes := ArrayHashes(o, targets, parse).value;
              && |hashes| == |targets|
              && forall i :: 0 <= i < |targets| ==>
                   hashes[i] == Hash(ResultHashOf(o, parse(targets[i]).value))
    decreases |targets|
  {
    if targets != [] {
      var init := targets[..|targets| - 1];
      var last := targets[|targets| - 1];
      ArrayHashesPerTarget(o, init, parse);
      var previous := ArrayHashes(o, init, parse);
      var parsed := parse(last);
      var whole := ArrayHashes(o, targets, parse);
      if previous.Failure? {
        assert whole.Failure?;
        var j :| 0 <= j < |init| && !parse(init[j]).Success?;
        assert targets[j] == init[j];
      } else if parsed.Failure? {
        assert whole.Failure?;
      } else {
        assert whole == Success(previous.value + [Hash(ResultHashOf(o, parsed.value))]);
        forall i | 0 <= i < |targets|
          ensures parse(targets[i]).Success?
          ensures whole.value[i] == Hash(ResultHashOf(o, parse(targets[i]).value))
        {
          if i < |init| {
            assert targets[i] == init[i];
            assert parse(init[i]).Success?;
            assert whole.value[i] == previous.value[i];
          } else {
            assert targets[i] == last;
          }
        }
      }
    }
  }

  /** The error of an array run is that of the first target that fails. */
  lemma ArrayHashesFirstFailure(o: Options, targets: seq<string>, parse: TargetParse, k: nat)
    requires k < |targets| && parse(targets[k]).Failure?
    requires forall j :: 0 <= j < k ==> parse(targets[j]).Success?
    ensures ArrayHashes(o, targets, parse) == Failure(parse(targets[k]).error)
  {
    var prefix := targets[..k + 1];
    assert prefix[..k] == targets[..k];
    ArrayHashesPerTarget(o, targets[..k], parse);
    ArrayHashesFailureSticks(o, targets, parse, k + 1);
  }

  /** Printing one document at a time, the documents before the first failing
      target are printed and the run stops with that target's error. */
  lemma StreamedFirstFailure(o: Options, metadataRenderer: Renderer, textRenderer: Renderer,
                             targets: seq<string>, parse: TargetParse, render: RenderFn, k: nat)
    requires k < |targets| && parse(targets[k]).Failure?
    requires forall j :: 0 <= j < k ==> parse(targets[j]).Success?
    ensures Streamed(o, metadataRenderer, textRenderer, targets, parse, render)
            == (Streamed(o, metadataRenderer, textRenderer, targets[..k], parse, render).0,
                Some(parse(targets[k]).error))
  {
    StreamedPrefixSucceeds(o, metadataRenderer, textRenderer, targets[..k], parse, render);
    var prefix := targets[..k + 1];
    assert prefix[..k] == targets[..k];
    StreamedFailureSticks(o, metadataRenderer, textRenderer, targets, parse, render, k + 1);
  }

  /** With every target parsing, the one-at-a-time loop raises nothing. */
  lemma {:induction false} StreamedPrefixSucceeds(o: Options, metadataRenderer: Renderer, textRenderer: Renderer,
                                                  targets: seq<string>, parse: TargetParse, render: RenderFn)
    requires forall j :: 0 <= j < |targets| ==> parse(targets[j]).Success?
    ensures Streamed(o, metadataRenderer, textRenderer, targets, parse, render).1.None?
    decreases |targets|
  {
    if targets != [] {
      var init := targets[..|targets| - 1];
      forall j | 0 <= j < |init| ensures parse(init[j]).Success? {
        assert init[j] == targets[j];
      }
      StreamedPrefixSucceeds(o, metadataRenderer, textRenderer, init, parse, render);
    }
  }

  /** The keys of a result hash appear in the order source, metadata, text. */
  lemma ResultHashKeyOrder(o: Options, result: ParseResult)
    ensures Keys(ResultHashOf(o, result))
            == (if o.source then [Str("source")] else [])
               + (if o.metadata then [Str("metadata")] else [])
               + (if o.text then [Str("text")] else [])
  {
    var source := OptStr(Lookup(result.metadata, DataSourceKey));
    var h0: seq<(Value, Value)> := [];
    var h1 := if o.source then Put(h0, Str("source"), source) else h0;
    var h2 := if o.metadata then Put(h1, Str("metadata"), MetadataValue(result.metadata)) else h1;
    var h3 := if o.text then Put(h2, Str("text"), Str(result.content)) else h2;
    var k1: seq<Value> := if o.source then [Str("source")] else [];
    var k2: seq<Value> := if o.metadata then [Str("metadata")] else [];
    var k3: seq<Value> := if o.text then [Str("text")] else [];
    if o.source {
      PutKeyOrder(h0, Str("source"), source);
    }
    assert Keys(h1) == k1;
    assert Lookup(h1, Str("metadata")).None? && Lookup(h1, Str("text")).None?;
    if o.metadata {
      PutKeyOrder(h1, Str("metadata"), MetadataValue(result.metadata));
    }
    assert Keys(h2) == k1 + k2;
    assert Lookup(h2, Str("text")).None?;
    if o.text {
      PutKeyOrder(h2, Str("text"), Str(result.content));
    }
    assert Keys(h3) == k1 + k2 + k3;
    assert ResultHashOf(o, result) == h3;
  }

  /** A parsed target reports itself as its source, was read with the length
      limit the text option selects, and has its keys sorted when asked. */
  lemma ParseTargetProperties(o: Options, target: string, host: Host)
    requires ParseTarget(o, target, host).Success?
    ensures var result := ParseTarget(o, target, host).value;
      && Lookup(result.metadata, DataSourceKey) == Some(target)
      && (o.source ==> Lookup(ResultHashOf(o, result), Str("source")) == Some(Str(target)))
      && result.maxContentLength == (if o.text then -1 else 0)
      && (o.keySort ==> SortedByKey(result.metadata))
  {
    var inputType := DataSourceInputType(target, host.fs).value;
    ParseWithProperties(inputType, target, o.keySort, MaxContentLength(o), host.engine);
  }

  /** In combined mode both characters select the same structured renderer,
      and the text renderer plays no part in the output. */
  lemma CombinedModeFormats(o: Options, loaded: set<string>, textRenderer: Renderer, otherTextRenderer: Renderer,
                            target: string, result: ParseResult, render: RenderFn)
    requires CombinedOutput(o)
    ensures OutputFormats(o.format, loaded).Success?
    ensures var f := OutputFormats(o.format, loaded).value;
      f.0 == f.1 && f.0 in {Json, PrettyJson, Yaml}
    ensures forall mf :: SingleDocument(o, mf, textRenderer, target, result, render)
                         == SingleDocument(o, mf, otherTextRenderer, target, result, render)
  {
  }

  /** A format string as given on the command line is accepted exactly when
      its first character, and its second if it has one, are format codes; a
      single character selects the same renderer for metadata and text, and
      characters after the second are ignored. */
  lemma NormalizedFormatAccepted(f: string, loaded: set<string>)
    ensures OutputFormats(NormalizeFormat(f), loaded).Success?
            <==> |f| >= 1 && [f[0]] in OptionLookupTable && (|f| == 1 || [f[1]] in OptionLookupTable)
    ensures |f| == 1 && OutputFormats(NormalizeFormat(f), loaded).Success? ==>
              OutputFormats(NormalizeFormat(f), loaded).value.0 == OutputFormats(NormalizeFormat(f), loaded).value.1
    ensures |f| >= 2 ==> OutputFormats(NormalizeFormat(f), loaded) == OutputFormats(f[..2], loaded)
  {
    if |f| >= 2 {
      assert NormalizeFormat(f) == f[..2];
    }
  }
}
