# Rika core, modelled in Dafny

Rika is a JRuby wrapper around Apache Tika. It extracts the text, the
metadata and the language of a document from a file path or an HTTP(S) URL.
The `rika` command prints these for one or more targets, in one of six
output formats. This project models the core of Rika and proves properties
of that model. The core is:

- **The parser** (`lib/rika/parser.rb`). It classifies the data source as a file or an HTTP resource. It opens a stream and lets Tika fill a text string and a Metadata object. It adds the `rika:language` and `rika:data-source` keys, copies the metadata to an ordered Ruby hash, optionally sorts it by key, and builds a `ParseResult`.
- **The result record** (`lib/rika/parse_result.rb`).
- **The formatter registry** (`lib/rika/formatters.rb`). It maps a format code to a renderer and the library that renderer needs.
- **`ArgsParser`** (`lib/rika/cli/args_parser.rb`). It resolves the default options, the `RIKA_OPTIONS` tokens and the command line into options and glob-expanded targets.
- **`RikaCommand`** (`lib/rika/cli/rika_command.rb`). It parses the arguments, warns when there are no targets and chooses the metadata and text formatters. It then parses each target and prints the results, either one document at a time or as one array of hashes.

Files:

| file | module | contents |
|---|---|---|
| `wrappers.dfy` | `Wrappers` | `Option` and `Result` |
| `values.dfy` | `Values` | Ruby values, Rika's exceptions, `puts`, the filesystem oracle |
| `assoc.dfy` | `Assoc` | insertion-ordered hashes (Ruby `Hash`, and the model of Tika's `Metadata`); the raw key order and `sort_by` |
| `formatters.dfy` | `Formatters` | the format-code table and `Formatters.get` |
| `parse_result.dfy` | `ParseResults` | the `ParseResult` struct |
| `parser.dfy` | `Parsing` | `Parser`, Tika's `Metadata` object, the input stream, `Rika.parse` |
| `args_parser.dfy` | `ArgsParsing` | `ArgsParser` and the option callbacks |
| `rika_command.dfy` | `Command` | `RikaCommand` |

The outside world enters as values passed in:

- **`FileSystem`** gives `File.file?`, `File.directory?`, `Dir.glob` and what `URI()` makes of a string.
- **`Engine`** gives Tika's stream opening, `parse_to_string` with the properties it stores into the Metadata object, and `Rika.language`.
- **`RenderFn`** gives what each formatter prints for a value.

The methods that change state are written as imperative Dafny:

- the Metadata object, the stream and the parser;
- the two command-line classes;
- the command's standard output and standard error, which are string fields it appends to.

Each such method is proved against a function that specifies it.

## Model

| member | source | states |
|---|---|---|
| Values.Puts | lib/rika/cli/rika_command.rb:32-36 | `puts` writes the string and then a newline, unless the string already ends with one |
| Assoc.Put | lib/rika/parser.rb:51-53 | storing under a key gives that key the new value and leaves every other key's value alone. A new key is appended; an existing key keeps its place. Unique keys stay unique |
| Assoc.PutKeyOrder | lib/rika/parser.rb:51-53 | after a store the key order is the old order, followed by the key only if it was new |
| Assoc.KeyLeTotal | lib/rika/parser.rb:34 | of any two keys, one sorts before or equal to the other in `String#<=>` order |
| Assoc.KeyLeTransitive | lib/rika/parser.rb:34 | the key order is transitive |
| Assoc.KeyLeAntisymmetric | lib/rika/parser.rb:34 | two keys that each sort before or equal to the other are the same key |
| Assoc.SortByKeyCorrect | lib/rika/parser.rb:34 | `sort_by { key }` gives entries in key order that are a permutation of the input. With unique keys, the keys stay unique and every lookup gives the same value |
| Assoc.RawKeyOrderIsCaseSensitive | lib/rika/parser.rb:34 | the sort compares raw characters: key "B" sorts before key "a" |
| Formatters.Get | lib/rika/formatters.rb:39-44 | succeeds exactly for the six table codes and returns that code's renderer. It loads the renderer's required library, if any. Any other code raises `RuntimeError` "Invalid option char: …" |
| Formatters.ValidOptionCharsAreTableKeys | lib/rika/formatters.rb:32 | `VALID_OPTION_CHARS` holds exactly the table's keys, each once |
| Formatters.GetEachFormatter | lib/rika/formatters.rb:15-30 | a, i, j, J, t and y select awesome_print, inspect, JSON, pretty JSON, to_s and YAML. They load awesome_print, nothing, json, json, nothing and yaml |
| Formatters.GetRejectsOtherCodes | lib/rika/formatters.rb:40 | every code outside the six, including nil, raises the invalid-code error |
| Formatters.LookupTableInjective | lib/rika/formatters.rb:15-22 | no two codes select the same renderer |
| Formatters.RequiredRequireKeys | lib/rika/formatters.rb:25-30 | only a, j, J and y need a library, and all four are valid codes |
| Formatters.GetLoadsRequiredLibrary | lib/rika/formatters.rb:41-42 | a successful `get` drops no loaded library, and afterwards the code's library is loaded |
| ParseResults.ParseResult.ContentAndMetadataHash | lib/rika/parse_result.rb:28-30 | the hash has exactly the keys `:content` and `:metadata`, in that order, holding the record's content and metadata |
| ParseResults.ParseResult.IsFile | lib/rika/parse_result.rb:18-20 | `file?` holds for an input type of `:file`, and when it holds the input type is neither nil nor `:http` |
| ParseResults.ParseResult.IsHttp | lib/rika/parse_result.rb:23-25 | `http?` holds for an input type of `:http`, and when it holds the input type is neither nil nor `:file` |
| ParseResults.InputTypePredicates | lib/rika/parse_result.rb:18-25 | `file?` holds iff the input type is `:file`, and `http?` iff it is `:http`. They never hold together, and neither holds when the type is nil |
| Parsing.DataSourceInputType | lib/rika/parser.rb:58-66 | a source that is a file is `:file`. Otherwise an HTTP(S) URI is `:http`, an unparseable URI raises `URI::InvalidURIError`, and anything else raises `IOError` "Input (…) is not an available file or HTTP resource." |
| Parsing.Metadata.constructor | lib/rika/parser.rb:27 | a new Metadata object is empty |
| Parsing.Metadata.Set | lib/rika/parser.rb:31-32 | `set` is a store into the name/value list, and names stay unique |
| Parsing.Metadata.Populate | lib/rika/parser.rb:29 | Tika's stores go in one by one, in the order the engine makes them |
| Parsing.InputStream.Close | lib/rika/parser.rb:81 | closing marks the stream closed |
| Parsing.Parser.constructor | lib/rika/parser.rb:15-21 | the parser records the data source, `key_sort:`, `max_content_length:` and the input type it is given |
| Parsing.Parser.NewWithDefaults | lib/rika/parser.rb:15 | `Parser.new(data_source)` sorts keys and keeps all of the text (`max_content_length` -1), and fails exactly when the source cannot be classified |
| Parsing.Parser.New | lib/rika/parser.rb:15-22 | construction fails exactly when the source cannot be classified, and with that error. Otherwise it records the source, `key_sort:`, `max_content_length:` and the input type |
| Parsing.Parser.Parse | lib/rika/parser.rb:26-46 | the result is the parse specification for the parser's fields, whose content, metadata and other fields `Parsing.ParseWithProperties` and `Parsing.ParseWithFailure` pin down. A stream exists exactly when it could be opened, and it is then closed |
| Parsing.Parser.MetadataJavaToRuby | lib/rika/parser.rb:50-54 | the Ruby hash has the Metadata object's names, in order, each with its value |
| Parsing.Parser.WithInputStream | lib/rika/parser.rb:72-82 | an open failure raises without a stream. Otherwise the block's outcome is returned, Tika's properties are stored only when the parse succeeds, and the stream is closed on both paths |
| Parsing.ParseDocument | lib/rika/parser.rb:15-46 | `Parser.new(...).parse` is classification followed by parsing, and any error of either step is raised |
| Parsing.ParseWithProperties | lib/rika/parser.rb:26-46 | see the list after this table |
| Parsing.UnsortedKeyOrder | lib/rika/parser.rb:31-34 | with `names` listed in the order first set (see Left out), without sorting the keys are the engine's names in order. `rika:language` and then `rika:data-source` follow, each only if the engine had not already stored it |
| Parsing.ParseWithFailure | lib/rika/parser.rb:29 | a parse fails with the open error when the stream cannot be opened. Otherwise it fails exactly when Tika raises |
| Parsing.ParseDocumentInputType | lib/rika/parser.rb:58-62 | for a successful parse, `file?` holds iff the source is a file, and `http?` iff it is not a file but an HTTP(S) URI |
| ArgsParsing.ApplyOption | lib/rika/cli/args_parser.rb:59-82 | `-f` sets the format and leaves everything else alone. A boolean option with no value sets true, and with a value sets that value. Options it does not name, and operands, change nothing |
| ArgsParsing.OperandTokens | lib/rika/cli/args_parser.rb:37 | `parse!` leaves only operands |
| ArgsParsing.NormalizeFormat | lib/rika/cli/args_parser.rb:109-115 | one character is doubled; otherwise the first two are kept |
| ArgsParsing.RejectDirectoriesMembers | lib/rika/cli/args_parser.rb:102 | a file is kept iff it was given and is not a directory |
| ArgsParsing.ArgsParser.constructor | lib/rika/cli/args_parser.rb:25 | `new` defines no `initialize`, so `@args` and `@options` are nil until `call` assigns them (lines 33-34); the model starts them at no arguments and the default options, values no caller can observe because `call` overwrites them first |
| ArgsParsing.ArgsParser.CallOnNew | lib/rika/cli/args_parser.rb:24-26 | `ArgsParser.call` returns what `new.call` returns |
| ArgsParsing.ArgsParser.Call | lib/rika/cli/args_parser.rb:32-41 | the options are the defaults updated by the environment tokens and then the command line, with the format normalised. The targets are the glob expansions of the operands. Only operands remain in `args` |
| ArgsParsing.ArgsParser.PrependEnvironmentArgs | lib/rika/cli/args_parser.rb:120-124 | the environment tokens go in front of the arguments |
| ArgsParsing.ArgsParser.ParseOptions | lib/rika/cli/args_parser.rb:37 | `parse!` fires the callbacks left to right and keeps the operands |
| ArgsParsing.ArgsParser.PostprocessFormatOptions | lib/rika/cli/args_parser.rb:109-115 | only the format changes, and it becomes its normalised form |
| ArgsParsing.ArgsParser.CreateTargetArray | lib/rika/cli/args_parser.rb:99-105 | the targets are each operand's glob matches, minus directories, concatenated in operand order |
| ArgsParsing.ParseOptionTokens | lib/rika/cli/args_parser.rb:59-82 | the loop over the tokens gives the left-to-right fold of the callbacks and the operands in order |
| ArgsParsing.RemoveDirectories | lib/rika/cli/args_parser.rb:102 | the loop keeps exactly the non-directories, in order |
| ArgsParsing.OperandsOfOperandTokens | lib/rika/cli/args_parser.rb:37-39 | the operands left by `parse!` are the operands of the full token list |
| ArgsParsing.NoArgumentsGiveDefaults | lib/rika/cli/args_parser.rb:8-16 | with no tokens the options are `DEFAULT_OPTIONS` |
| ArgsParsing.NormalizeFormatIdempotent | lib/rika/cli/args_parser.rb:109-115 | normalising twice equals normalising once, and the result is empty or two characters long |
| ArgsParsing.FoldOptionsConcat | lib/rika/cli/args_parser.rb:120-124 | processing environment tokens followed by arguments equals processing one list and then the other |
| ArgsParsing.FlagLastOccurrenceWins | lib/rika/cli/args_parser.rb:63-82 | a boolean option takes the value of its last occurrence: true if that occurrence has no value, otherwise the value given |
| ArgsParsing.FlagUnmentionedKept | lib/rika/cli/args_parser.rb:8-16 | a boolean option that no token names keeps its earlier value |
| ArgsParsing.FormatLastOccurrenceWins | lib/rika/cli/args_parser.rb:59-61 | the format is its last occurrence |
| ArgsParsing.CommandLineOverridesEnvironmentFlag | lib/rika/cli/args_parser.rb:117-124 | a boolean option named on the command line has the value the command line alone gives it, whatever `RIKA_OPTIONS` says |
| ArgsParsing.CommandLineOverridesEnvironmentFormat | lib/rika/cli/args_parser.rb:117-124 | a format given on the command line overrides one in `RIKA_OPTIONS` |
| ArgsParsing.ExpandTargetsConcat | lib/rika/cli/args_parser.rb:99-105 | the targets of two argument lists are the targets of each, concatenated |
| ArgsParsing.UnmatchedArgumentDropped | lib/rika/cli/args_parser.rb:100-103 | an argument the glob matches nothing for adds no target and raises nothing |
| ArgsParsing.TargetsComeFromGlobs | lib/rika/cli/args_parser.rb:96-105 | something is a target iff it is not a directory and is a glob match of some argument |
| Command.MaxContentLength | lib/rika/cli/rika_command.rb:210-212 | the length limit is -1 (all of the text) exactly when text is on, and 0 exactly when it is off |
| Command.CharAt | lib/rika/cli/rika_command.rb:48-49 | `format[i]` is that character, or nil past the end |
| Command.ResultHashOf | lib/rika/cli/rika_command.rb:61-67 | see the list after this table |
| Command.NoTargetsMessage | lib/rika/cli/rika_command.rb:104-109 | the warning ends in a newline, so `puts` adds none |
| Command.RikaCommand.constructor | lib/rika/cli/rika_command.rb:21-25 | the command keeps its own copy of the arguments (the other fields' starting values are placeholders; see Left out) |
| Command.RikaCommand.Run | lib/rika/cli/rika_command.rb:29-40 | see the list after this table |
| Command.RikaCommand.PutsEachDocument | lib/rika/cli/rika_command.rb:34-37 | standard output gains the one-at-a-time output, and the run stops with the first parse error |
| Command.RikaCommand.ProcessArgs | lib/rika/cli/rika_command.rb:215-219 | options, targets and help text come from the command line, then the no-targets warning, then the formats. A bad format character is raised, and nothing is written to standard output; a bad second character comes after the first character's formatter and library are in place |
| Command.RikaCommand.ParseCommandLine | lib/rika/cli/rika_command.rb:116-191 | same options as `ArgsParser`. The targets are the operands minus directories, without glob expansion. Only operands remain in `args` |
| Command.RikaCommand.PrependEnvironmentOptions | lib/rika/cli/rika_command.rb:200-206 | the environment tokens go in front of the arguments |
| Command.RikaCommand.WarnIfNoTargetsSpecified | lib/rika/cli/rika_command.rb:102-112 | standard error gains the warning exactly when there are no targets |
| Command.RikaCommand.SetOutputFormats | lib/rika/cli/rika_command.rb:45-56 | see the list after this table |
| Command.RikaCommand.ResultHash | lib/rika/cli/rika_command.rb:61-67 | the hash built by conditional stores is the result hash of the current options |
| Command.RikaCommand.SingleDocumentOutput | lib/rika/cli/rika_command.rb:73-83 | the StringIO text is the single-document output for the current options and formatters |
| Command.RikaCommand.ResultArrayOutput | lib/rika/cli/rika_command.rb:90-98 | the loop gives the array output, or the first parse error |
| Command.StreamedStep | lib/rika/cli/rika_command.rb:34-37 | one more target either appends its document, through `puts`, after the earlier ones, or ends the run with its error |
| Command.ArrayHashesFailureSticks | lib/rika/cli/rika_command.rb:91-94 | after a failed parse, later targets do not change the outcome |
| Command.StreamedFailureSticks | lib/rika/cli/rika_command.rb:34-37 | after a failed parse, nothing more is printed |
| Command.ArrayHashesPerTarget | lib/rika/cli/rika_command.rb:91-94 | the array exists iff every target parses. It then holds one result hash per target, in target order |
| Command.ArrayHashesFirstFailure | lib/rika/cli/rika_command.rb:91-94 | an array run fails with the first failing target's error |
| Command.StreamedFirstFailure | lib/rika/cli/rika_command.rb:34-37 | one-at-a-time output is the documents before the first failing target, followed by that target's error |
| Command.StreamedPrefixSucceeds | lib/rika/cli/rika_command.rb:34-37 | when every target parses, the loop raises nothing |
| Command.ResultHashKeyOrder | lib/rika/cli/rika_command.rb:61-67 | the result hash's keys come in the order source, metadata, text |
| Command.ParseTargetProperties | lib/rika/cli/rika_command.rb:35 | see the list after this table |
| Command.CombinedModeFormats | lib/rika/cli/rika_command.rb:74-75 | with both sections on and format jj, JJ or yy, both characters select the same JSON, pretty JSON or YAML renderer, and the text renderer does not matter |
| Command.NormalizedFormatAccepted | lib/rika/cli/rika_command.rb:184-188 | a given format is accepted iff its first character, and its second if present, are codes. One character selects the same renderer twice, and characters after the second are ignored |

Rows too long for the table:

- **Parsing.ParseWithProperties** — a successful parse:
  - returns Tika's text unchanged as `content`;
  - returns as `metadata_java` the Metadata object as Tika filled it, with the language and the data source set;
  - keeps the value of every property Tika stored, other than the two `rika:` keys;
  - stores the source under `rika:data-source` and in `data_source`;
  - stores the language of the content under `rika:language` and in `language`;
  - sets `content_type` to the `Content-Type` entry;
  - copies `max_content_length` and the input type into the result;
  - gives the metadata unique keys;
  - makes the metadata a permutation of `metadata_java` with the same lookups;
  - sorts the keys under `key_sort`, and otherwise leaves them in `metadata_java`'s order.
- **Command.ResultHashOf** — the result hash:
  - has "source" iff `-s` is on, holding the `rika:data-source` value;
  - has "metadata" iff `-m` is on, holding the metadata;
  - has "text" iff `-t` is on, holding the content;
  - has no other keys, and no key twice.
- **Command.RikaCommand.Run**:
  - the options and targets are what the command line gives;
  - the warning appears iff there are no targets;
  - an invalid format character raises before any output;
  - an invalid second character leaves the first character's formatter set and its library loaded;
  - otherwise standard output gains one `puts` of the rendered array, or the documents one at a time;
  - the error raised is the first failing parse's error.
- **Command.RikaCommand.SetOutputFormats**:
  - the metadata formatter is set from `format[0]` before `format[1]` is checked;
  - an invalid character raises its `RuntimeError`;
  - when `format[0]` is invalid, nothing is set or loaded;
  - when only `format[1]` is invalid, the metadata formatter is already set and its library already loaded;
  - on success both formatters are set and their libraries loaded.
- **Command.ParseTargetProperties** — for a target that parses:
  - the target's `rika:data-source`, and so its "source" entry, is the target itself;
  - `max_content_length` is -1 when text is on and 0 otherwise;
  - the keys are sorted under `-k`.

## Notes on the code

Where the code and its help text, comments or tests disagree, the model follows the code:

- **Key sorting is case-sensitive.**
  - `sort_by { |key, _value| key }` (lib/rika/parser.rb:34) compares raw characters, so every upper-case key sorts before every lower-case one (`Assoc.RawKeyOrderIsCaseSensitive`).
  - The `-k` help text claims a case-insensitive sort (lib/rika/cli/args_parser.rb:71, lib/rika/cli/rika_command.rb:157).
  - So does the parser test (spec/rika/parser_spec.rb:76-79).
- **An invalid format raises rather than printing the format error.**
  - `set_output_formats` rescues only `KeyError` (lib/rika/cli/rika_command.rb:51).
  - `Formatters.get` raises `RuntimeError` (lib/rika/formatters.rb:40).
  - So the "Invalid format" message and `exit 1` are never reached. The model raises the `RuntimeError` from `Run`.
- **The `-s` default.** The help text says `-s` defaults to false (lib/rika/cli/args_parser.rb:75), but `DEFAULT_OPTIONS` sets `source: true` (lib/rika/cli/args_parser.rb:14). The model uses true.
- **No exit on an empty target list.**
  - `ArgsParser#call` is documented to exit when no targets are given (lib/rika/cli/args_parser.rb:22-23), but it does not check.
  - `RikaCommand` only warns (lib/rika/cli/rika_command.rb:102-112) and then goes on. One document at a time it prints nothing; as an array it prints the rendering of `[]`.
- **`RikaCommand` does not use `ArgsParser`.**
  - It has its own copy of the option parsing. Both copies are modelled over the same callbacks and fold.
  - Its targets are not glob-expanded (lib/rika/cli/rika_command.rb:181). `ArgsParser` expands them with `Dir.glob` (lib/rika/cli/args_parser.rb:102).

## Left out

- `Rika.parse`, `Rika.language` and `Rika.tika_version` live in `lib/rika.rb`, which is not part of this model; `lib/rika.rb` in this tree is an older revision that predates `Parser`. `Rika.parse(source, ...)` is modelled as `Parser.new(source, ...).parse`, and `Rika.language` is a field of the engine.
- Tika itself (`Tika.new(detector)`, `DefaultDetector`, `set_max_string_length`, `parse_to_string`, stream opening, language detection) is the `Engine` oracle, because it is foreign Java code. The `detector:` parameter is not modelled.
- Parsing.Metadata: Tika keeps its names in a hash table, so `names` (lib/rika/parser.rb:51) lists them in hash order, and `rika:language` and `rika:data-source` land wherever that order puts them. The model lists names in the order they were first set; without `-k`, the unsorted key order it states (`Parsing.UnsortedKeyOrder`) is that choice, not a promise of the source.
- ParseResults.ParseResult: only `content_type` and `input_type` can be nil in the model. The Ruby struct is a keyword struct whose every field may be nil when a caller builds one directly; the parser never does so for the other fields.
- Tika's `Metadata` is modelled single-valued, and `get` gives the one value, because Rika only ever reads one value per name. `metadata_java` in a result is a snapshot of the object's entries, not the live Java object.
- What the six renderers print (`ai`, `inspect`, `to_json`, `JSON.pretty_generate`, `to_s`, `to_yaml`) is the `RenderFn` oracle, because those are library serialisers.
- OptionParser's token syntax is not modelled, because it is library parsing. This covers short and long forms, `--no-` prefixes, the `+`/`-`/`yes`/`no`/`true`/`false` values, `--`, abbreviations, and errors for unknown options. Neither is `Shellwords.shellsplit` of `RIKA_OPTIONS`. Arguments arrive as option events and operands, and the environment's tokens are a parameter.
- `-v`/`--version` and `-h`/`--help` are not modelled, because they print and exit. Neither are `versions_string`, the banner, or the help text; the help text is a parameter.
- `ArgsParser#call` also returns `option_parser.help`; the model returns only the options and targets.
- ArgsParsing.ArgsParser.Call: the caller's argument array is updated in place by `unshift`, `flatten!` and `parse!`. The model keeps the arguments as a value, so that aliasing is not captured.
- Command.RikaCommand.constructor: `initialize` sets only `@args`. `options`, `targets`, `help_text` and the two formatters have public readers (lib/rika/cli/rika_command.rb:18) and read nil until `run` assigns them. The model gives `options`, `targets` and `helpText` placeholder starting values (the defaults, an empty list, an empty string) instead of nil; the formatters do start as `None`.
- `freeze` and `map(&:freeze)` are not modelled; they do not change values.
- Process exit codes and the stack trace printed for an uncaught exception are not modelled. An exception that ends a run is the `Option<Error>` that `Run` returns.
- Other files of the repository are not part of this model: the Tika loader, `tika_load_error.rb` and the executable script.
