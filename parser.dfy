/**
 * Result assembly: the Parser classifies its data source, opens a stream on
 * it, lets Tika extract text and metadata, adds the detected language and
 * the data source to the metadata, optionally sorts the metadata by key and
 * fills a ParseResult. Tika, the language detector and the Java streams are
 * foreign; they are the fields of an Engine passed in.
 */
module Parsing {
  import opened Wrappers
  import opened Values
  import opened Assoc
  import opened ParseResults

  /** What Tika's `parse_to_string` hands back: the text (already cut to the
      maximum string length it was given) and the properties it stored in the
      Metadata object, in the order it stored them. */
  datatype Extraction = Extraction(content: string, properties: seq<(string, string)>)

  /** The foreign calls of a parse. */
  datatype Engine = Engine(
    // FileInputStream.new(file) for a file, URL#open_stream for HTTP; None when the stream opens
    openError: (InputType, string) -> Option<Error>,
    // Tika#parse_to_string after set_max_string_length(max_content_length)
    parseToString: (InputType, string, int) -> Result<Extraction, Error>,
    // Rika.language
    language: string -> string)

  const LanguageKey := "rika:language"
  const DataSourceKey := "rika:data-source"
  const ContentTypeKey := "Content-Type"

  /** The constructor's defaults for `key_sort:` and `max_content_length:` (all of the text). */
  const DefaultKeySort := true
  const DefaultMaxContentLength := -1

  /** `data_source_input_type`: an existing regular file is `:file`; else a
      string that URI() parses as HTTP(S) is `:http`; else the constructor raises. */
  function DataSourceInputType(dataSource: string, fs: FileSystem): (r: Result<InputType, Error>)
    ensures r == Success(File) <==> fs.isFile(dataSource)
    ensures r == Success(Http) <==> !fs.isFile(dataSource) && fs.uriKind(dataSource) == HttpUri
    ensures r.Failure? && fs.uriKind(dataSource) == InvalidUri ==> r.error == InvalidURIError(dataSource)
    ensures r.Failure? && fs.uriKind(dataSource) == OtherUri ==>
              r.error == IOError("Input (" + dataSource + ") is not an available file or HTTP resource.")
  {
    if fs.isFile(dataSource) then Success(File)
    else match fs.uriKind(dataSource)
      case HttpUri => Success(Http)
      case InvalidUri => Failure(InvalidURIError(dataSource))
      case OtherUri => Failure(IOError("Input (" + dataSource + ") is not an available file or HTTP resource."))
  }

  /** The Metadata object after Tika has filled it and the parser has set the
      language and the data source. */
  function AssembledMetadata(ex: Extraction, language: string, dataSource: string): seq<(string, string)>
  {
    Put(Put(PutAll([], ex.properties), LanguageKey, language), DataSourceKey, dataSource)
  }

  /** What `Parser#parse` returns for a parser whose input type is already known. */
  function ParseWith(inputType: InputType, dataSource: string, keySort: bool, maxContentLength: int,
                     engine: Engine): Result<ParseResult, Error>
  {
    match engine.openError(inputType, dataSource)
    case Some(e) => Failure(e)
    case None =>
      match engine.parseToString(inputType, dataSource, maxContentLength)
      case Failure(e) => Failure(e)
      case Success(ex) =>
        var language := engine.language(ex.content);
        var java := AssembledMetadata(ex, language, dataSource);
        var metadata := if keySort then SortByKey(java) else java;
        Success(ParseResult(ex.content, metadata, java, Lookup(metadata, ContentTypeKey), language,
                            Some(inputType), dataSource, maxContentLength))
  }

  /** What `Rika.parse(data_source, ...)`, i.e. `Parser.new(...).parse`, returns or raises. */
  function ParseDocumentSpec(dataSource: string, keySort: bool, maxContentLength: int,
                             fs: FileSystem, engine: Engine): Result<ParseResult, Error>
  {
    match DataSourceInputType(dataSource, fs)
    case Failure(e) => Failure(e)
    case Success(inputType) => ParseWith(inputType, dataSource, keySort, maxContentLength, engine)
  }

  /** Tika's Metadata object, single-valued: `set` replaces the value of a
      name already present and adds a new name otherwise. Tika keeps the
      names in a hash table; the model lists them in the order first set. */
  class Metadata {
    var entries: seq<(string, string)>

    predicate Valid()
      reads this
    {
      UniqueKeys(entries)
    }

    constructor ()
      ensures Valid() && entries == []
    {
      entries := [];
    }

    /** `names` */
    function Names(): seq<string>
      reads this
    {
      Keys(entries)
    }

    /** `get(name)` */
    function Get(name: string): Option<string>
      reads this
    {
      Lookup(entries, name)
    }

    /** `set(name, value)` */
    method Set(name: string, value: string)
      requires Valid()
      modifies this
      ensures Valid()
      ensures entries == Put(old(entries), name, value)
    {
      entries := Put(entries, name, value);
    }

    /** The stores Tika makes while it parses, one `set` per property found. */
    method Populate(properties: seq<(string, string)>)
      requires Valid()
      modifies this
      ensures Valid()
      ensures entries == PutAll(old(entries), properties)
    {
      var i := 0;
      while i < |properties|
        invariant 0 <= i <= |properties|
        invariant Valid()
        invariant PutAll(entries, properties[i..]) == PutAll(old(entries), properties)
      {
        assert properties[i..][1..] == properties[i + 1..];
        Set(properties[i].0, properties[i].1);
        i := i + 1;
      }
    }
  }

  /** An input stream; only whether it has been closed is modelled. */
  class InputStream {
    const source: string
    var closed: bool

    constructor (source: string)
      ensures this.source == source && !closed
    {
      this.source := source;
      closed := false;
    }

    method Close()
      modifies this
      ensures closed
    {
      closed := true;
    }
  }

  class Parser {
    const dataSource: string
    const keySort: bool
    const maxContentLength: int
    const inputType: InputType

    /** The field assignments of `initialize`, once the input type is known. */
    constructor (dataSource: string, keySort: bool, maxContentLength: int, inputType: InputType)
      ensures this.dataSource == dataSource && this.keySort == keySort
      ensures this.maxContentLength == maxContentLength && this.inputType == inputType
    {
      this.dataSource := dataSource;
      this.keySort := keySort;
      this.maxContentLength := maxContentLength;
      this.inputType := inputType;
    }

    /** `Parser.new(data_source, key_sort:, max_content_length:)`, which raises
        when the data source is neither a file nor an HTTP(S) URI. */
    static method New(dataSource: string, keySort: bool, maxContentLength: int, fs: FileSystem)
      returns (r: Result<Parser, Error>)
      ensures r.Failure? <==> DataSourceInputType(dataSource, fs).Failure?
      ensures r.Failure? ==> r.error == DataSourceInputType(dataSource, fs).error
      ensures r.Success? ==> fresh(r.value) && r.value.dataSource == dataSource
      ensures r.Success? ==> r.value.keySort == keySort && r.value.maxContentLength == maxContentLength
      ensures r.Success? ==> r.value.inputType == DataSourceInputType(dataSource, fs).value
    {
      var inputType := DataSourceInputType(dataSource, fs);
      if inputType.Failure? {
        return Failure(inputType.error);
      }
      var p := new Parser(dataSource, keySort, maxContentLength, inputType.value);
      return Success(p);
    }

    /** `Parser.new(data_source)` with the keyword defaults: sorted keys and all of the text. */
    static method NewWithDefaults(dataSource: string, fs: FileSystem) returns (r: Result<Parser, Error>)
      ensures r.Failure? <==> DataSourceInputType(dataSource, fs).Failure?
      ensures r.Success? ==> fresh(r.value) && r.value.dataSource == dataSource
      ensures r.Success? ==> r.value.keySort && r.value.maxContentLength == -1
    {
      r := New(dataSource, DefaultKeySort, DefaultMaxContentLength, fs);
    }

    /** `parse` */
    method Parse(engine: Engine) returns (r: Result<ParseResult, Error>, stream: InputStream?)
      ensures r == ParseWith(inputType, dataSource, keySort, maxContentLength, engine)
      ensures stream == null <==> engine.openError(inputType, dataSource).Some?
      ensures stream != null ==> stream.closed
    {
      var metadataJava := new Metadata();
      var content;
      content, stream := WithInputStream(engine, metadataJava);
      if content.Failure? {
        return Failure(content.error), stream;
      }
      ghost var ex := engine.parseToString(inputType, dataSource, maxContentLength).value;
      var language := engine.language(content.value);
      metadataJava.Set(LanguageKey, language);
      metadataJava.Set(DataSourceKey, dataSource);
      var metadata := MetadataJavaToRuby(metadataJava);
      if keySort {
        metadata := SortByKey(metadata);
      }
      assert metadataJava.entries == AssembledMetadata(ex, language, dataSource);
      r := Success(ParseResult(content.value, metadata, metadataJava.entries, Lookup(metadata, ContentTypeKey),
                               language, Some(inputType), dataSource, maxContentLength));
    }

    /** `metadata_java_to_ruby`: a Ruby Hash with the Metadata's names, in
        the order `names` lists them, each mapped to its value. */
    method MetadataJavaToRuby(metadataJava: Metadata) returns (m: seq<(string, string)>)
      requires metadataJava.Valid()
      ensures m == metadataJava.entries
    {
      var names := metadataJava.Names();
      m := [];
      var i := 0;
      while i < |names|
        invariant 0 <= i <= |names|
        invariant m == metadataJava.entries[..i]
      {
        var name := names[i];
        LookupAt(metadataJava.entries, i);
        var value := metadataJava.Get(name);
        AbsentBefore(metadataJava.entries, i);
        m := Put(m, name, value.value);
        assert metadataJava.entries[..i + 1] == metadataJava.entries[..i] + [metadataJava.entries[i]];
        i := i + 1;
      }
      assert metadataJava.entries[..i] == metadataJava.entries;
    }

    /** `with_input_stream { |stream| @tika.parse_to_string(stream, metadata_java) }`:
        opens the stream, runs the parse and closes the stream in `ensure`,
        whether or not the parse raised. A stream that failed to open is nil
        and is not closed. */
    method WithInputStream(engine: Engine, metadataJava: Metadata) returns (r: Result<string, Error>, stream: InputStream?)
      requires metadataJava.Valid()
      modifies metadataJava
      ensures metadataJava.Valid()
      ensures stream == null <==> engine.openError(inputType, dataSource).Some?
      ensures stream != null ==> fresh(stream) && stream.source == dataSource && stream.closed
      ensures engine.openError(inputType, dataSource).Some? ==>
                r == Failure(engine.openError(inputType, dataSource).value) && metadataJava.entries == old(metadataJava.entries)
      ensures engine.openError(inputType, dataSource).None? ==>
                var ex := engine.parseToString(inputType, dataSource, maxContentLength);
                && (ex.Failure? ==> r == Failure(ex.error) && metadataJava.entries == old(metadataJava.entries))
                && (ex.Success? ==> r == Success(ex.value.content)
                                    && metadataJava.entries == PutAll(old(metadataJava.entries), ex.value.properties))
    {
      var openError := engine.openError(inputType, dataSource);
      if openError.Some? {
        return Failure(openError.value), null;
      }
      stream := new InputStream(dataSource);
      // the block passed to with_input_stream
      var ex := engine.parseToString(inputType, dataSource, maxContentLength);
      if ex.Success? {
        metadataJava.Populate(ex.value.properties);
        r := Success(ex.value.content);
      } else {
        r := Failure(ex.error);
      }
      // the ensure clause
      stream.Close();
    }
  }

  /** `Rika.parse(data_source, key_sort:, max_content_length:)`. */
  method ParseDocument(dataSource: string, keySort: bool, maxContentLength: int, fs: FileSystem, engine: Engine)
    returns (r: Result<ParseResult, Error>)
    ensures r == ParseDocumentSpec(dataSource, keySort, maxContentLength, fs, engine)
  {
    var parser := Parser.New(dataSource, keySort, maxContentLength, fs);
    if parser.Failure? {
      return Failure(parser.error);
    }
    var stream;
    r, stream := parser.value.Parse(engine);
  }

  /** What a successful parse promises about its result. */
  lemma {:induction false} ParseWithProperties(inputType: InputType, dataSource: string, keySort: bool,
                                               maxContentLength: int, engine: Engine)
    requires ParseWith(inputType, dataSource, keySort, maxContentLength, engine).Success?
    ensures var res := ParseWith(inputType, dataSource, keySort, maxContentLength, engine).value;
      var ex := engine.parseToString(inputType, dataSource, maxContentLength).value;
      && res.content == ex.content
      && res.metadataJava == AssembledMetadata(ex, res.language, dataSource)
      && (forall k :: k != LanguageKey && k != DataSourceKey ==> Lookup(res.metadata, k) == Lookup(PutAll([], ex.properties), k))
      && Lookup(res.metadata, DataSourceKey) == Some(dataSource) && res.dataSource == dataSource
      && Lookup(res.metadata, LanguageKey) == Some(res.language)
      && res.language == engine.language(res.content)
      && res.contentType == Lookup(res.metadata, ContentTypeKey)
      && res.maxContentLength == maxContentLength
      && res.inputType == Some(inputType)
      && UniqueKeys(res.metadata)
      && multiset(res.metadata) == multiset(res.metadataJava)
      && (forall k :: Lookup(res.metadata, k) == Lookup(res.metadataJava, k))
      && (keySort ==> SortedByKey(res.metadata))
      && (!keySort ==> res.metadata == res.metadataJava)
  {
    var ex := engine.parseToString(inputType, dataSource, maxContentLength).value;
    var language := engine.language(ex.content);
    var java := AssembledMetadata(ex, language, dataSource);
    assert UniqueKeys(java);
    assert Lookup(java, LanguageKey) == Some(language);
    SortByKeyCorrect(java);
  }

  /** With names listed in the order first set, and without key sorting, the
      engine's names come first, followed by whichever of the two synthetic
      keys the engine did not already set. */
  lemma {:induction false} UnsortedKeyOrder(ex: Extraction, language: string, dataSource: string)
    ensures var engineMetadata := PutAll([], ex.properties);
      var withLanguage := Keys(engineMetadata)
                          + (if Lookup(engineMetadata, LanguageKey).None? then [LanguageKey] else []);
      Keys(AssembledMetadata(ex, language, dataSource))
        == withLanguage
           + (if Lookup(Put(engineMetadata, LanguageKey, language), DataSourceKey).None? then [DataSourceKey] else [])
  {
    var engineMetadata := PutAll([], ex.properties);
    PutKeyOrder(engineMetadata, LanguageKey, language);
    PutKeyOrder(Put(engineMetadata, LanguageKey, language), DataSourceKey, dataSource);
  }

  /** A parse fails exactly when the stream cannot be opened or the engine
      raises, and then with that error. */
  lemma ParseWithFailure(inputType: InputType, dataSource: string, keySort: bool,
                         maxContentLength: int, engine: Engine)
    ensures var r := ParseWith(inputType, dataSource, keySort, maxContentLength, engine);
      && (engine.openError(inputType, dataSource).Some? ==> r == Failure(engine.openError(inputType, dataSource).value))
      && (engine.openError(inputType, dataSource).None? ==>
            (r.Failure? <==> engine.parseToString(inputType, dataSource, maxContentLength).Failure?))
  {
  }

  /** The document's input type is the data source's classification, so
      `file?` holds exactly for existing files and `http?` for the rest. */
  lemma ParseDocumentInputType(dataSource: string, keySort: bool, maxContentLength: int,
                               fs: FileSystem, engine: Engine)
    requires ParseDocumentSpec(dataSource, keySort, maxContentLength, fs, engine).Success?
    ensures var res := ParseDocumentSpec(dataSource, keySort, maxContentLength, fs, engine).value;
      && (res.IsFile() <==> fs.isFile(dataSource))
      && (res.IsHttp() <==> !fs.isFile(dataSource) && fs.uriKind(dataSource) == HttpUri)
  {
  }
}
