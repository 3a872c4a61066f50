/**
 * The ParseResult record: everything known about one parsed document, with
 * the `file?`, `http?` and `content_and_metadata_hash` methods.
 */
module ParseResults {
  import opened Wrappers
  import opened Values
  import opened Assoc

  /** The kinds of data source the parser accepts (`:file` and `:http`). */
  datatype InputType = File | Http

  /**
   * The keyword struct. `metadata` and `metadataJava` are ordered key/value
   * lists (a Ruby Hash; a snapshot of the Tika Metadata object). Only
   * `contentType` and `inputType` can be nil in the model: the parser always
   * fills the other fields.
   */
  datatype ParseResult = ParseResult(
    content: string,
    metadata: seq<(string, string)>,
    metadataJava: seq<(string, string)>,
    contentType: Option<string>,
    language: string,
    inputType: Option<InputType>,
    dataSource: string,
    maxContentLength: int)
  {
    /** `file?` */
    predicate IsFile(): (b: bool)
      ensures b ==> inputType.Some? && inputType != Some(Http)
      ensures inputType == Some(File) ==> b
    {
      inputType == Some(File)
    }

    /** `http?` */
    predicate IsHttp(): (b: bool)
      ensures b ==> inputType.Some? && inputType != Some(File)
      ensures inputType == Some(Http) ==> b
    {
      inputType == Some(Http)
    }

    /** `content_and_metadata_hash`: `{ content: content, metadata: metadata }`. */
    function ContentAndMetadataHash(): (h: Value)
      ensures h.Hash? && Keys(h.entries) == [Sym("content"), Sym("metadata")]
      ensures Lookup(h.entries, Sym("content")) == Some(Str(content))
      ensures Lookup(h.entries, Sym("metadata")) == Some(MetadataValue(metadata))
    {
      var entries := [(Sym("content"), Str(content)), (Sym("metadata"), MetadataValue(metadata))];
      assert Keys(entries[1..]) == [Sym("metadata")] by { assert entries[1..][1..] == []; }
      Hash(entries)
    }
  }

  /** A String-to-String Hash as a Ruby value. */
  function MetadataValue(m: seq<(string, string)>): (v: Value)
    ensures v.Hash? && |v.entries| == |m|
    ensures forall i :: 0 <= i < |m| ==> v.entries[i] == (Str(m[i].0), Str(m[i].1))
  {
    Hash(seq(|m|, i requires 0 <= i < |m| => (Str(m[i].0), Str(m[i].1))))
  }

  /** `file?` and `http?` answer exactly for their own input type, never both,
      and both answer false for a record built without an input type. */
  lemma InputTypePredicates(r: ParseResult)
    ensures r.IsFile() <==> r.inputType == Some(File)
    ensures r.IsHttp() <==> r.inputType == Some(Http)
    ensures !(r.IsFile() && r.IsHttp())
    ensures r.inputType.None? ==> !r.IsFile() && !r.IsHttp()
  {
  }
}
