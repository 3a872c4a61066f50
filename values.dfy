/**
 * The Ruby-level values the command line renders, the exceptions the core
 * raises, Kernel#puts, and the filesystem queries the core asks of its host.
 */
module Values {
  import opened Wrappers

  /** A Ruby object as a formatter sees it: nil, a String, a Symbol, a Hash
      (insertion-ordered) or an Array. */
  datatype Value =
    | Nil
    | Str(s: string)
    | Sym(name: string)
    | Hash(entries: seq<(Value, Value)>)
    | Array(items: seq<Value>)

  /** The exceptions raised by the modelled code or by the foreign calls it makes. */
  datatype Error =
    | IOError(message: string)
    | InvalidURIError(source: string)
    | RuntimeError(message: string)
    | JavaError(message: string)

  /** nil or a String, as read from a Hash lookup. */
  function OptStr(o: Option<string>): (v: Value)
    ensures o.None? ==> v == Nil
    ensures o.Some? ==> v == Str(o.value)
  {
    match o
    case None => Nil
    case Some(s) => Str(s)
  }

  /** What Kernel#puts writes for one String: the string, plus a newline
      unless it already ends with one. */
  function Puts(s: string): (w: string)
    ensures |w| > 0 && w[|w| - 1] == '\n'
    ensures |w| == if |s| > 0 && s[|s| - 1] == '\n' then |s| else |s| + 1
    ensures w[..|s|] == s
  {
    if |s| > 0 && s[|s| - 1] == '\n' then s else s + "\n"
  }

  /** What URI(s) makes of a string: a URI::HTTP (which includes URI::HTTPS),
      some other kind of URI, or an InvalidURIError. */
  datatype UriKind = HttpUri | OtherUri | InvalidUri

  /** The host's answers to the filesystem and URI queries the core makes
      (File.file?, File.directory?, Dir.glob, URI()). */
  datatype FileSystem = FileSystem(
    isFile: string -> bool,
    isDirectory: string -> bool,
    glob: string -> seq<string>,
    uriKind: string -> UriKind)
}
