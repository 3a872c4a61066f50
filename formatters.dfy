/**
 * The formatter registry: a closed table from a one-character format code to
 * a renderer, the library each renderer needs loaded, and `get`, which checks
 * the code and loads that library. The renderers themselves (awesome_print,
 * inspect, to_json, JSON.pretty_generate, to_s, to_yaml) are library
 * serialisers; they are tags here, and what they print is a host function.
 */
module Formatters {
  import opened Wrappers
  import opened Values

  /** AWESOME_PRINT, INSPECT, JSON, PRETTY_JSON, TO_S and YAML. */
  datatype Renderer = AwesomePrint | Inspect | Json | PrettyJson | ToS | Yaml

  /** What the renderer tagged by the first argument prints for a value. */
  type RenderFn = (Renderer, Value) -> string

  /** OPTION_LOOKUP_TABLE. */
  const OptionLookupTable: map<string, Renderer> :=
    map["a" := AwesomePrint, "i" := Inspect, "j" := Json, "J" := PrettyJson, "t" := ToS, "y" := Yaml]

  /** REQUIRED_REQUIRE: the library a renderer needs, for those that need one. */
  const RequiredRequire: map<string, string> :=
    map["a" := "awesome_print", "j" := "json", "J" := "json", "y" := "yaml"]

  /** VALID_OPTION_CHARS, the table's keys in their declared order. */
  const ValidOptionChars: seq<string> := ["a", "i", "j", "J", "t", "y"]

  /**
   * `Formatters.get(option_char)`. `loaded` is the set of libraries already
   * required; on success the result also carries that set after the
   * `require`. A missing character (`format[i]` past the end is nil) is
   * passed as the empty string, which is no more valid than nil.
   */
  function Get(optionChar: string, loaded: set<string>): (r: Result<(Renderer, set<string>), Error>)
    ensures r.Success? <==> optionChar in OptionLookupTable
    ensures r.Success? ==> r.value.0 == OptionLookupTable[optionChar]
    ensures r.Success? && optionChar in RequiredRequire ==> r.value.1 == loaded + {RequiredRequire[optionChar]}
    ensures r.Success? && optionChar !in RequiredRequire ==> r.value.1 == loaded
    ensures r.Failure? ==> r.error == RuntimeError("Invalid option char: " + optionChar)
  {
    if optionChar !in ValidOptionChars then
      Failure(RuntimeError("Invalid option char: " + optionChar))
    else
      var req := if optionChar in RequiredRequire then Some(RequiredRequire[optionChar]) else None;
      var nowLoaded := if req.Some? then loaded + {req.value} else loaded;
      Success((OptionLookupTable[optionChar], nowLoaded))
  }

  /** VALID_OPTION_CHARS is exactly the key set of the table, without repeats. */
  lemma ValidOptionCharsAreTableKeys()
    ensures (set c | c in ValidOptionChars) == OptionLookupTable.Keys
    ensures |ValidOptionChars| == |OptionLookupTable|
  {
    assert OptionLookupTable.Keys == {"a", "i", "j", "J", "t", "y"};
  }

  /** Each of the six codes selects its own renderer and loads its own library. */
  lemma GetEachFormatter(loaded: set<string>)
    ensures Get("a", loaded) == Success((AwesomePrint, loaded + {"awesome_print"}))
    ensures Get("i", loaded) == Success((Inspect, loaded))
    ensures Get("j", loaded) == Success((Json, loaded + {"json"}))
    ensures Get("J", loaded) == Success((PrettyJson, loaded + {"json"}))
    ensures Get("t", loaded) == Success((ToS, loaded))
    ensures Get("y", loaded) == Success((Yaml, loaded + {"yaml"}))
  {
  }

  /** Any other code, `"x"` among them, raises and selects nothing. */
  lemma GetRejectsOtherCodes(c: string, loaded: set<string>)
    requires c !in {"a", "i", "j", "J", "t", "y"}
    ensures Get(c, loaded) == Failure(RuntimeError("Invalid option char: " + c))
  {
  }

  /** No two codes select the same renderer. */
  lemma LookupTableInjective(c1: string, c2: string)
    requires c1 in OptionLookupTable && c2 in OptionLookupTable
    requires OptionLookupTable[c1] == OptionLookupTable[c2]
    ensures c1 == c2
  {
  }

  /** The codes that need a library are a, j, J and y, all of them valid codes. */
  lemma RequiredRequireKeys()
    ensures RequiredRequire.Keys == {"a", "j", "J", "y"}
    ensures RequiredRequire.Keys <= OptionLookupTable.Keys
  {
  }

  /** After a successful `get`, the renderer's library (if any) is loaded and
      nothing that was loaded before is dropped. */
  lemma GetLoadsRequiredLibrary(c: string, loaded: set<string>)
    requires Get(c, loaded).Success?
    ensures loaded <= Get(c, loaded).value.1
    ensures c in RequiredRequire ==> RequiredRequire[c] in Get(c, loaded).value.1
    ensures c == "i" || c == "t" ==> Get(c, loaded).value.1 == loaded
  {
  }
}
