/** The older descriptor parser of helpers/yamlParse.py: the same read rule, and an
    append that overwrites shared keys without asking. */
module LegacyYaml {
  import opened Wrappers
  import opened Documents
  import YamlStore

  /** `{**current, **data}`: every key of either side, the new value winning. */
  function OverwriteMerge(current: Doc, data: Doc): (r: Doc)
    ensures r.Keys == current.Keys + data.Keys
    ensures forall k :: k in data ==> r[k] == data[k]
    ensures forall k :: k in current && k !in data ==> r[k] == current[k]
  {
    current + data
  }

  /** Appending the same data twice writes what appending it once writes. */
  lemma OverwriteIdempotent(current: Doc, data: Doc)
    ensures OverwriteMerge(OverwriteMerge(current, data), data) == OverwriteMerge(current, data)
  {
  }

  /** On disjoint keys the two parsers write the same document. */
  lemma AgreesWhenDisjoint(current: Doc, data: Doc, answer: string -> string)
    requires current != map[] && current.Keys !! data.Keys
    ensures OverwriteMerge(current, data) == YamlStore.Merged(YamlStore.Loaded(Some(current)), data, answer)
  {
    assert YamlStore.Loaded(Some(current)) == current;
  }

  /** On a key both sides hold with different values they differ: the older parser
      takes the new value unasked, while the newer one keeps the old value unless the
      operator answers "2", and keeps no key that only the new data holds. */
  lemma DiffersOnSharedKey(current: Doc, data: Doc, answer: string -> string, k: string)
    requires k in current && k in data && current[k] != data[k] && answer(k) != "2"
    ensures OverwriteMerge(current, data)[k] == data[k]
    ensures YamlStore.Merged(current, data, answer)[k] == current[k]
    ensures YamlStore.Merged(current, data, answer).Keys == current.Keys
    ensures forall j :: j in data && j !in current ==>
      j in OverwriteMerge(current, data) && j !in YamlStore.Merged(current, data, answer)
  {
    assert k in current.Keys * data.Keys;
  }

  /** The older `YAMLParser` bound to one descriptor file (None: no file). */
  class LegacyYamlParser {
    var file: Option<Doc>

    constructor (contents: Option<Doc>)
      ensures file == contents
    {
      file := contents;
    }

    /** `read`: the same reading as the newer parser. */
    function Read(): (r: Option<Doc>)
      reads this
      ensures r.None? <==> file.None? || file.value == map[]
      ensures r.Some? ==> r == file
    {
      YamlStore.ReadDoc(file)
    }

    /** `append`: a non-mapping argument raises inside the `try` and gives False; so does
        a document that reads as None, since `{**None}` raises; otherwise the overwrite
        merge is written and the answer is True. */
    method Append(data: Value) returns (ok: bool)
      modifies this
      ensures ok == (data.Node? && YamlStore.ReadDoc(old(file)).Some?)
      ensures file == if ok then Some(OverwriteMerge(old(file).value, data.fields)) else old(file)
    {
      if !data.Node? {
        return false;
      }
      var current := Read();
      if current.None? {
        return false;
      }
      file := Some(OverwriteMerge(current.value, data.fields));
      ok := true;
    }
  }
}
