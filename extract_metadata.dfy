/** `extract_metadata` (scripts/extract_metadata.py): the character record
    built from the raw character data. `source` is the input path as
    `str(Path(input_path))` writes it. */
module ExtractMetadata {
  import opened JsonValue

  /** The seven top-level keys of the extracted metadata. */
  const MetadataKeys: set<string> :=
    {"character_name", "personality_traits", "dialogue_examples", "background",
     "speaking_style", "relationships", "metadata"}

  /** `extract_metadata`: always exactly the seven keys. */
  function Extract(data: map<string, Val>, source: string): (r: map<string, Val>)
    ensures r.Keys == MetadataKeys
  {
    map[
      "character_name" := GetOr(data, "name", Str("Unknown")),
      "personality_traits" := GetOr(data, "personality", Arr([])),
      "dialogue_examples" := GetOr(data, "dialogue_samples", Arr([])),
      "background" := GetOr(data, "background", Str("")),
      "speaking_style" := GetOr(data, "speaking_style", Obj(map[])),
      "relationships" := GetOr(data, "relationships", Obj(map[])),
      "metadata" := Obj(map["version" := Str("1.0"), "extraction_source" := Str(source)])]
  }

  /** Each field is the raw field it is read from, copied as it is, or its
      default when the raw data lacks it; the nested metadata records the
      version and the input path. */
  lemma ExtractFields(data: map<string, Val>, source: string)
    ensures var r := Extract(data, source);
    && r["character_name"] == (if "name" in data then data["name"] else Str("Unknown"))
    && r["personality_traits"] == (if "personality" in data then data["personality"] else Arr([]))
    && r["dialogue_examples"] == (if "dialogue_samples" in data then data["dialogue_samples"] else Arr([]))
    && r["background"] == (if "background" in data then data["background"] else Str(""))
    && r["speaking_style"] == (if "speaking_style" in data then data["speaking_style"] else Obj(map[]))
    && r["relationships"] == (if "relationships" in data then data["relationships"] else Obj(map[]))
    && r["metadata"] == Obj(map["version" := Str("1.0"), "extraction_source" := Str(source)])
  {
  }

  /** The input keys the extraction reads. */
  const SourceKeys: set<string> :=
    {"name", "personality", "dialogue_samples", "background", "speaking_style", "relationships"}

  /** Inputs that agree on the six keys read give the same metadata: every
      other input key is ignored. */
  lemma IgnoresOtherKeys(a: map<string, Val>, b: map<string, Val>, source: string)
    requires forall k :: k in SourceKeys ==> (k in a <==> k in b)
    requires forall k :: k in SourceKeys && k in a ==> a[k] == b[k]
    ensures Extract(a, source) == Extract(b, source)
  {
    var ra, rb := Extract(a, source), Extract(b, source);
    assert "name" in SourceKeys && "personality" in SourceKeys && "dialogue_samples" in SourceKeys;
    assert "background" in SourceKeys && "speaking_style" in SourceKeys && "relationships" in SourceKeys;
    forall k | k in ra ensures ra[k] == rb[k] {
    }
  }
}
