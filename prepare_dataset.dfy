/** The dataset preparation (scripts/prepare_dataset.py): instruction and
    response pairs and the conversation template built from extracted
    character metadata. An f-string formats a value with `str`; a string
    formats as itself and every other value through the oracle `str`. */
module PrepareDataset {
  import opened Text
  import opened JsonValue
  import opened ExtractMetadata

  /** How `f"{v}"` writes a value. */
  function Display(v: Val, str: Val -> string): string {
    if v.Str? then v.s else str(v)
  }

  /** The character name: `metadata.get("character_name", "Character")`. */
  function CharName(metadata: map<string, Val>, str: Val -> string): string {
    Display(GetOr(metadata, "character_name", Str("Character")), str)
  }

  /** What `", ".join(personality)` iterates over: the strings of a list, or
      the characters of a string; `None` where Python raises TypeError. */
  function TraitNames(v: Val): Option<seq<string>> {
    match v
    case Arr(items) =>
      if forall i :: 0 <= i < |items| ==> items[i].Str? then Some(seq(|items|, i requires 0 <= i < |items| => items[i].s))
      else None
    case Str(s) => Some(seq(|s|, i requires 0 <= i < |s| => [s[i]]))
    case _ => None
  }

  /** What `dialogue_samples[:5]` iterates over: up to five elements of a
      list, or up to five characters of a string (each then a string value);
      `None` where slicing raises TypeError. */
  function FirstSamples(v: Val): Option<seq<Val>> {
    match v
    case Arr(items) => Some(if |items| <= 5 then items else items[..5])
    case Str(s) =>
      var t := if |s| <= 5 then s else s[..5];
      Some(seq(|t|, i requires 0 <= i < |t| => Str([t[i]])))
    case _ => None
  }

  /** `{"instruction": ..., "response": ...}` */
  function Pair(instruction: string, response: Val): map<string, Val> {
    map["instruction" := Str(instruction), "response" := response]
  }

  function PersonalityPair(name: string, traits: seq<string>): map<string, Val> {
    Pair("Describe " + name + "'s personality.",
         Str(name + "'s personality includes: " + Join(traits, ", ") + "."))
  }

  function BackgroundPair(name: string, background: Val): map<string, Val> {
    Pair("Tell me about " + name + "'s background.", background)
  }

  /** A dialogue pair from a sample object. */
  function DialoguePair(name: string, sample: map<string, Val>): map<string, Val> {
    Pair("How would " + name + " respond in this situation?", GetOr(sample, "text", Str("")))
      ["context" := GetOr(sample, "context", Str(""))]
  }

  /** `generate_instruction_pairs`: the personality pair when there are
      traits, the background pair when there is a background, and one pair
      each for the first five dialogue samples, in that order. `Err` is the
      exception Python raises for traits it cannot join, dialogue samples
      it cannot slice, or a sample that is not an object. */
  method GenerateInstructionPairs(metadata: map<string, Val>, str: Val -> string)
    returns (r: Result<seq<map<string, Val>>, string>)
    ensures var name := CharName(metadata, str);
      var personality := GetOr(metadata, "personality_traits", Arr([]));
      var background := GetOr(metadata, "background", Str(""));
      var samples := FirstSamples(GetOr(metadata, "dialogue_examples", Arr([])));
      && (r.Ok? <==>
            (Truthy(personality) ==> TraitNames(personality).Some?)
            && samples.Some? && (forall i :: 0 <= i < |samples.value| ==> samples.value[i].Obj?))
      && (r.Ok? ==>
            var pairs := r.value;
            var p := if Truthy(personality) then 1 else 0;
            var b := if Truthy(background) then 1 else 0;
            && |pairs| == p + b + |samples.value|
            && |samples.value| <= 5
            && (p == 1 ==> pairs[0] == PersonalityPair(name, TraitNames(personality).value))
            && (b == 1 ==> pairs[p] == BackgroundPair(name, background))
            && (forall i :: 0 <= i < |samples.value| ==>
                  pairs[p + b + i] == DialoguePair(name, samples.value[i].fields)))
  {
    var name := CharName(metadata, str);
    var personality := GetOr(metadata, "personality_traits", Arr([]));
    var background := GetOr(metadata, "background", Str(""));
    var pairs: seq<map<string, Val>> := [];
    if Truthy(personality) {
      var traits := TraitNames(personality);
      if traits.None? {
        return Err("TypeError");
      }
      pairs := pairs + [PersonalityPair(name, traits.value)];
    }
    if Truthy(background) {
      pairs := pairs + [BackgroundPair(name, background)];
    }
    var samples := FirstSamples(GetOr(metadata, "dialogue_examples", Arr([])));
    if samples.None? {
      return Err("TypeError");
    }
    var s := samples.value;
    var head := pairs;
    for i := 0 to |s|
      invariant |pairs| == |head| + i && pairs[..|head|] == head
      invariant forall j :: 0 <= j < i ==> s[j].Obj? && pairs[|head| + j] == DialoguePair(name, s[j].fields)
    {
      if !s[i].Obj? {
        return Err("AttributeError");
      }
      pairs := pairs + [DialoguePair(name, s[i].fields)];
    }
    r := Ok(pairs);
  }

  /** `generate_conversation_dataset`: exactly one conversation, a user
      greeting and the character's answer, carrying the name and speaking
      style as metadata. */
  method GenerateConversationDataset(metadata: map<string, Val>, str: Val -> string)
    returns (r: seq<map<string, Val>>)
    ensures var name := CharName(metadata, str);
      && |r| == 1 && r[0].Keys == {"messages", "metadata"}
      && r[0]["messages"] == Arr([
           Obj(map["role" := Str("user"), "content" := Str("Hi there! How are you doing?")]),
           Obj(map["role" := Str("assistant"),
                   "content" := Str("Hello! I'm " + name + ", and I'm doing well, thanks for asking!")])])
      && r[0]["metadata"] == Obj(map["character" := GetOr(metadata, "character_name", Str("Character")),
                                     "style" := GetOr(metadata, "speaking_style", Obj(map[]))])
  {
    var name := CharName(metadata, str);
    var charName := GetOr(metadata, "character_name", Str("Character"));
    var style := GetOr(metadata, "speaking_style", Obj(map[]));
    var conversations: seq<map<string, Val>> := [];
    var base := [map[
      "messages" := Arr([
        Obj(map["role" := Str("user"), "content" := Str("Hi there! How are you doing?")]),
        Obj(map["role" := Str("assistant"),
                "content" := Str("Hello! I'm " + name + ", and I'm doing well, thanks for asking!")])]),
      "metadata" := Obj(map["character" := charName, "style" := style])]];
    conversations := conversations + base;
    r := conversations;
  }

  /** Without a `character_name` the pairs speak of "Character"; on
      metadata from the extractor the name is always the extracted one
      ("Unknown" when the raw data has none). */
  lemma NameDefaults(metadata: map<string, Val>, data: map<string, Val>, source: string, str: Val -> string)
    ensures "character_name" !in metadata ==> CharName(metadata, str) == "Character"
    ensures CharName(Extract(data, source), str) ==
              Display(if "name" in data then data["name"] else Str("Unknown"), str)
  {
  }
}
