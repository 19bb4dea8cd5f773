/** The dataset formatter (scripts/format_distillation.py): Alpaca and
    ShareGPT conversion of a loaded dataset, JSON lines, and the choice of
    format. The dataset is the list of objects `json.load` gives; `json.dumps`
    of an item is an oracle `dumps`. */
module FormatDistillation {
  import opened Text
  import opened JsonValue

  /** The Alpaca form of one item: instruction, context and response under
      the Alpaca names, each the empty string when absent. */
  function AlpacaItem(item: map<string, Val>): (r: map<string, Val>)
    ensures r.Keys == {"instruction", "input", "output"}
  {
    map[
      "instruction" := GetOr(item, "instruction", Str("")),
      "input" := GetOr(item, "context", Str("")),
      "output" := GetOr(item, "response", Str(""))]
  }

  /** One turn of a ShareGPT conversation. */
  function Turn(from: string, value: Val): Val {
    Obj(map["from" := Str(from), "value" := value])
  }

  /** The ShareGPT form of one item: its messages unchanged when it has
      them, otherwise a human turn with the instruction and a gpt turn with
      the response. */
  function ShareGptItem(item: map<string, Val>): (r: map<string, Val>)
    ensures r.Keys == {"conversations"}
    ensures "messages" !in item ==> r["conversations"].Arr? && |r["conversations"].items| == 2
  {
    if "messages" in item then map["conversations" := item["messages"]]
    else
      map["conversations" := Arr([
        Turn("human", GetOr(item, "instruction", Str(""))),
        Turn("gpt", GetOr(item, "response", Str("")))])]
  }

  /** `format_alpaca`: one Alpaca item per input item, in order. */
  method FormatAlpaca(data: seq<map<string, Val>>) returns (r: seq<map<string, Val>>)
    ensures |r| == |data|
    ensures forall i :: 0 <= i < |data| ==> r[i] == AlpacaItem(data[i])
  {
    r := [];
    for i := 0 to |data|
      invariant |r| == i
      invariant forall j :: 0 <= j < i ==> r[j] == AlpacaItem(data[j])
    {
      r := r + [AlpacaItem(data[i])];
    }
  }

  /** `format_sharegpt`: one conversation per input item, in order. */
  method FormatShareGpt(data: seq<map<string, Val>>) returns (r: seq<map<string, Val>>)
    ensures |r| == |data|
    ensures forall i :: 0 <= i < |data| ==> r[i] == ShareGptItem(data[i])
  {
    r := [];
    for i := 0 to |data|
      invariant |r| == i
      invariant forall j :: 0 <= j < i ==> r[j] == ShareGptItem(data[j])
    {
      r := r + [ShareGptItem(data[i])];
    }
  }

  /** `format_jsonl`: one encoded line per item, in order. */
  function FormatJsonl(data: seq<map<string, Val>>, dumps: Val -> string): (r: seq<string>)
    ensures |r| == |data|
    ensures forall i :: 0 <= i < |data| ==> r[i] == dumps(Obj(data[i]))
  {
    if data == [] then []
    else [dumps(Obj(data[0]))] + FormatJsonl(data[1..], dumps)
  }

  /** The formatted dataset `process` hands to `save_formatted_data`. */
  datatype Formatted =
    | AlpacaData(items: seq<map<string, Val>>)
    | ShareGptData(items: seq<map<string, Val>>)
    | JsonlData(lines: seq<string>)

  /** `process` after loading: the format type lowered as the constructor
      does, then the conversion it names, or the ValueError's message. */
  method Process(formatType: string, data: seq<map<string, Val>>, dumps: Val -> string)
    returns (r: Result<Formatted, string>)
    ensures Lower(formatType) == "alpaca" ==>
              r.Ok? && r.value.AlpacaData? && |r.value.items| == |data|
              && forall i :: 0 <= i < |data| ==> r.value.items[i] == AlpacaItem(data[i])
    ensures Lower(formatType) == "sharegpt" ==>
              r.Ok? && r.value.ShareGptData? && |r.value.items| == |data|
              && forall i :: 0 <= i < |data| ==> r.value.items[i] == ShareGptItem(data[i])
    ensures Lower(formatType) == "jsonl" ==> r == Ok(JsonlData(FormatJsonl(data, dumps)))
    ensures Lower(formatType) !in {"alpaca", "sharegpt", "jsonl"} ==>
              r == Err("Unknown format type: " + Lower(formatType))
  {
    var t := Lower(formatType);
    if t == "alpaca" {
      var items := FormatAlpaca(data);
      r := Ok(AlpacaData(items));
    } else if t == "sharegpt" {
      var items := FormatShareGpt(data);
      r := Ok(ShareGptData(items));
    } else if t == "jsonl" {
      r := Ok(JsonlData(FormatJsonl(data, dumps)));
    } else {
      r := Err("Unknown format type: " + t);
    }
  }

  /** Each Alpaca item has exactly the three Alpaca keys; a present source
      field is copied as it is, an absent one gives the empty string. */
  lemma AlpacaFields(item: map<string, Val>)
    ensures AlpacaItem(item).Keys == {"instruction", "input", "output"}
    ensures "instruction" in item ==> AlpacaItem(item)["instruction"] == item["instruction"]
    ensures "instruction" !in item ==> AlpacaItem(item)["instruction"] == Str("")
    ensures "context" in item ==> AlpacaItem(item)["input"] == item["context"]
    ensures "context" !in item ==> AlpacaItem(item)["input"] == Str("")
    ensures "response" in item ==> AlpacaItem(item)["output"] == item["response"]
    ensures "response" !in item ==> AlpacaItem(item)["output"] == Str("")
  {
  }

  /** A ShareGPT item is a single `conversations` entry: the messages
      untouched, or exactly two turns, human first, each defaulting to "". */
  lemma ShareGptFields(item: map<string, Val>)
    ensures ShareGptItem(item).Keys == {"conversations"}
    ensures "messages" in item ==> ShareGptItem(item)["conversations"] == item["messages"]
    ensures "messages" !in item ==>
              var c := ShareGptItem(item)["conversations"];
              && c.Arr? && |c.items| == 2
              && c.items[0].fields["from"] == Str("human") && c.items[1].fields["from"] == Str("gpt")
              && c.items[0].fields["value"] == (if "instruction" in item then item["instruction"] else Str(""))
              && c.items[1].fields["value"] == (if "response" in item then item["response"] else Str(""))
  {
  }
}
