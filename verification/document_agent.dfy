/** The document node (document_agent.py): reads the first uploaded file
    with OCR, asks the language model to turn the text into JSON, and adds
    the text and the parsed JSON to the state. OCR, the model and the JSON
    parser are parameters. */
module DocumentAgent {
  import opened Base
  import opened Text
  import opened Json
  import opened AgentState

  /** The services the node calls. `parse` is `json.loads`, `None` where it
      raises. */
  datatype Services = Services(ocr: Json -> string, llm: string -> string, parse: string -> Option<Json>)

  const PromptHead: string :=
    "\nYou are a document understanding agent.\n\nConvert the following OCR text into clean, structured JSON.\nUse meaningful keys.\nIf a value is missing, use null.\n\nOCR Text:\n"
  const PromptTail: string := "\n\nReturn ONLY valid JSON.\n"

  /** The prompt embeds the OCR text between fixed instructions. */
  function Prompt(rawText: string): (p: string)
    ensures |p| == |PromptHead| + |rawText| + |PromptTail|
    ensures StartsWith(p, PromptHead) && EndsWith(p, PromptTail)
  {
    PromptHead + rawText + PromptTail
  }

  /** The OCR text is read back from a prompt by dropping the fixed parts. */
  function PromptText(p: string): string
  {
    if |p| < |PromptHead| + |PromptTail| then "" else p[|PromptHead|..|p| - |PromptTail|]
  }

  lemma PromptRoundTrip(rawText: string)
    ensures PromptText(Prompt(rawText)) == rawText
  {
  }

  /** `files[0]` on a truthy value: the first element of a list, the first
      character of a string; a dict has no key `0` and numbers and booleans
      cannot be subscripted. */
  function FirstFile(files: Json): (r: Result<Json, PyError>)
    requires Truthy(files)
    ensures files.JArr? ==> r == Success(files.items[0])
    ensures files.JStr? ==> r == Success(JStr([files.s[0]]))
    ensures files.JObj? ==> r == Failure(KeyError)
    ensures r.Success? <==> files.JArr? || files.JStr?
  {
    match files
    case JArr(items) => Success(items[0])
    case JStr(s) => Success(JStr([s[0]]))
    case JObj(_) => Failure(KeyError)
    case _ => Failure(TypeError)
  }

  /** What the node stores when the reply is not JSON. */
  function InvalidJson(response: string): (j: Json)
    ensures j.JObj?
    ensures Lookup(j.members, "error") == Some(JStr("Invalid JSON returned"))
    ensures Lookup(j.members, "raw") == Some(JStr(response))
  {
    JObj([("error", JStr("Invalid JSON returned")), ("raw", JStr(response))])
  }

  /** `document_agent`. */
  function Run(state: State, sv: Services): (r: Result<State, PyError>)
    ensures !Truthy(Get(state, "files", JArr([]))) ==> r == Success(state)
    ensures Truthy(Get(state, "files", JArr([]))) ==>
      (r.Success? <==> Get(state, "files", JArr([])).JArr? || Get(state, "files", JArr([])).JStr?)
    ensures r.Success? ==> state.Keys <= r.value.Keys
    ensures r.Success? ==> r.value.Keys - state.Keys <= {"raw_text", "extracted_json"}
    ensures r.Success? ==> forall k :: k in state && k != "raw_text" && k != "extracted_json" ==> r.value[k] == state[k]
  {
    var files := Get(state, "files", JArr([]));
    if !Truthy(files) then Success(state)
    else
      match FirstFile(files)
      case Failure(e) => Failure(e)
      case Success(first) =>
        var rawText := sv.ocr(first);
        var response := sv.llm(Prompt(rawText));
        var structured := match sv.parse(response) case Some(j) => j case None => InvalidJson(response);
        Success(state["raw_text" := JStr(rawText)]["extracted_json" := structured])
  }

  /** With files, the node reads exactly the first of them and stores its
      text and the parsed reply; an unparseable reply is kept in the error
      record. */
  lemma {:induction false} RunWithFiles(state: State, sv: Services, items: seq<Json>)
    requires "files" in state && state["files"] == JArr(items) && |items| > 0
    ensures Run(state, sv).Success?
    ensures Run(state, sv).value["raw_text"] == JStr(sv.ocr(items[0]))
    ensures var response := sv.llm(Prompt(sv.ocr(items[0])));
      Run(state, sv).value["extracted_json"]
        == (if sv.parse(response).Some? then sv.parse(response).value else InvalidJson(response))
  {
  }

  /** The graph writes the node's whole returned state over the current one,
      which leaves exactly the returned state. */
  lemma RunThenApply(state: State, sv: Services)
    requires Run(state, sv).Success?
    ensures Apply(state, Run(state, sv).value) == Run(state, sv).value
  {
  }

  /** Running the node again on its own output changes nothing more: the
      files are untouched and the two keys get the same values again. */
  lemma {:induction false} RunIdempotent(state: State, sv: Services)
    requires Run(state, sv).Success?
    ensures Run(Run(state, sv).value, sv) == Run(state, sv)
  {
    var s1 := Run(state, sv).value;
    var files := Get(state, "files", JArr([]));
    assert Get(s1, "files", JArr([])) == files;
    if Truthy(files) {
      assert s1["raw_text" := s1["raw_text"]]["extracted_json" := s1["extracted_json"]] == s1;
    }
  }
}
