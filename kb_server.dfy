/** The `get_knowledge_base` tool of the English knowledge-base server. */
module KbServer {
  import opened PyStr
  import opened PyJson
  import opened KbFormat
  import opened Seqs

  const English := Wording(
    "Here is the retrieved knowledge base:\n\n", "Q", "A",
    "Unknown question", "Unknown answer", "Knowledge base content: ")

  /** The text every failure reply begins with. */
  const ErrorTag := "Error: "

  const NotFoundReply := ErrorTag + "Knowledge base file not found"
  const FailurePrefix := ErrorTag
  const BadJsonReply := ErrorTag + "Invalid JSON in knowledge base file"

  /**
   * The tool's answer for each way loading can end: the rendered text, or one of the
   * error texts, all of which begin with `Error: `.
   */
  function Reply(load: Load, show: Json -> string, dump: Json -> string): (r: string)
    ensures load.NotFound? ==> r == NotFoundReply
    ensures load.BadJson? ==> r == BadJsonReply
    ensures load.Failed? ==> r == FailurePrefix + load.message
    ensures load.Loaded? ==> StartsWith(r, English.header)
  {
    match load
    case Loaded(data) =>
      KbText(English, data, show, dump)
    case NotFound => NotFoundReply
    case BadJson => BadJsonReply
    case Failed(message) => FailurePrefix + message
  }

  /** A caller can tell the failures apart from a rendered knowledge base by the `Error: ` prefix. */
  lemma ErrorsMarked(load: Load, show: Json -> string, dump: Json -> string)
    ensures StartsWith(Reply(load, show, dump), ErrorTag) <==> !load.Loaded?
  {
    var r := Reply(load, show, dump);
    match load
    case Loaded(data) =>
      assert r[..|English.header|] == English.header;
      assert English.header[0] == 'H' && ErrorTag[0] == 'E';
      assert r[0] != ErrorTag[0];
    case Failed(message) =>
      PrefixOfConcat(ErrorTag, load.message);
    case NotFound =>
      PrefixOfConcat(ErrorTag, NotFoundReply[|ErrorTag|..]);
    case BadJson =>
      PrefixOfConcat(ErrorTag, BadJsonReply[|ErrorTag|..]);
  }

  /** `get_knowledge_base`, with the items rendered by the loop. */
  method GetKnowledgeBase(load: Load, show: Json -> string, dump: Json -> string) returns (r: string)
    ensures r == Reply(load, show, dump)
  {
    match load
    case Loaded(data) => r := Render(English, data, show, dump);
    case NotFound => r := NotFoundReply;
    case BadJson => r := BadJsonReply;
    case Failed(message) => r := FailurePrefix + message;
  }
}
