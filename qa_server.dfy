/** The `get_knowledge_base` tool of the Indonesian knowledge-base server. */
module QaServer {
  import opened PyStr
  import opened PyJson
  import opened KbFormat
  import opened Seqs

  const Indonesian := Wording(
    // the header is written in two parts so that proofs can read its first character
    "Berikut adalah knowledge base " + "yang ditemukan:\n\n", "T", "J",
    "Pertanyaan tidak diketahui", "Jawaban tidak diketahui", "Isi knowledge base: ")

  /** The text every failure reply begins with. */
  const ErrorTag := "Error: "

  const NotFoundReply := ErrorTag + "File knowledge base tidak ditemukan."
  const FailurePrefix := ErrorTag + "Terjadi kesalahan - "
  const BadJsonReply := ErrorTag + "Format JSON di file knowledge base tidak valid."

  /**
   * The tool's answer for each way loading can end: the rendered text, or one of the
   * error texts, all of which begin with `Error: `.
   */
  function Reply(load: Load, show: Json -> string, dump: Json -> string): (r: string)
    ensures load.NotFound? ==> r == NotFoundReply
    ensures load.BadJson? ==> r == BadJsonReply
    ensures load.Failed? ==> r == FailurePrefix + load.message
    ensures load.Loaded? ==> StartsWith(r, Indonesian.header)
  {
    match load
    case Loaded(data) =>
      KbText(Indonesian, data, show, dump)
    case NotFound => NotFoundReply
    case BadJson => BadJsonReply
    case Failed(message) => FailurePrefix + message
  }

  /** A caller can tell the failures apart from a rendered knowledge base by the `Error: ` prefix. */
  lemma ErrorsMarked(load: Load, show: Json -> string, dump: Json -> string)
    ensures StartsWith(Reply(load, show, dump), ErrorTag) <==> !load.Loaded?
  {
    var r := Reply(load, show, dump);
    match load
    case Loaded(data) =>
      assert r[..|Indonesian.header|] == Indonesian.header;
      assert Indonesian.header[0] == 'B' && ErrorTag[0] == 'E';
      assert r[0] != ErrorTag[0];
    case Failed(message) =>
      ConcatAssoc(ErrorTag, "Terjadi kesalahan - ", load.message);
      PrefixOfConcat(ErrorTag, "Terjadi kesalahan - " + load.message);
    case NotFound =>
      PrefixOfConcat(ErrorTag, NotFoundReply[|ErrorTag|..]);
    case BadJson =>
      PrefixOfConcat(ErrorTag, BadJsonReply[|ErrorTag|..]);
  }

  /** `get_knowledge_base`, with the items rendered by the loop. */
  method GetKnowledgeBase(load: Load, show: Json -> string, dump: Json -> string) returns (r: string)
    ensures r == Reply(load, show, dump)
  {
    match load
    case Loaded(data) => r := Render(Indonesian, data, show, dump);
    case NotFound => r := NotFoundReply;
    case BadJson => r := BadJsonReply;
    case Failed(message) => r := FailurePrefix + message;
  }
}
