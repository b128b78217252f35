/**
 * The parts of the Ollama client that decide what is sent and what is answered: the
 * system prompt chosen for a knowledge base, the conversion of prompt messages into
 * Ollama chat messages, and the reply for each way the request can end.
 */
module Ollama {
  import opened Optional
  import opened PyStr
  import opened PyJson
  import opened Seqs

  // ------------------------------------------------------------ the prompt

  /** The rules used when the knowledge base is empty: always answer that nothing is known. */
  const EmptyRules: string :=
    "\n" +
    "Anda adalah Aiwa, asisten AI dari Warna Warni Media.\n" +
    "\n" +
    "PERATURAN:\n" +
    "- Karena KNOWLEDGE BASE kosong, Anda WAJIB menjawab semua pertanyaan hanya dengan:\n" +
    "  \"Maaf, saya tidak memiliki informasi mengenai hal tersebut.\"\n"

  /** The rules used with a knowledge base. */
  const Rules: string :=
    "\n" +
    "    Anda adalah Aiwa, asisten AI dari Warna Warni Media.\n" +
    "\n" +
    "    \U{26A0}\U{FE0F} ATURAN PALING PENTING:\n" +
    "    - Jika pertanyaan pengguna TIDAK BISA dijawab menggunakan \"KNOWLEDGE BASE\", balas HANYA dengan:\n" +
    "    \"Maaf, saya tidak memiliki informasi mengenai hal tersebut.\"\n" +
    "    - Jangan memberikan informasi lain, penjelasan tambahan, atau sapaan. Ini adalah aturan mutlak.\n" +
    "\n" +
    "    \U{26A0}\U{FE0F} ATURAN UNTUK SAPAAN:\n" +
    "    - Jika pesan pengguna HANYA berupa sapaan sederhana (contoh: \"halo\", \"hai\", \"selamat pagi\"),\n" +
    "    balas HANYA dengan:\n" +
    "    \"Halo! Saya Aiwa, asisten AI dari Warna Warni Media. Saya siap membantu Anda dengan semangat warna-warni. Silahkan ajukan pertanyaan Anda \U{263A}\U{FE0F}\"\n" +
    "\n" +
    "    \U{26A0}\U{FE0F} ATURAN UNTUK PERTANYAAN DENGAN JAWABAN DI KNOWLEDGE BASE:\n" +
    "    - Berikan HANYA jawaban yang relevan dari KNOWLEDGE BASE.\n" +
    "    - Jangan ulangi pertanyaan pengguna.\n" +
    "    - Jangan tambahkan sapaan pembuka.\n" +
    "    - Jangan tambahkan penutup.\n" +
    "    - Jawaban HARUS langsung dimulai dengan isi dari knowledge base.\n" +
    "    - Jika jawaban terdiri dari beberapa poin, cukup tampilkan apa adanya sesuai KB.\n" +
    "\n" +
    "    Dengan kata lain:\n" +
    "    - Pertanyaan \U{2192} Jawaban langsung (tanpa pengulangan, tanpa sapaan)\n" +
    "    - Salam \U{2192} Salam khusus di atas\n" +
    "    - Pertanyaan di luar KB \U{2192} Balas dengan kalimat \"Maaf, saya tidak memiliki informasi mengenai hal tersebut.\"\n" +
    "    "

  /** The indentation the knowledge section's lines carry. */
  const SectionIndent := "                        "

  /** The marker line before the knowledge base, and the one after it. */
  const SectionHead := "\n" + SectionIndent + "--- KNOWLEDGE BASE ---\n" + SectionIndent
  const SectionTail := "\n" + SectionIndent + "----------------------\n" + SectionIndent

  /** The knowledge base between its two marker lines. */
  function KnowledgeSection(kb: string): (r: string)
    ensures |r| == |SectionHead| + |kb| + |SectionTail|
    ensures StartsWith(r, SectionHead) && EndsWith(r, SectionTail)
    ensures r[|SectionHead|..|r| - |SectionTail|] == kb
  {
    var r := SectionHead + kb + SectionTail;
    assert r[..|SectionHead|] == SectionHead;
    assert r[|r| - |SectionTail|..] == SectionTail;
    assert r[|SectionHead|..|r| - |SectionTail|] == kb;
    r
  }

  /**
   * The system text `build_aiwa_prompt` builds from its two rule texts: the empty-base
   * rules alone for an empty or blank knowledge base, else the rules, a newline and the
   * knowledge section.
   */
  function PromptText(rules: string, emptyRules: string, kb: string): (p: string)
    ensures AllSpace(kb) ==> p == emptyRules
    ensures !AllSpace(kb) ==> p == rules + "\n" + KnowledgeSection(kb)
  {
    if kb == [] || Strip(kb) == "" then emptyRules
    else rules + "\n" + KnowledgeSection(kb)
  }

  /** The system text of `build_aiwa_prompt`, with the rule texts above. */
  function SystemPrompt(kb: string): (p: string)
    ensures AllSpace(kb) ==> p == EmptyRules
    ensures !AllSpace(kb) ==> Contains(p, kb)
  {
    KnowledgeCarried(Rules, EmptyRules, kb, "");
    PromptText(Rules, EmptyRules, kb)
  }

  /** A knowledge base that is not blank is carried into the prompt verbatim; a blank one is not used at all. */
  lemma KnowledgeCarried(rules: string, emptyRules: string, kb: string, other: string)
    ensures !AllSpace(kb) ==> Contains(PromptText(rules, emptyRules, kb), kb)
    ensures AllSpace(kb) && AllSpace(other) ==> PromptText(rules, emptyRules, kb) == PromptText(rules, emptyRules, other)
  {
    if !AllSpace(kb) {
      var front := rules + "\n";
      ConcatAssoc(front, SectionHead + kb, SectionTail);
      ConcatAssoc(front, SectionHead, kb);
      Middle(front + SectionHead, kb, SectionTail);
      assert At(PromptText(rules, emptyRules, kb), kb, |front + SectionHead|);
    }
  }

  // ---------------------------------------------------------- the messages

  /** A prompt message: its LangChain type and its text. */
  datatype LcMessage = LcMessage(kind: string, content: string)

  /** A chat message of the Ollama API. */
  datatype ChatMessage = ChatMessage(role: string, content: string)

  /** The Ollama role of a LangChain message type; an unknown type is passed on as the role. */
  function RoleOf(kind: string): (role: string)
    ensures kind !in {"system", "human", "ai"} ==> role == kind
  {
    if kind == "system" then "system"
    else if kind == "human" then "user"
    else if kind == "ai" then "assistant"
    else kind
  }

  /** The LangChain type a chat role comes from. */
  function KindOf(role: string): string {
    if role == "user" then "human"
    else if role == "assistant" then "ai"
    else role
  }

  /** The three known types are told apart by their roles: the role gives the type back. */
  lemma RoleRoundTrip(kind: string)
    requires kind in {"system", "human", "ai"}
    ensures KindOf(RoleOf(kind)) == kind
    ensures RoleOf(kind) in {"system", "user", "assistant"}
  {
  }

  /** The chat message sent for one prompt message. */
  function Convert(m: LcMessage): (c: ChatMessage)
    ensures c.content == m.content
    ensures m.kind == "human" ==> c.role == "user"
    ensures m.kind == "ai" ==> c.role == "assistant"
    ensures m.kind != "human" && m.kind != "ai" ==> c.role == m.kind
  {
    ChatMessage(RoleOf(m.kind), m.content)
  }

  /** `lc_messages_to_ollama`: one chat message per prompt message, in order, with the same text. */
  method LcMessagesToOllama(messages: seq<LcMessage>) returns (converted: seq<ChatMessage>)
    ensures |converted| == |messages|
    ensures forall i :: 0 <= i < |messages| ==>
              converted[i].content == messages[i].content && converted[i].role == RoleOf(messages[i].kind)
  {
    converted := [];
    for i := 0 to |messages|
      invariant |converted| == i
      invariant forall k :: 0 <= k < i ==> converted[k] == Convert(messages[k])
    {
      var msg := messages[i];
      if msg.kind == "system" {
        converted := converted + [ChatMessage("system", msg.content)];
      } else if msg.kind == "human" {
        converted := converted + [ChatMessage("user", msg.content)];
      } else if msg.kind == "ai" {
        converted := converted + [ChatMessage("assistant", msg.content)];
      } else {
        converted := converted + [ChatMessage(msg.kind, msg.content)];
      }
    }
  }

  /** The prompt's messages for a question: the system text, then the user's message. */
  function PromptMessages(kb: string, userMessage: string): (ms: seq<LcMessage>)
    ensures |ms| == 2
    ensures Convert(ms[0]) == ChatMessage("system", SystemPrompt(kb))
    ensures Convert(ms[1]) == ChatMessage("user", userMessage)
  {
    [LcMessage("system", SystemPrompt(kb)), LcMessage("human", userMessage)]
  }

  /** The payload carries the system text under the system role and the question under the user role. */
  lemma PayloadMessages(kb: string, userMessage: string)
    ensures Convert(PromptMessages(kb, userMessage)[0]) == ChatMessage("system", SystemPrompt(kb))
    ensures Convert(PromptMessages(kb, userMessage)[1]) == ChatMessage("user", userMessage)
  {
  }

  // ------------------------------------------------------------- the reply

  /**
   * How the request ended: a response with its status and its body decoded as JSON
   * (`None` when it is not JSON), a timeout, no connection, or another exception.
   */
  datatype Outcome = Answered(status: int, body: Option<Json>) | TimedOut | Unreachable | Crashed

  const TechnicalReply := "Maaf, saya sedang mengalami masalah teknis. Silahkan coba lagi nanti!"
  const SlowReply := "Maaf, respons terlalu lama. Coba ulangi pertanyaan anda."
  const OfflineReply := "Maaf, saya sedang offline. Pastikan sistem sedang berjalan."
  const SystemErrorReply := "Maaf, terjadi kesalahan sistem. Silahkan coba lagi nanti!"

  /**
   * `result.get('message', {}).get('content', '')` for a decoded body, `None` where
   * Python would raise: a body that is not JSON or not an object, a message that is not
   * an object, or content that is not a string.
   */
  function ContentOf(body: Option<Json>): (c: Option<string>)
    ensures body.Some? && body.value.Obj? && "message" !in body.value.fields ==> c == Some("")
  {
    if body.None? || !body.value.Obj? then None
    else
      var message := GetOr(body.value.fields, "message", Obj(map[]));
      if !message.Obj? then None
      else
        var content := GetOr(message.fields, "content", Json.Str(""));
        if content.Str? then Some(content.s) else None
  }

  /**
   * The answer of `get_response`: the trimmed content of a 200 response, or the apology
   * for what went wrong; an exception while reading the reply gets the general one.
   */
  function Reply(o: Outcome): (r: string)
    ensures o.Answered? && o.status == 200 && ContentOf(o.body).Some? ==> r == Strip(ContentOf(o.body).value)
    ensures o.Answered? && o.status == 200 && ContentOf(o.body).None? ==> r == SystemErrorReply
    ensures o.Answered? && o.status != 200 ==> r == TechnicalReply
    ensures o.TimedOut? ==> r == SlowReply
    ensures o.Unreachable? ==> r == OfflineReply
    ensures o.Crashed? ==> r == SystemErrorReply
  {
    match o
    case Answered(status, body) =>
      if status == 200 then
        match ContentOf(body)
        case Some(content) => Strip(content)
        case None => SystemErrorReply
      else TechnicalReply
    case TimedOut => SlowReply
    case Unreachable => OfflineReply
    case Crashed => SystemErrorReply
  }

  /**
   * A model's answer comes back trimmed, and each failure has its own apology, none of
   * them empty, so a failure is told apart from an empty answer and from another failure.
   */
  lemma RepliesDistinct(o: Outcome, other: Outcome)
    ensures o.Answered? && o.status == 200 && ContentOf(o.body).Some? ==>
              Reply(o) == [] || (!IsSpace(Reply(o)[0]) && !IsSpace(Reply(o)[|Reply(o)| - 1]))
    ensures Failure(o) && Failure(other) && Reply(o) == Reply(other) ==> Kind(o) == Kind(other)
    ensures Failure(o) ==> Reply(o) != []
  {
    ApologyLengths();
  }

  /** The four apologies differ in length, so no two of them are equal. */
  lemma ApologyLengths()
    ensures |TechnicalReply| == 69 && |SlowReply| == 56 && |OfflineReply| == 59 && |SystemErrorReply| == 57
  {
  }

  /** The request did not produce a model answer. */
  predicate Failure(o: Outcome) {
    !(o.Answered? && o.status == 200 && ContentOf(o.body).Some?)
  }

  /** Which apology a failure gets: 0 technical, 1 too slow, 2 offline, 3 system error. */
  function Kind(o: Outcome): nat {
    match o
    case Answered(status, _) => if status != 200 then 0 else 3
    case TimedOut => 1
    case Unreachable => 2
    case Crashed => 3
  }
}
