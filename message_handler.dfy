/**
 * The background task behind every accepted text message: keyword routing to the image
 * and document handlers, otherwise one turn with the agent, the conversation update, and
 * the in-flight id released whatever happens.
 */
module MessageHandler {
  import opened Optional
  import opened PyStr
  import opened WhatsApp
  import opened Db
  import opened Startup
  import opened Seqs
  import FileHandler
  import ImageHandler

  // ------------------------------------------------------------ agent result

  /** The `content` attribute of a message object: absent, a string, or something else. */
  datatype Content = NoContent | TextContent(text: string) | OtherContent

  datatype AgentMessage = AgentMessage(content: Content)

  /** The value under `"messages"`: a list of message objects, or some other value. */
  datatype MessagesValue = MessageList(items: seq<AgentMessage>) | NotAList

  /** What `agent.ainvoke` returns: a non-dict, or a dict with or without `"messages"`. */
  datatype AgentResult = NotADict | ResultDict(messages: Option<MessagesValue>)

  /** The agent call: it returns a result or raises. */
  datatype AgentCall = Returned(result: AgentResult) | Raised

  const Think := "</think>"

  /** The text of the last message, when the result has one that is a string. */
  function LastText(result: AgentResult): (r: Option<string>)
    ensures r.Some? <==> (result.ResultDict? && result.messages.Some? && result.messages.value.MessageList? &&
                          result.messages.value.items != [] &&
                          result.messages.value.items[|result.messages.value.items| - 1].content.TextContent?)
    ensures r.Some? ==> r.value == result.messages.value.items[|result.messages.value.items| - 1].content.text
  {
    match result
    case ResultDict(Some(MessageList(items))) =>
      if items != [] && items[|items| - 1].content.TextContent? then Some(items[|items| - 1].content.text)
      else None
    case _ => None
  }

  /**
   * The cleaning step of `extract_clean_response`: everything up to and including the
   * first `</think>` dropped, then stripped; `None` when nothing is left.
   */
  function CleanReply(content: string): (reply: Option<string>)
    ensures reply.Some? ==> reply.value != "" && reply == Some(Strip(reply.value))
    ensures !Contains(content, Think) ==>
              reply == (if Strip(content) == "" then None else Some(Strip(content)))
  {
    var kept := AfterThink(content);
    var clean := Strip(kept);
    StripIdempotent(kept);
    if clean != "" then Some(clean) else None
  }

  /** The text after the first `</think>`, or all of it when there is none. */
  function AfterThink(content: string): (kept: string)
    ensures !Contains(content, Think) ==> kept == content
    ensures Contains(content, Think) ==> |kept| <= |content| - |Think|
  {
    match SplitOnce(content, Think)
    case None => content
    case Some((_, post)) => post
  }

  /** `extract_clean_response`: the cleaned text of the last message, if it has one. */
  function ExtractCleanResponse(result: AgentResult): (reply: Option<string>)
    ensures reply.Some? ==> LastText(result).Some? && reply.value != "" && reply.value == Strip(reply.value)
  {
    match LastText(result)
    case None => None
    case Some(content) => CleanReply(content)
  }

  /**
   * A reply exactly when the result is a dict whose `messages` is a non-empty list, the
   * last message's content is a string, and something is left of it once the text up to
   * the first `</think>` is dropped and the rest stripped; the reply is that rest.
   */
  lemma CleanResponseCases(result: AgentResult)
    ensures var reply := ExtractCleanResponse(result);
            (reply.Some? <==>
              (result.ResultDict? && result.messages.Some? && result.messages.value.MessageList? &&
               result.messages.value.items != [] &&
               result.messages.value.items[|result.messages.value.items| - 1].content.TextContent? &&
               Strip(AfterThink(result.messages.value.items[|result.messages.value.items| - 1].content.text)) != "")) &&
            (reply.Some? ==>
              reply.value == Strip(AfterThink(result.messages.value.items[|result.messages.value.items| - 1].content.text)))
  {
    match LastText(result)
    case None =>
    case Some(content) => CleanReplyIs(content);
  }

  lemma CleanReplyIs(content: string)
    ensures CleanReply(content) == if Strip(AfterThink(content)) != "" then Some(Strip(AfterThink(content))) else None
  {
  }

  /** No proper suffix of `</think>` is also a prefix of it: only its first character is `<`. */
  lemma ThinkBorderFree(pre: string)
    requires !Contains(pre, Think)
    ensures !Contains(pre + Think[..|Think| - 1], Think)
  {
    var q := pre + Think[..|Think| - 1];
    forall j | 0 <= j <= |q| - |Think| ensures !At(q, Think, j) {
      if j + |Think| <= |pre| {
        assert q[j..j + |Think|] == pre[j..j + |Think|];
        assert !At(pre, Think, j);
      } else {
        var k := |pre| - j;
        assert 1 <= k < |Think|;
        assert q[j..j + |Think|][k] == q[|pre|] == '<';
        assert Think[k] != '<';
      }
    }
  }

  /**
   * Everything up to the first `</think>` is dropped, and only that: text after it,
   * later `</think>` tags included, is kept.
   */
  lemma ExtractAfterThink(result: AgentResult, pre: string, post: string)
    requires LastText(result) == Some(pre + Think + post) && !Contains(pre, Think)
    ensures ExtractCleanResponse(result) == if Strip(post) == "" then None else Some(Strip(post))
  {
    ThinkAfter(pre, post);
  }

  lemma ThinkAfter(pre: string, post: string)
    requires !Contains(pre, Think)
    ensures CleanReply(pre + Think + post) == if Strip(post) == "" then None else Some(Strip(post))
  {
    ThinkSplit(pre, post);
    var content := pre + Think + post;
    assert content != "" by { assert |content| >= |Think|; }
    CleanAfterSplit(content, post);
  }

  lemma CleanAfterSplit(content: string, post: string)
    requires content != "" && SplitOnce(content, Think).Some? && SplitOnce(content, Think).value.1 == post
    ensures CleanReply(content) == if Strip(post) == "" then None else Some(Strip(post))
  {
    var pre := SplitOnce(content, Think).value.0;
    assert SplitOnce(content, Think) == Some((pre, post));
  }

  /** The first `</think>` of `pre + </think> + post` is the one after `pre`. */
  lemma ThinkSplit(pre: string, post: string)
    requires !Contains(pre, Think)
    ensures SplitOnce(pre + Think + post, Think) == Some((pre, post))
  {
    ThinkBorderFree(pre);
    SplitOnceJoin(pre, Think, post);
  }

  const Fallback := "Sorry, the system could not process your request."
  const Apology := "Sorry, the system is experiencing issues. Please try again later."

  /**
   * The reply text: the cleaned agent answer, or the fallback sentence. A cleaned answer
   * is never empty, so Python's falsy test on it is the test for `None`.
   */
  function AgentReply(result: AgentResult): (r: string)
    ensures r != ""
    ensures ExtractCleanResponse(result).Some? ==> r == ExtractCleanResponse(result).value
    ensures ExtractCleanResponse(result).None? ==> r == Fallback
  {
    ExtractCleanResponse(result).GetOr(Fallback)
  }

  // ----------------------------------------------------------------- routing

  datatype Route = ListImages | ImageRequest | ListDocuments | DocumentRequest | AskAgent

  const ListImageKeys: seq<string> := ["daftar gambar", "list gambar", "gambar tersedia", "lihat gambar"]
  const ImageKeys: seq<string> := ["gambar", "image", "foto"]
  const ListDocumentKeys: seq<string> := ["daftar dokumen", "list dokumen", "dokumen tersedia"]
  const DocumentKeys: seq<string> := ["pdf", "dokumen", "file", "unduh", "download"]

  /** Keyword routing on the lower-cased text; the first matching group wins. */
  function RouteOf(text: string): (r: Route)
    ensures r == ListImages <==> ContainsAny(Lower(text), ListImageKeys)
    ensures r == ImageRequest <==>
              !ContainsAny(Lower(text), ListImageKeys) && ContainsAny(Lower(text), ImageKeys)
    ensures r == ListDocuments <==>
              !ContainsAny(Lower(text), ImageKeys) && ContainsAny(Lower(text), ListDocumentKeys)
    ensures r == DocumentRequest <==>
              !ContainsAny(Lower(text), ImageKeys) && !ContainsAny(Lower(text), ListDocumentKeys) &&
              ContainsAny(Lower(text), DocumentKeys)
    ensures r == AskAgent <==>
              !ContainsAny(Lower(text), ImageKeys) && !ContainsAny(Lower(text), DocumentKeys)
  {
    var t := Lower(text);
    ListKeysImply(t);
    if ContainsAny(t, ListImageKeys) then ListImages
    else if ContainsAny(t, ImageKeys) then ImageRequest
    else if ContainsAny(t, ListDocumentKeys) then ListDocuments
    else if ContainsAny(t, DocumentKeys) then DocumentRequest
    else AskAgent
  }

  /**
   * Every list keyword contains a request keyword ("gambar", "dokumen"), so the list
   * checks must come first: a list request would otherwise be taken for a search.
   */
  lemma ListKeysImply(t: string)
    ensures ContainsAny(t, ListImageKeys) ==> ContainsAny(t, ImageKeys)
    ensures ContainsAny(t, ListDocumentKeys) ==> ContainsAny(t, DocumentKeys)
  {
    ListImageKeysImply(t);
    ListDocumentKeysImply(t);
  }

  lemma ListImageKeysImply(t: string)
    ensures ContainsAny(t, ListImageKeys) ==> ContainsAny(t, ImageKeys)
  {
    if ContainsAny(t, ListImageKeys) {
      var k :| 0 <= k < |ListImageKeys| && Contains(t, ListImageKeys[k]);
      var key := ListImageKeys[k];
      if k == 0 {
        assert key == "daftar " + "gambar" + "";
        ContainsMiddle("daftar ", "gambar", "");
      } else if k == 1 {
        assert key == "list " + "gambar" + "";
        ContainsMiddle("list ", "gambar", "");
      } else if k == 2 {
        assert key == "" + "gambar" + " tersedia";
        ContainsMiddle("", "gambar", " tersedia");
      } else {
        assert key == "lihat " + "gambar" + "";
        ContainsMiddle("lihat ", "gambar", "");
      }
      ContainsTrans(t, key, "gambar");
      assert Contains(t, ImageKeys[0]);
    }
  }

  lemma ListDocumentKeysImply(t: string)
    ensures ContainsAny(t, ListDocumentKeys) ==> ContainsAny(t, DocumentKeys)
  {
    if ContainsAny(t, ListDocumentKeys) {
      var k :| 0 <= k < |ListDocumentKeys| && Contains(t, ListDocumentKeys[k]);
      var key := ListDocumentKeys[k];
      if k == 0 {
        assert key == "daftar " + "dokumen" + "";
        ContainsMiddle("daftar ", "dokumen", "");
      } else if k == 1 {
        assert key == "list " + "dokumen" + "";
        ContainsMiddle("list ", "dokumen", "");
      } else {
        assert key == "" + "dokumen" + " tersedia";
        ContainsMiddle("", "dokumen", " tersedia");
      }
      ContainsTrans(t, key, "dokumen");
      assert Contains(t, DocumentKeys[1]);
    }
  }

  /** A request naming both a document and an image goes to the image handler. */
  lemma ImageBeatsDocument()
    ensures RouteOf("gambar file") == ImageRequest
  {
    GambarFileLower();
    GambarFileKeys();
  }

  lemma GambarFileLower()
    ensures Lower("gambar file") == "gambar file"
  {
  }

  lemma GambarFileKeys()
    ensures ContainsAny("gambar file", ImageKeys) && !ContainsAny("gambar file", ListImageKeys)
  {
    var t := "gambar file";
    assert At(t, "gambar", 0);
    assert Contains(t, ImageKeys[0]);
    GambarFileNoList();
  }

  lemma GambarFileNoList()
    ensures !ContainsAny("gambar file", ListImageKeys)
  {
    var t := "gambar file";
    forall k | 0 <= k < |ListImageKeys| ensures !Contains(t, ListImageKeys[k]) {
      var i := if k == 0 then 0 else if k == 2 then 7 else 2;
      assert ListImageKeys[k][i] in "dsth";
      Absent(t, ListImageKeys[k], ListImageKeys[k][i]);
    }
  }

  /** Small talk reaches the agent. */
  lemma SmallTalkAsksAgent()
    ensures RouteOf("Halo") == AskAgent
  {
    var t := "halo";
    assert Lower("Halo") == t;
    assert !ContainsAny(t, ImageKeys) by {
      Absent(t, ImageKeys[0], 'g');
      Absent(t, ImageKeys[1], 'i');
      Absent(t, ImageKeys[2], 'f');
    }
    assert !ContainsAny(t, DocumentKeys) by {
      Absent(t, DocumentKeys[0], 'p');
      Absent(t, DocumentKeys[1], 'd');
      Absent(t, DocumentKeys[2], 'f');
      Absent(t, DocumentKeys[3], 'u');
      Absent(t, DocumentKeys[4], 'd');
    }
  }

  // ---------------------------------------------------------- agent exchange

  const MaxReplyLength := 4000

  /** Replies longer than 4000 characters are cut to 4000 and marked with `...`. */
  function Truncate(s: string): (r: string)
    ensures |s| <= MaxReplyLength ==> r == s
    ensures |s| > MaxReplyLength ==>
              |r| == MaxReplyLength + 3 && r[..MaxReplyLength] == s[..MaxReplyLength] &&
              r[MaxReplyLength..] == "..."
  {
    if |s| > MaxReplyLength then s[..MaxReplyLength] + "..." else s
  }

  /** The conversation given to the agent: the system turn, the history, the new message. */
  function AgentInput(system: string, history: seq<Turn>, text: string): (c: seq<Turn>)
    ensures |c| == |history| + 2
    ensures c[0] == Turn(System, system) && c[|c| - 1] == Turn(Human, text)
    ensures c[1..|c| - 1] == history
  {
    [Turn(System, system)] + history + [Turn(Human, text)]
  }

  /** The stored conversation after an answered turn: the question and the full reply. */
  function Exchange(history: seq<Turn>, text: string, reply: string): (h: seq<Turn>)
    ensures StoredTurns(history) ==> StoredTurns(h)
    ensures |h| == |history| + 2 && h[..|history|] == history
    ensures h[|history|] == Turn(Human, text) && h[|history| + 1] == Turn(Ai, reply)
  {
    history + [Turn(Human, text), Turn(Ai, reply)]
  }

  // --------------------------------------------------------------- the task

  /**
   * `process_message_background`. The agent's answer arrives as `agent`; the conversation
   * it was given is returned. Whatever route is taken, the message id is released.
   */
  method ProcessMessageBackground(app: AppState, client: Client, db: Database, senderId: string,
                                  incomingText: string, messageId: string, o: Outcomes, agent: AgentCall)
    returns (agentInput: Option<seq<Turn>>)
    requires app.Valid()
    modifies app, client, db
    ensures app.Valid()
    ensures app.processingIds == old(app.processingIds) - {messageId}
    ensures RouteOf(incomingText) != AskAgent ==> app.histories == old(app.histories) && agentInput == None
    ensures RouteOf(incomingText) != AskAgent ==>
              var m := MediaEffect(RouteOf(incomingText), senderId, incomingText, old(db.images), old(db.documents), o);
              client.calls == old(client.calls) + m.calls && db.images == m.images && db.documents == m.documents
    ensures RouteOf(incomingText) == AskAgent ==>
              db.images == old(db.images) && db.documents == old(db.documents) &&
              agentInput == Some(AgentInput(app.systemInstruction, old(app.History(senderId)), incomingText))
    ensures RouteOf(incomingText) == AskAgent && agent.Raised? ==>
              app.histories == old(app.histories) && client.calls == old(client.calls) + [Text(senderId, Apology)]
    ensures RouteOf(incomingText) == AskAgent && agent.Returned? ==>
              var reply := AgentReply(agent.result);
              app.histories == old(app.histories)[senderId := Exchange(old(app.History(senderId)), incomingText, reply)] &&
              client.calls == old(client.calls) + [Text(senderId, Truncate(reply))]
  {
    var route := RouteOf(incomingText);
    if route == AskAgent {
      agentInput := Converse(app, client, senderId, incomingText, messageId, agent);
    } else {
      agentInput := None;
      ServeMedia(app, client, db, route, senderId, incomingText, messageId, o);
    }
  }

  /**
   * The agent branch: one turn with the agent and the conversation update, then the
   * `finally` release of the message id.
   */
  method Converse(app: AppState, client: Client, senderId: string, incomingText: string, messageId: string,
                  agent: AgentCall)
    returns (agentInput: Option<seq<Turn>>)
    requires app.Valid()
    modifies app, client
    ensures app.Valid()
    ensures app.processingIds == old(app.processingIds) - {messageId}
    ensures agentInput == Some(AgentInput(app.systemInstruction, old(app.History(senderId)), incomingText))
    ensures agent.Raised? ==>
              app.histories == old(app.histories) && client.calls == old(client.calls) + [Text(senderId, Apology)]
    ensures agent.Returned? ==>
              var reply := AgentReply(agent.result);
              app.histories == old(app.histories)[senderId := Exchange(old(app.History(senderId)), incomingText, reply)] &&
              client.calls == old(client.calls) + [Text(senderId, Truncate(reply))]
  {
    var history := app.History(senderId);
    agentInput := Some(AgentInput(app.systemInstruction, history, incomingText));
    match agent {
      case Raised =>
        client.SendMessage(senderId, Apology);
      case Returned(result) =>
        Answer(app, client, senderId, history, incomingText, AgentReply(result));
    }
    Release(app, messageId);
  }

  /** The `finally` clause: the message id leaves the in-flight set, nothing else changes. */
  method Release(app: AppState, messageId: string)
    requires app.Valid()
    modifies app
    ensures app.Valid()
    ensures app.processingIds == old(app.processingIds) - {messageId}
    ensures app.histories == old(app.histories)
  {
    app.processingIds := app.processingIds - {messageId};
  }

  /** The answered turn is stored in the sender's conversation and the reply sent, cut to size. */
  method Answer(app: AppState, client: Client, senderId: string, history: seq<Turn>, incomingText: string,
                reply: string)
    requires app.Valid() && history == app.History(senderId)
    modifies app, client
    ensures app.Valid()
    ensures app.processingIds == old(app.processingIds)
    ensures app.histories == old(app.histories)[senderId := Exchange(history, incomingText, reply)]
    ensures client.calls == old(client.calls) + [Text(senderId, Truncate(reply))]
  {
    app.histories := app.histories[senderId := Exchange(history, incomingText, reply)];
    client.SendMessage(senderId, Truncate(reply));
  }

  /** A keyword branch, then the `finally` release of the message id. */
  method ServeMedia(app: AppState, client: Client, db: Database, route: Route, senderId: string, incomingText: string,
                    messageId: string, o: Outcomes)
    requires app.Valid() && route != AskAgent
    modifies app, client, db
    ensures app.Valid()
    ensures app.processingIds == old(app.processingIds) - {messageId}
    ensures app.histories == old(app.histories)
    ensures var m := MediaEffect(route, senderId, incomingText, old(db.images), old(db.documents), o);
            client.calls == old(client.calls) + m.calls && db.images == m.images && db.documents == m.documents
  {
    HandleMedia(client, db, route, senderId, incomingText, o);
    Release(app, messageId);
  }

  /** What a keyword branch sends, and the image and document tables after it. */
  datatype Media = Media(calls: seq<Call>, images: seq<Record>, documents: seq<Record>)

  /**
   * The keyword branch `route` on the tables `images` and `documents`: each branch answers
   * from its own table and leaves the other one as it was; a handler that raises is
   * answered with the apology.
   */
  function MediaEffect(route: Route, to: string, text: string, images: seq<Record>, documents: seq<Record>,
                       o: Outcomes): (m: Media)
    ensures route != ImageRequest ==> m.images == images
    ensures route != DocumentRequest ==> m.documents == documents
  {
    match route
    case ListImages =>
      Media([ListReply(to, images, ImageHandler.NoImages, ImageHandler.ListHeader, ImageHandler.Bullet, o)],
            images, documents)
    case ImageRequest => ImageMedia(to, text, images, documents, o)
    case ListDocuments =>
      Media([ListReply(to, documents, FileHandler.NoDocuments, FileHandler.ListHeader, FileHandler.Bullet, o)],
            images, documents)
    case DocumentRequest => DocumentMedia(to, text, images, documents, o)
    case AskAgent => Media([], images, documents)
  }

  /** A list reply: the list, or the apology when the query fails. */
  function ListReply(to: string, rows: seq<Record>, empty: string, header: string, bullet: string, o: Outcomes): (c: Call)
    ensures c.Text? && c.to == to
    ensures !o.dbAvailable ==> c.body == Apology
    ensures o.dbAvailable && rows == [] ==> c.body == empty
  {
    Text(to, if o.dbAvailable then ListText(rows, empty, header, bullet) else Apology)
  }

  /** The image search; the document table is left alone. */
  function ImageMedia(to: string, text: string, images: seq<Record>, documents: seq<Record>, o: Outcomes): (m: Media)
    ensures m.documents == documents
  {
    var e := ImageHandler.ImageReply(to, ImageHandler.FindImageByTitleOrDesc(images, text, o.dbAvailable), images, o);
    Media(e.calls, e.table, documents)
  }

  /** The document search; a raising handler is answered with the apology. */
  function DocumentMedia(to: string, text: string, images: seq<Record>, documents: seq<Record>, o: Outcomes): (m: Media)
    ensures m.images == images
  {
    var e := FileHandler.PdfReply(to, FileHandler.FindPdfByTitleOrDesc(documents, text, o.dbAvailable), documents, o);
    Media(e.calls + (if e.raised then [Text(to, Apology)] else []), images, e.table)
  }

  /** The four keyword branches. */
  method HandleMedia(client: Client, db: Database, route: Route, senderId: string, incomingText: string, o: Outcomes)
    requires route != AskAgent
    modifies client, db
    ensures var m := MediaEffect(route, senderId, incomingText, old(db.images), old(db.documents), o);
            client.calls == old(client.calls) + m.calls && db.images == m.images && db.documents == m.documents
  {
    match route
    case ListImages => ListImagesBranch(client, db, senderId, o);
    case ImageRequest => ImageBranch(client, db, senderId, incomingText, o);
    case ListDocuments => ListDocumentsBranch(client, db, senderId, o);
    case DocumentRequest => DocumentBranch(client, db, senderId, incomingText, o);
  }

  /** The image list; a failed query is answered with the apology. */
  method ListImagesBranch(client: Client, db: Database, senderId: string, o: Outcomes)
    modifies client, db
    ensures client.calls ==
              old(client.calls) + [ListReply(senderId, old(db.images), ImageHandler.NoImages, ImageHandler.ListHeader, ImageHandler.Bullet, o)]
    ensures db.images == old(db.images) && db.documents == old(db.documents)
  {
    ghost var calls0 := client.calls;
    var raised := ImageHandler.HandleListImages(client, db, senderId, o);
    if raised {
      ConcatEmpty(calls0);
      client.SendMessage(senderId, Apology);
    }
  }

  /** The image search. */
  method ImageBranch(client: Client, db: Database, senderId: string, incomingText: string, o: Outcomes)
    modifies client, db
    ensures var m := ImageMedia(senderId, incomingText, old(db.images), old(db.documents), o);
            client.calls == old(client.calls) + m.calls && db.images == m.images && db.documents == m.documents
  {
    ImageHandler.HandleUserImageRequest(client, db, senderId, incomingText, o);
  }

  /** The document list; a failed query is answered with the apology. */
  method ListDocumentsBranch(client: Client, db: Database, senderId: string, o: Outcomes)
    modifies client, db
    ensures client.calls ==
              old(client.calls) + [ListReply(senderId, old(db.documents), FileHandler.NoDocuments, FileHandler.ListHeader, FileHandler.Bullet, o)]
    ensures db.images == old(db.images) && db.documents == old(db.documents)
  {
    ghost var calls0 := client.calls;
    var raised := FileHandler.HandleListDocuments(client, db, senderId, o);
    if raised {
      ConcatEmpty(calls0);
      client.SendMessage(senderId, Apology);
    }
  }

  /** The document search and delivery; a raising handler is answered with the apology. */
  method DocumentBranch(client: Client, db: Database, senderId: string, incomingText: string, o: Outcomes)
    modifies client, db
    ensures var m := DocumentMedia(senderId, incomingText, old(db.images), old(db.documents), o);
            client.calls == old(client.calls) + m.calls && db.images == m.images && db.documents == m.documents
  {
    ghost var calls0 := client.calls;
    ghost var e := FileHandler.PdfReply(senderId, FileHandler.FindPdfByTitleOrDesc(db.documents, incomingText, o.dbAvailable),
                                        db.documents, o);
    var raised := FileHandler.HandleUserPdfRequest(client, db, senderId, incomingText, o);
    if raised {
      client.SendMessage(senderId, Apology);
      ConcatAssoc(calls0, e.calls, [Text(senderId, Apology)]);
    } else {
      ConcatEmpty(e.calls);
    }
  }
}
