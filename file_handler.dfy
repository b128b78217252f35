/**
 * The document handler: finds a stored document from a free-text request and delivers it
 * over WhatsApp, uploading it first when it has no WhatsApp media id yet.
 */
module FileHandler {
  import opened Optional
  import opened PyStr
  import opened WhatsApp
  import opened Db
  import MimeTypes
  import opened Seqs

  /** The words stripped from a document request before searching. */
  const Stopwords: set<string> :=
    {"kirimkan", "file", "tolong", "cari", "dokumen", "pdf", "unduh", "download", "kirim"}

  /**
   * `clean_query`: single-spaced lower case, and its `\w` runs are those of the request
   * that are not stopwords, in order, lower-cased; every other non-space character of the
   * request is kept in its place among them.
   */
  function CleanQuery(query: string): (r: string)
    ensures NoUpper(r) && SingleSpaced(r)
    ensures WordRuns(r) == LowerAll(KeepNonStop(WordRuns(query), Stopwords))
    ensures Tokens(r) == LowerAll(KeepTokens(Tokens(query), Stopwords))
  {
    CleanText(query, Stopwords)
  }

  /**
   * Only the stopword run goes: `laporan.pdf` is cleaned to `laporan.`, keeping the dot,
   * and `SOP-cuti` to `sop-cuti`, keeping the hyphen.
   */
  lemma CleanQueryKeepsPunctuation()
    ensures CleanQuery("laporan.pdf") == "laporan."
    ensures CleanQuery("SOP-cuti") == "sop-cuti"
  {
    CleanQueryKeepsDot();
    CleanQueryKeepsHyphen();
  }

  lemma CleanQueryKeepsDot()
    ensures CleanQuery("laporan.pdf") == "laporan."
  {
    var a, b := "laporan", "pdf";
    assert a + ['.'] + b == "laporan.pdf";
    assert Lower(a + ['.']) == "laporan.";
    assert Lower(a) == a && Lower(b) == b;
    CleanAround(a, '.', b);
  }

  lemma CleanQueryKeepsHyphen()
    ensures CleanQuery("SOP-cuti") == "sop-cuti"
  {
    var a, b := "SOP", "cuti";
    assert a + ['-'] + b == "SOP-cuti";
    assert Lower(a + ['-'] + b) == "sop-cuti";
    assert Lower(a) == "sop" && Lower(b) == b;
    assert Lower(a) !in Stopwords && Lower(b) !in Stopwords;
    CleanAround(a, '-', b);
  }

  /** The cleaner on two runs around a visible separator, stated on variables. */
  lemma CleanAround(a: string, c: char, b: string)
    requires a != [] && forall i :: 0 <= i < |a| ==> IsWordChar(a[i])
    requires b != [] && forall i :: 0 <= i < |b| ==> IsWordChar(b[i])
    requires !IsWordChar(c) && !IsSpace(c) && Lower(a) !in Stopwords
    ensures CleanQuery(a + [c] + b)
         == Lower(if Lower(b) in Stopwords then a + [c] else a + [c] + b)
  {
    RemoveWordsAround(a, c, b, Stopwords);
    var w := if Lower(b) in Stopwords then a + [c] else a + [c] + b;
    assert a + [c] + [] == a + [c];
    assert NoSpace(w);
    CleanTextSingle(a + [c] + b, Stopwords, w);
  }

  /** `replace(lower(col), '_', ' ')`, applied to the title and description columns. */
  function Normalize(s: string): (r: string)
    ensures |r| == |s| && NoUpper(r) && '_' !in r
  {
    ReplaceChar(Lower(s), '_', ' ')
  }

  /** The search text: the cleaned query with underscores read as spaces. */
  function SearchText(query: string): (q: string)
    ensures |q| == |CleanQuery(query)| && NoUpper(q) && '_' !in q
  {
    ReplaceChar(CleanQuery(query), '_', ' ')
  }

  /** `find_pdf_by_title_or_desc`. */
  function FindPdfByTitleOrDesc(docs: seq<Record>, query: string, dbAvailable: bool): (r: Lookup)
    ensures CleanQuery(query) == "" ==> r == NotFound
    ensures r.DbError? <==> CleanQuery(query) != "" && !dbAvailable
    ensures r.Found? ==> r.rec in docs && Matches(r.rec, SearchText(query), Normalize)
    ensures r.NotFound? && CleanQuery(query) != "" ==>
              forall j :: 0 <= j < |docs| ==> !Matches(docs[j], SearchText(query), Normalize)
  {
    var q := SearchText(query);
    assert q == "" <==> CleanQuery(query) == "" by { assert |q| == |CleanQuery(query)|; }
    FindFirst(docs, q, Normalize, dbAvailable)
  }

  const NoDocuments := "Maaf, belum ada dokumen yang tersedia."
  const ListHeader := "\U{1F4CB} *Berikut daftar dokumen yang tersedia:*"
  const Bullet := "\U{1F4C4} "

  const NotFoundText := "Maaf, dokumen tidak ditemukan."
  const SentStored := "Dokumen sudah terkirim! Apakah ada yang bisa saya bantu lagi?"
  const SendFailed := "Gagal mengirim dokumen ke WhatsApp."
  const UploadFailed := "Gagal mengupload dokumen ke WhatsApp."
  const SentUploaded := "Dokumen sudah terkirim! Jangan ragu untuk meminta bantuan lagi ya!"
  const ProcessingError := "Terjadi kesalahan saat memproses permintaan Anda."

  function FoundText(title: string): string {
    "Saya sudah menemukan dokumen '" + title + "'. Mohon tunggu sebentar..."
  }

  /** The stored extension, or `pdf` when there is none. */
  function Extension(d: Record): string {
    if d.fileExtension != "" then d.fileExtension else "pdf"
  }

  /** The file name the recipient sees. */
  function FileName(d: Record): string {
    d.title + "." + Extension(d)
  }

  /** The description message, sent only when the description is not empty. */
  function DescriptionCalls(to: string, d: Record): seq<Call> {
    if d.description != "" then [Text(to, d.description)] else []
  }

  /**
   * The calls after the found message when the document already has a media id: one
   * send by that id, then text only, ending with the success or the failure message.
   */
  function StoredCalls(to: string, d: Record, o: Outcomes): (cs: seq<Call>)
  {
    var send := Document(to, d.mediaId, FileName(d));
    if o.mediaDelivered then [send] + DescriptionCalls(to, d) + [Text(to, SentStored)]
    else [send, Text(to, SendFailed)]
  }

  /**
   * The calls after the found message when the document must be uploaded first: the
   * upload with the extension's content type; on failure only the upload-failed message
   * and no send; on success one send by the new id, then text only.
   */
  function UploadCalls(to: string, d: Record, o: Outcomes): (cs: seq<Call>)
  {
    var upload := Upload(MimeTypes.DocumentMime(Extension(d)));
    if !UploadSucceeded(o) then [upload, Text(to, UploadFailed)]
    else [upload] + UploadedCalls(to, d, o.uploadedMediaId.value, o)
  }

  /** After a successful upload: the send by the new id `m`, then text only. */
  function UploadedCalls(to: string, d: Record, m: string, o: Outcomes): seq<Call> {
    var send := Document(to, m, FileName(d));
    if o.mediaDelivered then [send] + DescriptionCalls(to, d) + [Text(to, SentUploaded)]
    else [send, Text(to, ProcessingError)]
  }

  /**
   * The delivery once the document is found: the found message first, then the stored
   * or the upload path; only the upload path can change the table.
   */
  function DeliverFound(to: string, d: Record, docs: seq<Record>, o: Outcomes): (e: Effect)
  {
    var before := Text(to, FoundText(d.title));
    if d.mediaId != "" then Effect([before] + StoredCalls(to, d, o), docs, false)
    else Effect([before] + UploadCalls(to, d, o), UploadTable(docs, d, o), false)
  }

  /**
   * What `handle_user_pdf_request` does after its lookup: a failed lookup raises to the
   * caller with nothing sent; a miss sends exactly one message; a hit is delivered.
   */
  function PdfReply(to: string, found: Lookup, docs: seq<Record>, o: Outcomes): (e: Effect)
  {
    match found
    case DbError => Effect([], docs, true)
    case NotFound => Effect([Text(to, NotFoundText)], docs, false)
    case Found(d) => DeliverFound(to, d, docs, o)
  }

  // ------------------------------------------------------------ reply shapes

  /** A stored document: one send by its id, then text only, ending with the outcome message. */
  lemma StoredCallsShape(to: string, d: Record, o: Outcomes)
    ensures var cs := StoredCalls(to, d, o);
            |cs| >= 2 && cs[0] == Document(to, d.mediaId, FileName(d)) &&
            (forall k :: 1 <= k < |cs| ==> cs[k].Text?) &&
            cs[|cs| - 1] == Text(to, if o.mediaDelivered then SentStored else SendFailed) &&
            (|cs| == 3 <==> o.mediaDelivered && d.description != "") &&
            (|cs| == 3 ==> cs[1] == Text(to, d.description))
  {
  }

  /**
   * An upload: the upload with the extension's content type; on failure only the
   * upload-failed message and no send; on success one send by the new id, then text only.
   */
  lemma UploadCallsShape(to: string, d: Record, o: Outcomes)
    ensures var cs := UploadCalls(to, d, o);
            |cs| >= 2 && cs[0] == Upload(MimeTypes.DocumentMime(Extension(d))) &&
            (!UploadSucceeded(o) ==> |cs| == 2 && cs[1] == Text(to, UploadFailed)) &&
            (UploadSucceeded(o) ==>
              |cs| >= 3 && cs[1] == Document(to, o.uploadedMediaId.value, FileName(d)) &&
              (forall k :: 2 <= k < |cs| ==> cs[k].Text?) &&
              cs[|cs| - 1] == Text(to, if o.mediaDelivered then SentUploaded else ProcessingError) &&
              (|cs| == 4 <==> o.mediaDelivered && d.description != "") &&
              (|cs| == 4 ==> cs[2] == Text(to, d.description)))
  {
    if UploadSucceeded(o) {
      var m := o.uploadedMediaId.value;
      UploadedCallsShape(to, d, m, o);
      assert UploadCalls(to, d, o) == [Upload(MimeTypes.DocumentMime(Extension(d)))] + UploadedCalls(to, d, m, o);
    }
  }

  /** After a successful upload: one send by the new id, then text only, ending with the outcome message. */
  lemma UploadedCallsShape(to: string, d: Record, m: string, o: Outcomes)
    ensures var cs := UploadedCalls(to, d, m, o);
            |cs| >= 2 && cs[0] == Document(to, m, FileName(d)) &&
            (forall k :: 1 <= k < |cs| ==> cs[k].Text?) &&
            cs[|cs| - 1] == Text(to, if o.mediaDelivered then SentUploaded else ProcessingError) &&
            (|cs| == 3 <==> o.mediaDelivered && d.description != "") &&
            (|cs| == 3 ==> cs[1] == Text(to, d.description))
  {
  }

  /**
   * A found document: the found message first and a text message last; the table changes
   * only when a document without a media id was uploaded and its new id saved.
   */
  lemma DeliverFoundShape(to: string, d: Record, docs: seq<Record>, o: Outcomes)
    ensures var e := DeliverFound(to, d, docs, o);
            !e.raised && |e.calls| >= 3 && e.calls[0] == Text(to, FoundText(d.title)) &&
            e.calls[|e.calls| - 1].Text? &&
            (e.table != docs ==> d.mediaId == "" && UploadSucceeded(o) && o.mediaIdSaved)
  {
    var e := DeliverFound(to, d, docs, o);
    if d.mediaId != "" {
      StoredCallsShape(to, d, o);
      assert e.calls == [Text(to, FoundText(d.title))] + StoredCalls(to, d, o);
    } else {
      UploadCallsShape(to, d, o);
      assert e.calls == [Text(to, FoundText(d.title))] + UploadCalls(to, d, o);
    }
  }

  /**
   * The three outcomes of a request: a failed lookup raises with nothing sent, a miss
   * sends exactly one message, a hit starts with the found message; nothing but a hit
   * changes the table.
   */
  lemma PdfReplyCases(to: string, found: Lookup, docs: seq<Record>, o: Outcomes)
    ensures var e := PdfReply(to, found, docs, o);
            (e.raised <==> found.DbError?) &&
            (e.raised ==> e.calls == [] && e.table == docs) &&
            (found.NotFound? ==> e.calls == [Text(to, NotFoundText)] && e.table == docs) &&
            (found.Found? ==> |e.calls| >= 3 && e.calls[0] == Text(to, FoundText(found.rec.title)))
  {
    if found.Found? {
      DeliverFoundShape(to, found.rec, docs, o);
    }
  }

  /** `handle_list_documents`: the list reply, or a raised database error with nothing sent. */
  method HandleListDocuments(client: Client, db: Database, to: string, o: Outcomes) returns (raised: bool)
    modifies client
    ensures raised <==> !o.dbAvailable
    ensures client.calls == old(client.calls) +
              (if raised then [] else [Text(to, ListText(db.documents, NoDocuments, ListHeader, Bullet))])
  {
    if !o.dbAvailable {
      return true;
    }
    client.SendMessage(to, ListText(db.documents, NoDocuments, ListHeader, Bullet));
    return false;
  }

  /** `handle_user_pdf_request` against the live client and database. */
  method HandleUserPdfRequest(client: Client, db: Database, to: string, query: string, o: Outcomes)
    returns (raised: bool)
    modifies client, db
    ensures var e := PdfReply(to, FindPdfByTitleOrDesc(old(db.documents), query, o.dbAvailable), old(db.documents), o);
            client.calls == old(client.calls) + e.calls && db.documents == e.table && raised == e.raised
    ensures db.images == old(db.images)
  {
    var found := FindPdfByTitleOrDesc(db.documents, query, o.dbAvailable);
    raised := Reply(client, db, to, found, o);
  }

  /** The steps after the lookup. */
  method Reply(client: Client, db: Database, to: string, found: Lookup, o: Outcomes)
    returns (raised: bool)
    modifies client, db
    ensures var e := PdfReply(to, found, old(db.documents), o);
            client.calls == old(client.calls) + e.calls && db.documents == e.table && raised == e.raised
    ensures db.images == old(db.images)
  {
    if found.DbError? {
      return true;
    }
    if found.NotFound? {
      client.SendMessage(to, NotFoundText);
      return false;
    }
    Deliver(client, db, to, found.rec, o);
    return false;
  }

  /** The delivery steps once the document is found. */
  method Deliver(client: Client, db: Database, to: string, d: Record, o: Outcomes)
    modifies client, db
    ensures client.calls == old(client.calls) + DeliverFound(to, d, old(db.documents), o).calls
    ensures db.documents == DeliverFound(to, d, old(db.documents), o).table
    ensures db.images == old(db.images)
  {
    ghost var e := DeliverFound(to, d, db.documents, o);
    ghost var start := client.calls;
    client.SendMessage(to, FoundText(d.title));
    if d.mediaId != "" {
      assert e.calls == [Text(to, FoundText(d.title))] + StoredCalls(to, d, o);
      SendStored(client, to, d, o);
    } else {
      assert e.calls == [Text(to, FoundText(d.title))] + UploadCalls(to, d, o);
      UploadAndSend(client, db, to, d, o);
    }
    assert client.calls == start + e.calls;
  }

  /** A document that already has a media id is sent by that id. */
  method SendStored(client: Client, to: string, d: Record, o: Outcomes)
    modifies client
    ensures client.calls == old(client.calls) + StoredCalls(to, d, o)
  {
    client.SendDocument(to, d.mediaId, FileName(d));
    if o.mediaDelivered {
      if d.description != "" {
        client.SendMessage(to, d.description);
      }
      client.SendMessage(to, SentStored);
    } else {
      client.SendMessage(to, SendFailed);
    }
  }

  /** A document without a media id is uploaded, its new id saved, then sent. */
  method UploadAndSend(client: Client, db: Database, to: string, d: Record, o: Outcomes)
    modifies client, db
    ensures client.calls == old(client.calls) + UploadCalls(to, d, o)
    ensures db.documents == UploadTable(old(db.documents), d, o)
    ensures db.images == old(db.images)
  {
    ghost var start := client.calls;
    var mime := MimeTypes.DocumentMime(Extension(d));
    client.UploadMedia(mime);
    if !UploadSucceeded(o) {
      client.SendMessage(to, UploadFailed);
      return;
    }
    var m := o.uploadedMediaId.value;
    SaveMediaId(db, d, m, o);
    SendUploaded(client, to, d, m, o);
    ConcatAssoc(start, [Upload(mime)], UploadedCalls(to, d, m, o));
  }

  /** The new media id is written to the document's row unless saving it fails. */
  method SaveMediaId(db: Database, d: Record, m: string, o: Outcomes)
    modifies db
    ensures db.documents == if o.mediaIdSaved then SetMediaId(old(db.documents), d.id, m) else old(db.documents)
    ensures db.images == old(db.images)
  {
    if o.mediaIdSaved {
      db.documents := SetMediaId(db.documents, d.id, m);
    }
  }

  /** The send by the new media id and the messages after it. */
  method SendUploaded(client: Client, to: string, d: Record, m: string, o: Outcomes)
    modifies client
    ensures client.calls == old(client.calls) + UploadedCalls(to, d, m, o)
  {
    client.SendDocument(to, m, FileName(d));
    if o.mediaDelivered {
      if d.description != "" {
        client.SendMessage(to, d.description);
      }
      client.SendMessage(to, SentUploaded);
    } else {
      client.SendMessage(to, ProcessingError);
    }
  }
}
