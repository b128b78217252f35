/**
 * The image handler: finds a stored image from a free-text request and sends it over
 * WhatsApp, uploading it first when it has no WhatsApp media id yet. Every failure inside
 * the handler is caught and answered, so it never raises to its caller.
 */
module ImageHandler {
  import opened Optional
  import opened PyStr
  import opened WhatsApp
  import opened Db

  /** The words stripped from an image request before searching. */
  const Stopwords: set<string> := {"kirimkan", "gambar", "image", "foto", "tolong", "cari", "kirim"}

  /**
   * `clean_image_query`: single-spaced lower case, and its `\w` runs are those of the
   * request that are not stopwords, in order, lower-cased; every other non-space character
   * of the request is kept in its place among them.
   */
  function CleanImageQuery(query: string): (r: string)
    ensures NoUpper(r) && SingleSpaced(r)
    ensures WordRuns(r) == LowerAll(KeepNonStop(WordRuns(query), Stopwords))
    ensures Tokens(r) == LowerAll(KeepTokens(Tokens(query), Stopwords))
  {
    CleanText(query, Stopwords)
  }

  /** Underscores and hyphens read as spaces. */
  function Unhyphen(s: string): (r: string)
    ensures |r| == |s| && '_' !in r && '-' !in r
    ensures forall i :: 0 <= i < |s| ==> r[i] == (if s[i] == '_' || s[i] == '-' then ' ' else s[i])
  {
    ReplaceChar(ReplaceChar(s, '_', ' '), '-', ' ')
  }

  /** `replace(replace(lower(col), '_', ' '), '-', ' ')`. */
  function Normalize(s: string): (r: string)
    ensures |r| == |s| && NoUpper(r) && '_' !in r && '-' !in r
  {
    Unhyphen(Lower(s))
  }

  /** The search text: the cleaned query with underscores and hyphens read as spaces. */
  function SearchText(query: string): (q: string)
    ensures |q| == |CleanImageQuery(query)| && NoUpper(q) && '_' !in q && '-' !in q
  {
    Unhyphen(CleanImageQuery(query))
  }

  /** `find_image_by_title_or_desc`. */
  function FindImageByTitleOrDesc(images: seq<Record>, query: string, dbAvailable: bool): (r: Lookup)
    ensures CleanImageQuery(query) == "" ==> r == NotFound
    ensures r.DbError? <==> CleanImageQuery(query) != "" && !dbAvailable
    ensures r.Found? ==> r.rec in images && Matches(r.rec, SearchText(query), Normalize)
    ensures r.NotFound? && CleanImageQuery(query) != "" ==>
              forall j :: 0 <= j < |images| ==> !Matches(images[j], SearchText(query), Normalize)
  {
    var q := SearchText(query);
    assert q == "" <==> CleanImageQuery(query) == "" by { assert |q| == |CleanImageQuery(query)|; }
    FindFirst(images, q, Normalize, dbAvailable)
  }

  const NoImages := "Maaf, belum ada gambar yang tersedia."
  const ListHeader := "\U{1F4CB} *Berikut daftar gambar yang tersedia:*"
  const Bullet := "\U{1F5BC}\U{FE0F} "

  const NotFoundText := "Maaf, gambar tidak ditemukan."
  const SentStored := "Gambar sudah terkirim! Apakah ada yang bisa saya bantu lagi?"
  const UploadFailed := "Gagal mengupload gambar ke WhatsApp."
  const SentUploaded := "Gambar sudah terkirim! Jangan ragu untuk meminta bantuan lagi ya!"
  const ProcessingError := "Terjadi kesalahan saat memproses permintaan Anda."

  function FoundText(title: string): string {
    "Saya sudah menemukan gambar: *" + title + "*. Mohon tunggu sebentar..."
  }

  /** The content type announced on upload: `image/<ext>`, or JPEG when there is no extension. */
  function UploadMime(img: Record): (m: string)
    ensures StartsWith(m, "image/") && |m| > |"image/"|
    ensures img.fileExtension != "" ==> m[|"image/"|..] == img.fileExtension
    ensures img.fileExtension == "" ==> m == "image/jpeg"
  {
    if img.fileExtension != "" then "image/" + img.fileExtension else "image/jpeg"
  }

  function DescriptionCalls(to: string, img: Record): seq<Call> {
    if img.description != "" then [Text(to, img.description)] else []
  }

  /**
   * The calls after the found message when the image already has a media id: one send by
   * that id; text follows only when it was delivered, ending with the success message.
   */
  function StoredCalls(to: string, img: Record, o: Outcomes): (cs: seq<Call>)
  {
    var send := Image(to, img.mediaId);
    if o.mediaDelivered then [send] + DescriptionCalls(to, img) + [Text(to, SentStored)] else [send]
  }

  /**
   * The calls after the found message when the image must be uploaded first: the upload;
   * on failure only the upload-failed message and no send; on success one send by the
   * new id, and text after it only when it was delivered.
   */
  function UploadCalls(to: string, img: Record, o: Outcomes): (cs: seq<Call>)
  {
    var upload := Upload(UploadMime(img));
    if !UploadSucceeded(o) then [upload, Text(to, UploadFailed)]
    else
      var send := Image(to, o.uploadedMediaId.value);
      if o.mediaDelivered then [upload, send] + DescriptionCalls(to, img) + [Text(to, SentUploaded)]
      else [upload, send]
  }

  /**
   * The delivery once the image is found: the found message first, then the stored or the
   * upload path; only the upload path can change the table.
   */
  function DeliverFound(to: string, img: Record, images: seq<Record>, o: Outcomes): (e: Effect)
  {
    var before := Text(to, FoundText(img.title));
    if img.mediaId != "" then Effect([before] + StoredCalls(to, img, o), images, false)
    else Effect([before] + UploadCalls(to, img, o), UploadTable(images, img, o), false)
  }

  /**
   * What `handle_user_image_request` does after its lookup. A database error is caught
   * and answered with one message; a miss is answered with one message; nothing raises.
   */
  function ImageReply(to: string, found: Lookup, images: seq<Record>, o: Outcomes): (e: Effect)
  {
    match found
    case DbError => Effect([Text(to, ProcessingError)], images, false)
    case NotFound => Effect([Text(to, NotFoundText)], images, false)
    case Found(img) => DeliverFound(to, img, images, o)
  }

  // ------------------------------------------------------------ reply shapes

  /** A stored image: one send by its id; text follows only when it was delivered. */
  lemma StoredCallsShape(to: string, img: Record, o: Outcomes)
    ensures var cs := StoredCalls(to, img, o);
            |cs| >= 1 && cs[0] == Image(to, img.mediaId) &&
            (forall k :: 1 <= k < |cs| ==> cs[k].Text?) &&
            (!o.mediaDelivered <==> |cs| == 1) &&
            (o.mediaDelivered ==> cs[|cs| - 1] == Text(to, SentStored)) &&
            (|cs| == 3 <==> o.mediaDelivered && img.description != "") &&
            (|cs| == 3 ==> cs[1] == Text(to, img.description))
  {
  }

  /**
   * An upload: on failure only the upload-failed message and no send; on success one
   * send by the new id, and text after it only when it was delivered.
   */
  lemma UploadCallsShape(to: string, img: Record, o: Outcomes)
    ensures var cs := UploadCalls(to, img, o);
            |cs| >= 2 && cs[0] == Upload(UploadMime(img)) &&
            (!UploadSucceeded(o) ==> |cs| == 2 && cs[1] == Text(to, UploadFailed)) &&
            (UploadSucceeded(o) ==>
              cs[1] == Image(to, o.uploadedMediaId.value) &&
              (forall k :: 2 <= k < |cs| ==> cs[k].Text?) &&
              (!o.mediaDelivered <==> |cs| == 2) &&
              (o.mediaDelivered ==> cs[|cs| - 1] == Text(to, SentUploaded)) &&
              (|cs| == 4 <==> o.mediaDelivered && img.description != "") &&
              (|cs| == 4 ==> cs[2] == Text(to, img.description)))
  {
  }

  /**
   * A found image: the found message first, then exactly one media call (a send or an
   * upload); the table changes only when an upload succeeded and its id was saved.
   */
  lemma DeliverFoundShape(to: string, img: Record, images: seq<Record>, o: Outcomes)
    ensures var e := DeliverFound(to, img, images, o);
            !e.raised && |e.calls| >= 2 && e.calls[0] == Text(to, FoundText(img.title)) &&
            !e.calls[1].Text? &&
            (e.table != images ==> img.mediaId == "" && UploadSucceeded(o) && o.mediaIdSaved)
  {
    var e := DeliverFound(to, img, images, o);
    if img.mediaId != "" {
      StoredCallsShape(to, img, o);
      assert e.calls == [Text(to, FoundText(img.title))] + StoredCalls(to, img, o);
    } else {
      UploadCallsShape(to, img, o);
      assert e.calls == [Text(to, FoundText(img.title))] + UploadCalls(to, img, o);
    }
  }

  /**
   * The three outcomes of a request: nothing raises; a failed lookup and a miss each
   * send exactly one message and leave the table; a hit starts with the found message.
   */
  lemma ImageReplyCases(to: string, found: Lookup, images: seq<Record>, o: Outcomes)
    ensures var e := ImageReply(to, found, images, o);
            !e.raised &&
            (found.DbError? ==> e.calls == [Text(to, ProcessingError)] && e.table == images) &&
            (found.NotFound? ==> e.calls == [Text(to, NotFoundText)] && e.table == images) &&
            (found.Found? ==> |e.calls| >= 2 && e.calls[0] == Text(to, FoundText(found.rec.title)))
  {
    if found.Found? {
      DeliverFoundShape(to, found.rec, images, o);
    }
  }

  /** `handle_list_images`: the list reply, or a raised database error with nothing sent. */
  method HandleListImages(client: Client, db: Database, to: string, o: Outcomes) returns (raised: bool)
    modifies client
    ensures raised <==> !o.dbAvailable
    ensures client.calls == old(client.calls) +
              (if raised then [] else [Text(to, ListText(db.images, NoImages, ListHeader, Bullet))])
  {
    if !o.dbAvailable {
      return true;
    }
    client.SendMessage(to, ListText(db.images, NoImages, ListHeader, Bullet));
    return false;
  }

  /** `handle_user_image_request` against the live client and database. */
  method HandleUserImageRequest(client: Client, db: Database, to: string, query: string, o: Outcomes)
    modifies client, db
    ensures var e := ImageReply(to, FindImageByTitleOrDesc(old(db.images), query, o.dbAvailable), old(db.images), o);
            client.calls == old(client.calls) + e.calls && db.images == e.table
    ensures db.documents == old(db.documents)
  {
    var found := FindImageByTitleOrDesc(db.images, query, o.dbAvailable);
    Reply(client, db, to, found, o);
  }

  /** The steps after the lookup. */
  method Reply(client: Client, db: Database, to: string, found: Lookup, o: Outcomes)
    modifies client, db
    ensures var e := ImageReply(to, found, old(db.images), o);
            client.calls == old(client.calls) + e.calls && db.images == e.table
    ensures db.documents == old(db.documents)
  {
    if found.DbError? {
      client.SendMessage(to, ProcessingError);
      return;
    }
    if found.NotFound? {
      client.SendMessage(to, NotFoundText);
      return;
    }
    Deliver(client, db, to, found.rec, o);
  }

  /** The delivery steps once the image is found. */
  method Deliver(client: Client, db: Database, to: string, img: Record, o: Outcomes)
    modifies client, db
    ensures client.calls == old(client.calls) + DeliverFound(to, img, old(db.images), o).calls
    ensures db.images == DeliverFound(to, img, old(db.images), o).table
    ensures db.documents == old(db.documents)
  {
    ghost var e := DeliverFound(to, img, db.images, o);
    ghost var start := client.calls;
    client.SendMessage(to, FoundText(img.title));
    if img.mediaId != "" {
      assert e.calls == [Text(to, FoundText(img.title))] + StoredCalls(to, img, o);
      SendStored(client, to, img, o);
    } else {
      assert e.calls == [Text(to, FoundText(img.title))] + UploadCalls(to, img, o);
      UploadAndSend(client, db, to, img, o);
    }
    assert client.calls == start + e.calls;
  }

  /** An image that already has a media id is sent by that id. */
  method SendStored(client: Client, to: string, img: Record, o: Outcomes)
    modifies client
    ensures client.calls == old(client.calls) + StoredCalls(to, img, o)
  {
    client.SendImage(to, img.mediaId);
    if o.mediaDelivered {
      if img.description != "" {
        client.SendMessage(to, img.description);
      }
      client.SendMessage(to, SentStored);
    }
  }

  /** An image without a media id is uploaded, its new id saved, then sent. */
  method UploadAndSend(client: Client, db: Database, to: string, img: Record, o: Outcomes)
    modifies client, db
    ensures client.calls == old(client.calls) + UploadCalls(to, img, o)
    ensures db.images == UploadTable(old(db.images), img, o)
    ensures db.documents == old(db.documents)
  {
    ghost var cs := UploadCalls(to, img, o);
    ghost var start := client.calls;
    client.UploadMedia(UploadMime(img));
    if !UploadSucceeded(o) {
      client.SendMessage(to, UploadFailed);
      assert cs == [Upload(UploadMime(img)), Text(to, UploadFailed)];
      return;
    }
    var m := o.uploadedMediaId.value;
    if o.mediaIdSaved {
      db.images := SetMediaId(db.images, img.id, m);
    }
    client.SendImage(to, m);
    if o.mediaDelivered {
      if img.description != "" {
        client.SendMessage(to, img.description);
      }
      client.SendMessage(to, SentUploaded);
      assert cs == [Upload(UploadMime(img)), Image(to, m)] + DescriptionCalls(to, img) + [Text(to, SentUploaded)];
    } else {
      assert cs == [Upload(UploadMime(img)), Image(to, m)];
    }
    assert client.calls == start + cs;
  }
}
