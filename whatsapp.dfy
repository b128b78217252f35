/**
 * The outbound WhatsApp client as the core sees it: every call it makes is recorded, in
 * order. What the Graph API answers (delivered or not, the media id an upload returns)
 * is an input of each task, not something the model decides.
 */
module WhatsApp {
  import opened Optional

  /** One call on the client. Media is always sent by id (`is_link=False`). */
  datatype Call =
    | Text(to: string, body: string)
    | Document(to: string, media: string, filename: string)
    | Image(to: string, media: string)
    | Upload(mime: string)

  /** The collaborators' answers during one task. */
  datatype Outcomes = Outcomes(
    /** false: every database query raises. */
    dbAvailable: bool,
    /** What `send_document` / `send_image` returns. */
    mediaDelivered: bool,
    /** What `upload_media` returns; `None` and `""` both count as failure. */
    uploadedMediaId: Option<string>,
    /** false: saving the new media id raises and is rolled back. */
    mediaIdSaved: bool)

  /** `if not media_id` fails for `None` and for the empty string. */
  predicate UploadSucceeded(o: Outcomes)
    ensures UploadSucceeded(o) <==> o.uploadedMediaId != None && o.uploadedMediaId != Some("")
  {
    o.uploadedMediaId.Some? && o.uploadedMediaId.value != ""
  }

  class Client {
    /** Every call made so far, oldest first. */
    var calls: seq<Call>

    constructor ()
      ensures calls == []
    {
      calls := [];
    }

    method SendMessage(to: string, body: string)
      modifies this
      ensures calls == old(calls) + [Text(to, body)]
    {
      calls := calls + [Text(to, body)];
    }

    method SendDocument(to: string, media: string, filename: string)
      modifies this
      ensures calls == old(calls) + [Document(to, media, filename)]
    {
      calls := calls + [Document(to, media, filename)];
    }

    method SendImage(to: string, media: string)
      modifies this
      ensures calls == old(calls) + [Image(to, media)]
    {
      calls := calls + [Image(to, media)];
    }

    method UploadMedia(mime: string)
      modifies this
      ensures calls == old(calls) + [Upload(mime)]
    {
      calls := calls + [Upload(mime)];
    }
  }
}
