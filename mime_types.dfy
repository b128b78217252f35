/** The content types announced when a file is uploaded to WhatsApp. */
module MimeTypes {

  const OctetStream := "application/octet-stream"

  /** Document extensions (lower case, no dot) with their content types. */
  function DocumentMime(ext: string): (m: string)
    ensures m == OctetStream <==> ext !in {"pdf", "xlsx", "xls", "docx", "doc"}
  {
    if ext == "pdf" then "application/pdf"
    else if ext == "xlsx" then "application/vnd.openxmlformats-officedocument.spreadsheetml.sheet"
    else if ext == "xls" then "application/vnd.ms-excel"
    else if ext == "docx" then "application/vnd.openxmlformats-officedocument.wordprocessingml.document"
    else if ext == "doc" then "application/msword"
    else OctetStream
  }

  /** Image extensions (lower case, no dot) with their content types. */
  function ImageMime(ext: string): (m: string)
    ensures m == OctetStream <==> ext !in {"jpg", "jpeg", "png", "gif", "webp"}
    ensures ext in {"jpg", "jpeg"} <==> m == "image/jpeg"
  {
    if ext == "jpg" || ext == "jpeg" then "image/jpeg"
    else if ext == "png" then "image/png"
    else if ext == "gif" then "image/gif"
    else if ext == "webp" then "image/webp"
    else OctetStream
  }
}
