/** The document ingester: the supported office and PDF names, their content types, and the run. */
module IngestFile {
  import opened Optional
  import opened PyStr
  import opened MimeTypes
  import opened FolderIngest

  /** The suffixes `ingest_files` keeps, compared with the lower-cased name. */
  const Suffixes: seq<string> := [".pdf", ".xlsx", ".xls", ".docx", ".doc"]

  const DescriptionPrefix := "Document: "

  /** `get_mime_type`: the type of the lower-cased text after the last dot. */
  function GetMimeType(filename: string): (m: string)
    ensures m != OctetStream <==> Extension(filename) in {"pdf", "xlsx", "xls", "docx", "doc"}
  {
    DocumentMime(Extension(filename))
  }

  /** Every file the run keeps is uploaded with a known document type. */
  lemma SupportedHasMime(f: string)
    requires Supported(f, Suffixes)
    ensures GetMimeType(f) != OctetStream
  {
    var k: nat :| k < |Suffixes| && EndsWith(Lower(f), Suffixes[k]);
    SuffixesDotted(k);
    ExtensionOfListed(f, Suffixes, k);
  }

  /** Each suffix is a dot followed by one of the typed extensions. */
  lemma SuffixesDotted(k: nat)
    requires k < |Suffixes|
    ensures |Suffixes[k]| > 0 && Suffixes[k][0] == '.' && '.' !in Suffixes[k][1..]
    ensures Suffixes[k][1..] in {"pdf", "xlsx", "xls", "docx", "doc"}
  {
  }

  /** What `ingest_files` runs with: the description prefix and the document content types. */
  function DocumentEnv(readable: string -> bool, upload: string -> Option<string>): (env: Env)
    ensures env.prefix == DescriptionPrefix && env.readable == readable && env.upload == upload
    ensures forall f :: env.mime(f) == GetMimeType(f)
  {
    Env(DescriptionPrefix, GetMimeType, readable, upload)
  }
}
