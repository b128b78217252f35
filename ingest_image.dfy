/** The image ingester into the `image` table: the supported picture names, their content types, and the run. */
module IngestImage {
  import opened Optional
  import opened PyStr
  import opened MimeTypes
  import opened FolderIngest

  /** The suffixes `ingest_images` keeps, compared with the lower-cased name. */
  const Suffixes: seq<string> := [".jpg", ".jpeg", ".png", ".gif", ".webp"]

  const DescriptionPrefix := "Image: "

  /** `get_mime_type`: the type of the lower-cased text after the last dot. */
  function GetMimeType(filename: string): (m: string)
    ensures m != OctetStream <==> Extension(filename) in {"jpg", "jpeg", "png", "gif", "webp"}
    ensures m == "image/jpeg" <==> Extension(filename) in {"jpg", "jpeg"}
  {
    ImageMime(Extension(filename))
  }

  /** Every file the run keeps is uploaded with a known image type. */
  lemma SupportedHasMime(f: string)
    requires Supported(f, Suffixes)
    ensures GetMimeType(f) != OctetStream
  {
    var k: nat :| k < |Suffixes| && EndsWith(Lower(f), Suffixes[k]);
    SuffixesDotted(k);
    ExtensionOfListed(f, Suffixes, k);
  }

  /** Each suffix is a dot followed by one of the typed extensions. */
  lemma SuffixesDotted(k: nat)
    requires k < |Suffixes|
    ensures |Suffixes[k]| > 0 && Suffixes[k][0] == '.' && '.' !in Suffixes[k][1..]
    ensures Suffixes[k][1..] in {"jpg", "jpeg", "png", "gif", "webp"}
  {
  }

  /** What `ingest_images` runs with: the description prefix and the image content types. */
  function ImageEnv(readable: string -> bool, upload: string -> Option<string>): (env: Env)
    ensures env.prefix == DescriptionPrefix && env.readable == readable && env.upload == upload
    ensures forall f :: env.mime(f) == GetMimeType(f)
  {
    Env(DescriptionPrefix, GetMimeType, readable, upload)
  }
}
