/**
 * The SQL store behind the document and image handlers, as an in-memory sequence of rows
 * per table. A query's `.first()` is the first matching row in sequence order.
 */
module Db {
  import opened PyStr
  import opened WhatsApp

  /**
   * A row of the `document` or `image` table. Nullable text columns are `""` when NULL.
   * For the description, the media id and the file extension every read treats NULL and
   * empty alike. A NULL title would be shown as `None` in the handlers' messages and file
   * names, where the model shows the empty text.
   */
  datatype Record = Record(
    id: int,
    title: string,
    description: string,
    mediaId: string,
    fileExtension: string)

  /** `UPDATE ... SET media_id = m WHERE id = id`. */
  function SetMediaId(rs: seq<Record>, id: int, m: string): (r: seq<Record>)
    ensures |r| == |rs|
    ensures forall i :: 0 <= i < |rs| ==>
              r[i] == (if rs[i].id == id then rs[i].(mediaId := m) else rs[i])
  {
    if rs == [] then []
    else
      var tail := SetMediaId(rs[1..], id, m);
      var r := [if rs[0].id == id then rs[0].(mediaId := m) else rs[0]] + tail;
      assert forall i :: 1 <= i < |rs| ==> r[i] == tail[i - 1] && rs[i] == rs[1..][i - 1];
      r
  }

  /**
   * The table after an upload of row `rec`: the new media id is recorded when the upload
   * succeeded and saving it did not fail; otherwise the table is as it was.
   */
  function UploadTable(rs: seq<Record>, rec: Record, o: Outcomes): (t: seq<Record>)
    ensures t != rs ==> UploadSucceeded(o) && o.mediaIdSaved
    ensures UploadSucceeded(o) && o.mediaIdSaved ==> t == SetMediaId(rs, rec.id, o.uploadedMediaId.value)
  {
    if UploadSucceeded(o) && o.mediaIdSaved then SetMediaId(rs, rec.id, o.uploadedMediaId.value) else rs
  }

  /**
   * The first row for which `matches` holds, as an index: what
   * `session.query(T).filter(cond).first()` returns.
   */
  function FirstMatch(rs: seq<Record>, matches: Record -> bool): (r: int)
    ensures -1 <= r < |rs|
    ensures r >= 0 ==> matches(rs[r]) && forall j :: 0 <= j < r ==> !matches(rs[j])
    ensures r == -1 ==> forall j :: 0 <= j < |rs| ==> !matches(rs[j])
  {
    if rs == [] then -1
    else if matches(rs[0]) then 0
    else
      var k := FirstMatch(rs[1..], matches);
      assert forall j :: 1 <= j < |rs| ==> rs[j] == rs[1..][j - 1];
      if k < 0 then -1 else k + 1
  }

  /** The titles of at most the first ten rows (`query(T.title).limit(10).all()`). */
  function FirstTitles(rs: seq<Record>): (ts: seq<string>)
    ensures |ts| == if |rs| < 10 then |rs| else 10
    ensures forall i :: 0 <= i < |ts| ==> ts[i] == rs[i].title
  {
    var n := if |rs| < 10 then |rs| else 10;
    seq(n, i requires 0 <= i < n => rs[i].title)
  }

  /** What a `... .filter(...).first()` lookup gives: a row, no row, or a raised database error. */
  datatype Lookup = Found(rec: Record) | NotFound | DbError

  /**
   * A row matches a normalised query when the query occurs in the row's normalised title
   * or description (`norm(col) ILIKE '%q%'`; both sides are lower case already).
   */
  predicate Matches(r: Record, q: string, norm: string -> string)
    ensures q == [] ==> Matches(r, q, norm)
    ensures Matches(r, q, norm) ==> |q| <= |norm(r.title)| || |q| <= |norm(r.description)|
  {
    ContainsEnds(norm(r.title), q);
    Contains(norm(r.title), q) || Contains(norm(r.description), q)
  }

  /**
   * The lookup both media handlers run: an empty cleaned query finds nothing without
   * touching the database; otherwise the first matching row, or the database error.
   */
  function FindFirst(rs: seq<Record>, q: string, norm: string -> string, dbAvailable: bool): (r: Lookup)
    ensures q == "" ==> r == NotFound
    ensures r.DbError? <==> q != "" && !dbAvailable
    ensures r.Found? ==> exists i :: 0 <= i < |rs| && rs[i] == r.rec && Matches(rs[i], q, norm) &&
                                     forall j :: 0 <= j < i ==> !Matches(rs[j], q, norm)
    ensures r.NotFound? && q != "" ==> forall j :: 0 <= j < |rs| ==> !Matches(rs[j], q, norm)
  {
    if q == "" then NotFound
    else if !dbAvailable then DbError
    else
      var i := FirstMatch(rs, row => Matches(row, q, norm));
      if i < 0 then NotFound else Found(rs[i])
  }

  /** What a handler does: the client calls it makes, the table it leaves, and whether it raised. */
  datatype Effect = Effect(calls: seq<Call>, table: seq<Record>, raised: bool)

  /**
   * The list reply of both media handlers: `empty` when there are no rows, otherwise a
   * header line followed by one bulleted line per title of the first ten rows. Read back
   * line by line, the reply gives the header and exactly those lines.
   */
  function ListText(rs: seq<Record>, empty: string, header: string, bullet: string): (text: string)
    ensures rs == [] ==> text == empty
    ensures rs != [] && '\n' !in header && '\n' !in bullet && (forall i :: 0 <= i < |rs| ==> '\n' !in rs[i].title) ==>
              var lines := SplitAll(text, "\n");
              |lines| == 1 + |FirstTitles(rs)| && lines[0] == header &&
              forall k :: 1 <= k < |lines| ==> lines[k] == bullet + rs[k - 1].title
  {
    var ts := FirstTitles(rs);
    if ts == [] then empty
    else
      var items := seq(|ts|, i requires 0 <= i < |ts| => bullet + ts[i]);
      var lines := [header] + items;
      assert Join("\n", lines) == header + "\n" + Join("\n", items);
      assert '\n' !in header && '\n' !in bullet && (forall i :: 0 <= i < |rs| ==> '\n' !in rs[i].title) ==>
               SplitAll(Join("\n", lines), "\n") == lines by {
        if '\n' !in header && '\n' !in bullet && forall i :: 0 <= i < |rs| ==> '\n' !in rs[i].title {
          forall k | 0 <= k < |lines| ensures '\n' !in lines[k] {
            if k > 0 { assert lines[k] == bullet + rs[k - 1].title; }
          }
          SplitJoinChar(lines, '\n');
        }
      }
      header + "\n" + Join("\n", items)
  }

  class Database {
    var documents: seq<Record>
    var images: seq<Record>

    constructor (documents: seq<Record>, images: seq<Record>)
      ensures this.documents == documents && this.images == images
    {
      this.documents := documents;
      this.images := images;
    }
  }
}
