/**
 * The image collection of the vector store as the lexical stage sees it: each picture is
 * stored under a slug of its file name with a human label, and a query is scored
 * against every label by shared words. The embedding search that follows a weak lexical
 * result is not part of this model.
 */
module IngestImg {
  import opened PyStr
  import opened FolderIngest
  import opened Seqs

  // ---------------------------------------------------------------- names

  /** `slugify_filename`: the stem, lower-cased, with spaces and underscores as hyphens. */
  function SlugifyFilename(filename: string): (r: string)
    ensures |r| == |SplitExt(filename).0|
    ensures ' ' !in r && '_' !in r && NoUpper(r)
    ensures forall i :: 0 <= i < |r| ==>
              var c := Lower(SplitExt(filename).0)[i]; r[i] == if c == ' ' || c == '_' then '-' else c
  {
    var stem := SplitExt(filename).0;
    SlugChars(stem);
    Slug(stem)
  }

  /** The slug of a stem, before any extension is considered. */
  function Slug(stem: string): string
  {
    ReplaceChar(ReplaceChar(Lower(stem), ' ', '-'), '_', '-')
  }

  /** Character by character, the slug is the lower-cased stem with spaces and underscores as hyphens. */
  lemma SlugChars(stem: string)
    ensures var r := Slug(stem); |r| == |stem| && ' ' !in r && '_' !in r && NoUpper(r)
    ensures var r := Slug(stem);
            forall i :: 0 <= i < |r| ==> var c := Lower(stem)[i]; r[i] == if c == ' ' || c == '_' then '-' else c
  {
    var low := Lower(stem);
    var dashed := ReplaceChar(low, ' ', '-');
    var r := ReplaceChar(dashed, '_', '-');
    assert r == Slug(stem);
    forall i | 0 <= i < |r| ensures r[i] == if low[i] == ' ' || low[i] == '_' then '-' else low[i] {
      assert dashed[i] == if low[i] == ' ' then '-' else low[i];
    }
    assert NoUpper(r) by {
      forall i | 0 <= i < |r| ensures !IsUpperChar(r[i]) {
        assert !IsUpperChar(low[i]);
      }
    }
  }

  /** The label: the stem with underscores and hyphens read as spaces. */
  function Label(filename: string): (r: string)
    ensures |r| == |SplitExt(filename).0|
    ensures '_' !in r && '-' !in r
    ensures forall i :: 0 <= i < |r| ==>
              var c := SplitExt(filename).0[i]; r[i] == if c == '_' || c == '-' then ' ' else c
  {
    ReplaceChar(ReplaceChar(SplitExt(filename).0, '_', ' '), '-', ' ')
  }

  /** The id is the label lower-cased with its spaces as hyphens: both are built from the same stem. */
  lemma SlugOfLabel(filename: string)
    ensures SlugifyFilename(filename) == ReplaceChar(Lower(Label(filename)), ' ', '-')
  {
    var a := SlugifyFilename(filename);
    var b := ReplaceChar(Lower(Label(filename)), ' ', '-');
    var stem := SplitExt(filename).0;
    forall i | 0 <= i < |a| ensures a[i] == b[i] {
      var c := stem[i];
      assert Lower(stem)[i] == LowerChar(c);
      assert Lower(Label(filename))[i] == LowerChar(Label(filename)[i]);
    }
  }

  /** A file name without a dot after its first character keeps its whole name as the slug's source. */
  lemma SlugWithoutExtension(filename: string)
    requires '.' !in filename
    ensures SlugifyFilename(filename) == ReplaceChar(ReplaceChar(Lower(filename), ' ', '-'), '_', '-')
  {
    AfterLastNoSep(filename, '.');
  }

  /** `os.path.join(folder, name)` for a name from `os.listdir`. */
  function JoinPath(folder: string, name: string): (p: string)
    ensures EndsWith(p, name)
    ensures StartsWith(name, "/") || folder == "" ==> p == name
    ensures !StartsWith(name, "/") && folder != "" ==>
              StartsWith(p, folder) && EndsWith(p[..|p| - |name|], "/") && |p| <= |folder| + 1 + |name|
  {
    if StartsWith(name, "/") || folder == "" then name
    else if EndsWith(folder, "/") then folder + name
    else folder + "/" + name
  }

  /** `os.path.basename(path)`: the text after the last `/`. */
  function Basename(path: string): (r: string)
    ensures '/' !in r && EndsWith(path, r)
    ensures |r| < |path| ==> path[|path| - |r| - 1] == '/'
  {
    AfterLast(path, '/')
  }

  // ------------------------------------------------------------ ingestion

  /** A stored item: its id, the document text and metadata label, and the path metadata. */
  datatype Entry = Entry(id: string, caption: string, path: string)

  /** The names `ingest_images` keeps, compared with the lower-cased name. */
  const ImageSuffixes: seq<string> := [".png", ".jpg", ".jpeg"]

  function Ids(es: seq<Entry>): (ids: set<string>)
    ensures forall k :: 0 <= k < |es| ==> es[k].id in ids
  {
    if es == [] then {} else Ids(es[..|es| - 1]) + {es[|es| - 1].id}
  }

  lemma IdsSnoc(es: seq<Entry>, e: Entry)
    ensures Ids(es + [e]) == Ids(es) + {e.id}
  {
    assert (es + [e])[..|es|] == es;
  }

  /** The item stored for the image name `f` of `folder`. */
  function EntryOf(folder: string, f: string): (e: Entry)
    ensures e.id == SlugifyFilename(f) && e.caption == Label(f)
  {
    Entry(SlugifyFilename(f), Label(f), JoinPath(folder, f))
  }

  /** The items of every image name, whether or not the loop keeps it. */
  function EntriesOf(fs: seq<string>, folder: string): (es: seq<Entry>)
    ensures |es| == |fs|
  {
    if fs == [] then [] else [EntryOf(folder, fs[0])] + EntriesOf(fs[1..], folder)
  }

  lemma {:induction false} EntriesOfAt(fs: seq<string>, folder: string, i: nat)
    requires i < |fs|
    ensures EntriesOf(fs, folder)[i] == EntryOf(folder, fs[i])
    decreases i
  {
    if i > 0 {
      EntriesOfAt(fs[1..], folder, i - 1);
    }
  }

  /**
   * The items the loop keeps out of `es`, with `ids` the ids already stored: one whose
   * file fails to open as an image is skipped, as is one whose id is stored.
   */
  function Kept(es: seq<Entry>, opens: string -> bool, ids: set<string>): (r: seq<Entry>)
    ensures |r| <= |es|
    decreases |es|
  {
    if es == [] then []
    else if !opens(es[0].path) || es[0].id in ids then Kept(es[1..], opens, ids)
    else [es[0]] + Kept(es[1..], opens, ids + {es[0].id})
  }

  /** What the loop adds for the image names `fs` of `folder`. */
  function Added(fs: seq<string>, folder: string, opens: string -> bool, ids: set<string>): seq<Entry> {
    Kept(EntriesOf(fs, folder), opens, ids)
  }

  predicate DistinctIds(es: seq<Entry>) {
    forall k, l :: 0 <= k < l < |es| ==> es[k].id != es[l].id
  }

  lemma DistinctIdsCons(e: Entry, tail: seq<Entry>)
    requires forall k :: 0 <= k < |tail| ==> tail[k].id != e.id
    requires DistinctIds(tail)
    ensures DistinctIds([e] + tail)
  {
    var es := [e] + tail;
    forall k, l | 0 <= k < l < |es| ensures es[k].id != es[l].id {
      assert es[l] == tail[l - 1];
      if k > 0 { assert es[k] == tail[k - 1]; }
    }
  }

  /** Kept items have ids that were not stored, and no id is kept twice. */
  lemma {:induction false} KeptFresh(es: seq<Entry>, opens: string -> bool, ids: set<string>)
    ensures forall k :: 0 <= k < |Kept(es, opens, ids)| ==> Kept(es, opens, ids)[k].id !in ids
    ensures DistinctIds(Kept(es, opens, ids))
    decreases |es|
  {
    if es != [] {
      var e := es[0];
      if !opens(e.path) || e.id in ids {
        KeptFresh(es[1..], opens, ids);
      } else {
        KeptFresh(es[1..], opens, ids + {e.id});
        var tail := Kept(es[1..], opens, ids + {e.id});
        var r := [e] + tail;
        DistinctIdsCons(e, tail);
        forall k | 0 <= k < |r| ensures r[k].id !in ids {
          if k > 0 { assert r[k] == tail[k - 1]; }
        }
      }
    }
  }

  /** Added items have ids that were not stored, and no id is added twice. */
  lemma AddedFresh(fs: seq<string>, folder: string, opens: string -> bool, ids: set<string>)
    ensures forall k :: 0 <= k < |Added(fs, folder, opens, ids)| ==> Added(fs, folder, opens, ids)[k].id !in ids
    ensures DistinctIds(Added(fs, folder, opens, ids))
  {
    KeptFresh(EntriesOf(fs, folder), opens, ids);
  }

  /** The loop keeps only items it was given. */
  lemma {:induction false} KeptFrom(es: seq<Entry>, opens: string -> bool, ids: set<string>)
    ensures forall e :: e in Kept(es, opens, ids) ==> e in es
    decreases |es|
  {
    if es != [] {
      assert es == [es[0]] + es[1..];
      KeptFrom(es[1..], opens, ids);
      KeptFrom(es[1..], opens, ids + {es[0].id});
    }
  }

  /** Every added item is the item of one of the run's image names: its slug, its label and its path. */
  lemma AddedFromNames(fs: seq<string>, folder: string, opens: string -> bool, ids: set<string>)
    ensures forall e :: e in Added(fs, folder, opens, ids) ==> e in EntriesOf(fs, folder)
  {
    KeptFrom(EntriesOf(fs, folder), opens, ids);
  }

  /** An item that opens, whose id is not stored and differs from the earlier items' ids, is kept. */
  lemma {:induction false} KeptCovers(es: seq<Entry>, opens: string -> bool, ids: set<string>, i: nat)
    requires i < |es| && opens(es[i].path) && es[i].id !in ids
    requires forall j :: 0 <= j < i ==> es[j].id != es[i].id
    ensures es[i] in Kept(es, opens, ids)
    decreases i
  {
    if i > 0 {
      var e, rest := es[0], es[1..];
      assert rest[i - 1] == es[i];
      forall j | 0 <= j < i - 1 ensures rest[j].id != rest[i - 1].id {
        assert rest[j] == es[j + 1];
      }
      if !opens(e.path) || e.id in ids {
        KeptCovers(rest, opens, ids, i - 1);
      } else {
        KeptCovers(rest, opens, ids + {e.id}, i - 1);
      }
    }
  }

  /** An image that opens, whose slug is not stored and differs from the earlier names' slugs, is added. */
  lemma AddedCovers(fs: seq<string>, folder: string, opens: string -> bool, ids: set<string>, i: nat)
    requires i < |fs|
    requires opens(EntryOf(folder, fs[i]).path)
    requires SlugifyFilename(fs[i]) !in ids
    requires forall j :: 0 <= j < i ==> SlugifyFilename(fs[j]) != SlugifyFilename(fs[i])
    ensures EntryOf(folder, fs[i]) in Added(fs, folder, opens, ids)
  {
    var es := EntriesOf(fs, folder);
    EntriesOfAt(fs, folder, i);
    forall j | 0 <= j < i ensures es[j].id != es[i].id {
      EntriesOfAt(fs, folder, j);
    }
    KeptCovers(es, opens, ids, i);
  }

  /** One image name's step of `Added`. */
  lemma AddedStep(fs: seq<string>, folder: string, opens: string -> bool, ids: set<string>)
    requires fs != []
    ensures var e := EntryOf(folder, fs[0]);
            Added(fs, folder, opens, ids) ==
              if !opens(e.path) || e.id in ids then Added(fs[1..], folder, opens, ids)
              else [e] + Added(fs[1..], folder, opens, ids + {e.id})
  {
    var es := EntriesOf(fs, folder);
    assert es[0] == EntryOf(folder, fs[0]) && es[1..] == EntriesOf(fs[1..], folder);
  }

  /** The image collection: its items in insertion order. */
  class Collection {
    var entries: seq<Entry>

    constructor (entries: seq<Entry>)
      ensures this.entries == entries
    {
      this.entries := entries;
    }
  }

  /**
   * `ingest_images`: nothing happens for a missing folder or one without images;
   * otherwise each image is added unless it fails to open or its id is stored.
   */
  method IngestImages(coll: Collection, folderExists: bool, folder: string, listing: seq<string>,
                      opens: string -> bool)
    modifies coll
    ensures !folderExists ==> coll.entries == old(coll.entries)
    ensures folderExists ==>
              coll.entries == old(coll.entries) +
                              Added(Select(listing, ImageSuffixes), folder, opens, Ids(old(coll.entries)))
  {
    if !folderExists {
      return;
    }
    var images := Select(listing, ImageSuffixes);
    if images == [] {
      return;
    }
    AddImages(coll, images, folder, opens);
  }

  /** The loop of `ingest_images` over the image names. */
  method AddImages(coll: Collection, images: seq<string>, folder: string, opens: string -> bool)
    modifies coll
    ensures coll.entries == old(coll.entries) + Added(images, folder, opens, Ids(old(coll.entries)))
  {
    ghost var goal := coll.entries + Added(images, folder, opens, Ids(coll.entries));
    var todo := images;
    while todo != []
      invariant coll.entries + Added(todo, folder, opens, Ids(coll.entries)) == goal
      decreases |todo|
    {
      AddedStep(todo, folder, opens, Ids(coll.entries));
      var f := todo[0];
      var path := JoinPath(folder, f);
      if !opens(path) {
        todo := todo[1..];
        continue;
      }
      var caption := Label(f);
      var id := SlugifyFilename(f);
      if id in Ids(coll.entries) {
        todo := todo[1..];
        continue;
      }
      var e := Entry(id, caption, path);
      assert e == EntryOf(folder, f);
      ghost var rest := Added(todo[1..], folder, opens, Ids(coll.entries) + {id});
      IdsSnoc(coll.entries, e);
      ConcatAssoc(coll.entries, [e], rest);
      coll.entries := coll.entries + [e];
      todo := todo[1..];
    }
    assert coll.entries + [] == coll.entries;
  }

  // --------------------------------------------------------------- scoring

  /** `s.lower().strip()`. */
  function Norm(s: string): (r: string)
    ensures |r| <= |s|
    ensures r == [] || (!IsSpace(r[0]) && !IsSpace(r[|r| - 1]))
  {
    Strip(Lower(s))
  }

  /** `set(s.split())`. */
  function WordSet(s: string): (ws: set<string>)
    ensures forall w :: w in ws ==> w != [] && NoSpace(w)
    ensures forall k :: 0 <= k < |Words(s)| ==> Words(s)[k] in ws
  {
    set w | w in Words(s)
  }

  /** `len(q) < len(l) * 0.3` with exact rational arithmetic. */
  predicate ShortInside(q: string, l: string)
    ensures ShortInside(q, l) <==> Contains(l, q) && 10 * |q| < 3 * |l|
  {
    Contains(l, q) && (|q| as real) < (|l| as real) * 0.3
  }

  lemma SubsetCard(a: set<string>, b: set<string>)
    requires a <= b
    ensures |a| <= |b|
  {
    if a != {} {
      var x :| x in a;
      SubsetCard(a - {x}, b - {x});
    }
  }

  /** `len(matching) / len(query_words)`: the share of the query's words that match. */
  function Share(matching: nat, total: nat): (r: real)
    requires matching <= total && 0 < total
    ensures 0.0 <= r <= 1.0
    ensures r > 0.0 <==> matching > 0
    ensures matching == total ==> r == 1.0
  {
    if matching == total then 1.0
    else
      var r := (matching as real) / (total as real);
      assert r * (total as real) == matching as real;
      r
  }

  /**
   * `calculate_match_score`: 1 for labels equal after lower-casing and trimming; else
   * the share of query words found among the label words, plus 0.2 when all of them
   * are, halved when the query is a short piece of a long label.
   */
  function MatchScore(query: string, name: string): (s: real)
    ensures 0.0 <= s <= 1.2
  {
    var q, l := Norm(query), Norm(name);
    if q == l then 1.0
    else if WordSet(q) == {} then 0.0
    else WordScore(WordSet(q), WordSet(l), ShortInside(q, l))
  }

  /**
   * What the score promises: 1 for an exact match, 0 for a query without words, above
   * zero exactly when the texts match or share a word, 1.2 for a query whose words all
   * appear in a label it is not a short piece of, and at most 0.6 for a short piece.
   */
  lemma MatchScoreFacts(query: string, name: string)
    ensures Norm(query) == Norm(name) ==> MatchScore(query, name) == 1.0
    ensures (Norm(query) != Norm(name) && WordSet(Norm(query)) == {}) ==> MatchScore(query, name) == 0.0
    ensures MatchScore(query, name) > 0.0 <==>
              Norm(query) == Norm(name) || WordSet(Norm(query)) * WordSet(Norm(name)) != {}
    ensures (Norm(query) != Norm(name) && WordSet(Norm(query)) != {} &&
             WordSet(Norm(query)) <= WordSet(Norm(name)) && !ShortInside(Norm(query), Norm(name))) ==>
              MatchScore(query, name) == 1.2
    ensures (ShortInside(Norm(query), Norm(name)) && Norm(query) != Norm(name)) ==> MatchScore(query, name) <= 0.6
  {
  }

  /** The word part of the score, for a query with at least one word. */
  function WordScore(qw: set<string>, lw: set<string>, short: bool): (s: real)
    requires qw != {}
    ensures 0.0 <= s <= 1.2
    ensures s > 0.0 <==> qw * lw != {}
    ensures qw <= lw && !short ==> s == 1.2
    ensures short ==> s <= 0.6
  {
    var shared := qw * lw;
    SubsetCard(shared, qw);
    assert qw <= lw ==> shared == qw;
    assert shared != {} <==> |shared| > 0;
    var ratio := Share(|shared|, |qw|);
    var withBonus := if qw <= lw then ratio + 0.2 else ratio;
    if short then withBonus * 0.5 else withBonus
  }

  // -------------------------------------------------------------- search

  /** The metadata of a stored item. */
  datatype Meta = Meta(caption: string, path: string)

  /** A kept candidate: its score and its position among all items. */
  datatype Candidate = Candidate(score: real, index: nat)

  const BaseUrl := "https://selected-full-guppy.ngrok-free.app/static"

  /** The lexical stage's answer: a picture URL, or fall through to the embedding search. */
  datatype Lexical = Hit(url: string) | Fallback

  /** The score of every item against the query, in item order. */
  function Scores(query: string, metas: seq<Meta>): (ss: seq<real>) {
    seq(|metas|, i requires 0 <= i < |metas| => MatchScore(query, metas[i].caption))
  }

  /** The positions scoring above zero with their scores, in item order. */
  function Candidates(ss: seq<real>): (cs: seq<Candidate>)
    ensures forall k :: 0 <= k < |cs| ==> cs[k].index < |ss| && cs[k].score > 0.0 && cs[k].score == ss[cs[k].index]
    ensures forall k, l :: 0 <= k < l < |cs| ==> cs[k].index < cs[l].index
  {
    if ss == [] then []
    else
      var n := |ss| - 1;
      var init := Candidates(ss[..n]);
      if ss[n] > 0.0 then init + [Candidate(ss[n], n)] else init
  }

  /** One more position adds a candidate exactly when it scores above zero. */
  lemma CandidatesSnoc(ss: seq<real>, x: real)
    ensures Candidates(ss + [x]) == if x > 0.0 then Candidates(ss) + [Candidate(x, |ss|)] else Candidates(ss)
  {
    assert (ss + [x])[..|ss|] == ss;
  }

  /** Every position scoring above zero is a candidate. */
  lemma {:induction false} CandidatesCover(ss: seq<real>, j: nat)
    requires j < |ss| && ss[j] > 0.0
    ensures exists k :: 0 <= k < |Candidates(ss)| && Candidates(ss)[k].index == j
    decreases |ss|
  {
    var n := |ss| - 1;
    var init := Candidates(ss[..n]);
    var cs := Candidates(ss);
    if j == n {
      assert cs[|cs| - 1].index == n;
    } else {
      assert ss[..n][j] == ss[j];
      CandidatesCover(ss[..n], j);
      var k :| 0 <= k < |init| && init[k].index == j;
      assert cs[k] == init[k];
    }
  }

  /**
   * The head of the candidates after the stable sort by descending score: the first
   * candidate with the highest score.
   */
  function Best(cs: seq<Candidate>): (b: nat)
    requires cs != []
    ensures b < |cs|
    ensures forall k :: 0 <= k < |cs| ==> cs[k].score <= cs[b].score
    ensures forall k :: 0 <= k < b ==> cs[k].score < cs[b].score
  {
    if |cs| == 1 then 0
    else
      var b := Best(cs[..|cs| - 1]);
      assert forall k :: 0 <= k < |cs| - 1 ==> cs[..|cs| - 1][k] == cs[k];
      if cs[|cs| - 1].score > cs[b].score then |cs| - 1 else b
  }

  /** The URL served for an item: the base URL and the file's base name. */
  function UrlFor(m: Meta): (u: string)
    ensures StartsWith(u, BaseUrl + "/") && EndsWith(u, Basename(m.path))
    ensures '/' !in u[|BaseUrl + "/"|..]
  {
    var u := BaseUrl + "/" + Basename(m.path);
    assert u[|BaseUrl + "/"|..] == Basename(m.path);
    u
  }

  /**
   * The lexical stage of `search_image`: the best candidate when it scores at least 0.5
   * (the 0.7 and the 0.5 branches answer alike).
   */
  function SearchLexical(query: string, metas: seq<Meta>): (r: Lexical)
    ensures r.Hit? ==> exists j :: 0 <= j < |metas| && r.url == UrlFor(metas[j])
  {
    var cs := Candidates(Scores(query, metas));
    if cs == [] then Fallback
    else
      var best := cs[Best(cs)];
      if best.score >= 0.7 then Hit(UrlFor(metas[best.index]))
      else if best.score >= 0.5 then Hit(UrlFor(metas[best.index]))
      else Fallback
  }

  /** Position `j` holds the highest score, and no earlier position does. */
  predicate FirstBest(ss: seq<real>, j: nat) {
    j < |ss| &&
    (forall i :: 0 <= i < |ss| ==> ss[i] <= ss[j]) &&
    (forall i :: 0 <= i < j ==> ss[i] < ss[j])
  }

  /** The best candidate is the first best position when some position scores above zero. */
  lemma BestIsFirstBest(ss: seq<real>)
    requires Candidates(ss) != []
    ensures FirstBest(ss, Candidates(ss)[Best(Candidates(ss))].index)
  {
    var cs := Candidates(ss);
    var b := Best(cs);
    var j := cs[b].index;
    forall i | 0 <= i < |ss| ensures ss[i] <= ss[j] {
      if ss[i] > 0.0 {
        CandidatesCover(ss, i);
        var k :| 0 <= k < |cs| && cs[k].index == i;
      }
    }
    forall i | 0 <= i < j ensures ss[i] < ss[j] {
      if ss[i] > 0.0 {
        CandidatesCover(ss, i);
        var k :| 0 <= k < |cs| && cs[k].index == i;
        assert k < b;
      }
    }
  }

  /** No candidate means every position scores zero or less. */
  lemma NoCandidates(ss: seq<real>, j: nat)
    requires Candidates(ss) == [] && j < |ss|
    ensures ss[j] <= 0.0
  {
    if ss[j] > 0.0 {
      CandidatesCover(ss, j);
    }
  }

  /**
   * The lexical stage answers with a picture exactly when some item scores at least 0.5,
   * and the picture is that of the first item with the highest score.
   */
  lemma LexicalHit(query: string, metas: seq<Meta>)
    ensures SearchLexical(query, metas).Hit? <==>
              exists j :: 0 <= j < |metas| && MatchScore(query, metas[j].caption) >= 0.5
    ensures SearchLexical(query, metas).Hit? ==>
              exists j: nat :: FirstBest(Scores(query, metas), j) && SearchLexical(query, metas).url == UrlFor(metas[j])
  {
    var ss := Scores(query, metas);
    var cs := Candidates(ss);
    var r := SearchLexical(query, metas);
    if cs == [] {
      assert r == Fallback;
      forall j | 0 <= j < |metas| ensures MatchScore(query, metas[j].caption) < 0.5 {
        NoCandidates(ss, j);
      }
    } else {
      BestIsFirstBest(ss);
      var b := Best(cs);
      var j := cs[b].index;
      assert r == if cs[b].score >= 0.5 then Hit(UrlFor(metas[j])) else Fallback;
      assert FirstBest(ss, j) && cs[b].score == ss[j];
      assert ss[j] == MatchScore(query, metas[j].caption);
      if i :| 0 <= i < |metas| && MatchScore(query, metas[i].caption) >= 0.5 {
        assert ss[i] <= ss[j];
      }
    }
  }

  /** The candidate loop of `search_image`. */
  method CollectCandidates(query: string, metas: seq<Meta>) returns (candidates: seq<Candidate>)
    ensures candidates == Candidates(Scores(query, metas))
  {
    ghost var ss := Scores(query, metas);
    candidates := [];
    var i := 0;
    while i < |metas|
      invariant 0 <= i <= |metas|
      invariant candidates == Candidates(ss[..i])
    {
      var score := MatchScore(query, metas[i].caption);
      assert score == ss[i];
      PrefixSnoc(ss, i);
      CandidatesSnoc(ss[..i], score);
      if score > 0.0 {
        candidates := candidates + [Candidate(score, i)];
      }
      i := i + 1;
    }
    PrefixAll(ss);
  }

  /** `search_image` up to the embedding fallback, over the collected candidates. */
  method SearchImage(query: string, metas: seq<Meta>) returns (r: Lexical)
    ensures r == SearchLexical(query, metas)
  {
    var candidates := CollectCandidates(query, metas);
    if candidates != [] {
      var best := candidates[Best(candidates)];
      if best.score >= 0.7 {
        return Hit(UrlFor(metas[best.index]));
      } else if best.score >= 0.5 {
        return Hit(UrlFor(metas[best.index]));
      }
    }
    return Fallback;
  }
}
