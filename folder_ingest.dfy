/**
 * The folder ingestion loop shared by the document and the image ingester: list the
 * folder, keep the supported names, and for each one read it, skip it when a row with
 * its title exists, upload it to WhatsApp, skip it when the upload fails, and stage a
 * new row. The staged rows are committed together, or all rolled back when reading a
 * file raises. The existence check sees rows staged earlier in the same run, since the
 * session flushes pending rows before each query.
 */
module FolderIngest {
  import opened Optional
  import opened PyStr
  import opened WhatsApp
  import opened Seqs

  /** A staged row: title, description, media id and file extension (the file bytes are not kept). */
  datatype Row = Row(title: string, description: string, mediaId: string, fileExtension: string)

  /** The titles of the rows, as a set. */
  function Titles(rs: seq<Row>): (ts: set<string>)
    ensures forall k :: 0 <= k < |rs| ==> rs[k].title in ts
  {
    if rs == [] then {} else Titles(rs[..|rs| - 1]) + {rs[|rs| - 1].title}
  }

  lemma TitlesSnoc(rs: seq<Row>, r: Row)
    ensures Titles(rs + [r]) == Titles(rs) + {r.title}
  {
    assert (rs + [r])[..|rs|] == rs;
  }

  /** `f.lower().endswith(suffixes)`. */
  predicate Supported(f: string, suffixes: seq<string>)
    ensures Supported(f, suffixes) <==> exists k :: 0 <= k < |suffixes| && EndsWith(Lower(f), suffixes[k])
  {
    EndsWithAny(Lower(f), suffixes)
  }

  /** The list comprehension over `os.listdir(folder)`: the supported names, in listing order. */
  function Select(listing: seq<string>, suffixes: seq<string>): (fs: seq<string>)
    ensures |fs| <= |listing|
    ensures forall f :: f in fs <==> f in listing && Supported(f, suffixes)
  {
    if listing == [] then []
    else (if Supported(listing[0], suffixes) then [listing[0]] else []) + Select(listing[1..], suffixes)
  }

  /** Selecting from two listings one after the other selects from each, in that order. */
  lemma {:induction false} SelectConcat(a: seq<string>, b: seq<string>, suffixes: seq<string>)
    ensures Select(a + b, suffixes) == Select(a, suffixes) + Select(b, suffixes)
  {
    if a == [] {
      assert a + b == b;
    } else {
      assert (a + b)[0] == a[0] && (a + b)[1..] == a[1..] + b;
      SelectConcat(a[1..], b, suffixes);
    }
  }

  /**
   * Order is kept: a name is selected exactly when it is supported, between what is
   * selected before it and what is selected after it.
   */
  lemma SelectOrder(a: seq<string>, f: string, b: seq<string>, suffixes: seq<string>)
    ensures Select(a + [f] + b, suffixes) ==
              Select(a, suffixes) + (if Supported(f, suffixes) then [f] else []) + Select(b, suffixes)
  {
    var sa, sf, sb := Select(a, suffixes), Select([f], suffixes), Select(b, suffixes);
    SelectConcat(a + [f], b, suffixes);
    SelectConcat(a, [f], suffixes);
    SelectOne(f, suffixes);
    assert Select(a + [f] + b, suffixes) == sa + sf + sb;
  }

  lemma SelectOne(f: string, suffixes: seq<string>)
    ensures Select([f], suffixes) == if Supported(f, suffixes) then [f] else []
  {
    assert [f][1..] == [];
  }

  /** `if not media_id` rejects `None` and `""`. */
  predicate UploadOk(m: Option<string>)
    ensures UploadOk(m) <==> m != None && m != Some("")
  {
    m.Some? && m.value != ""
  }

  /** `fname.lower().split(".")[-1]`. */
  function Extension(f: string): string { AfterLast(Lower(f), '.') }

  /** A name whose lower-case form ends in `"." + e` has extension `e`. */
  lemma ExtensionOfSuffix(f: string, e: string)
    requires EndsWith(Lower(f), "." + e) && '.' !in e
    ensures Extension(f) == e
  {
    var s := Lower(f);
    var p := s[..|s| - |e|];
    assert s == p + e;
    assert p[|p| - 1] == '.';
    AfterLastSuffix(p, e);
  }

  /** A name ending in one of the dotted suffixes has the text after that dot as its extension. */
  lemma ExtensionOfListed(f: string, suffixes: seq<string>, k: nat)
    requires k < |suffixes| && EndsWith(Lower(f), suffixes[k])
    requires |suffixes[k]| > 0 && suffixes[k][0] == '.' && '.' !in suffixes[k][1..]
    ensures Extension(f) == suffixes[k][1..]
  {
    assert suffixes[k] == "." + suffixes[k][1..];
    ExtensionOfSuffix(f, suffixes[k][1..]);
  }

  /** A name without a dot is its own extension, lower-cased. */
  lemma ExtensionNoDot(f: string)
    requires '.' !in f
    ensures Extension(f) == Lower(f)
  {
    assert '.' !in Lower(f) by {
      forall i | 0 <= i < |f| ensures Lower(f)[i] != '.' {
        assert f[i] != '.';
      }
    }
    AfterLastNoSep(Lower(f), '.');
  }

  /** The row staged for file `f` uploaded as `media`. */
  function RowFor(f: string, media: string, prefix: string): (r: Row)
    ensures StartsWith(f, r.title) && '.' !in r.fileExtension
    ensures r.description == prefix + f && r.mediaId == media
  {
    Row(SplitExt(f).0, prefix + f, media, Extension(f))
  }

  /**
   * What a run depends on besides the file names: the description prefix, the
   * ingester's `get_mime_type`, whether each file can be read, and what the WhatsApp
   * upload answers for each file.
   */
  datatype Env = Env(prefix: string, mime: string -> string, readable: string -> bool,
                     upload: string -> Option<string>)

  /** The uploads a run makes and the rows it stages; `rows == None` is a raised error. */
  datatype Run = Run(calls: seq<Call>, rows: Option<seq<Row>>)

  /**
   * The loop over the supported files `fs`, with `seen` the titles already in the table
   * (or staged earlier in the run).
   */
  function Stage(fs: seq<string>, seen: set<string>, env: Env): (r: Run)
    ensures |r.calls| <= |fs|
    ensures r.rows.Some? ==> |r.rows.value| <= |fs|
    decreases |fs|
  {
    if fs == [] then Run([], Some([]))
    else
      var f := fs[0];
      if !env.readable(f) then Run([], None)
      else if SplitExt(f).0 in seen then Stage(fs[1..], seen, env)
      else
        var m := env.upload(f);
        if !UploadOk(m) then
          var rest := Stage(fs[1..], seen, env);
          Run([Upload(env.mime(f))] + rest.calls, rest.rows)
        else
          var row := RowFor(f, m.value, env.prefix);
          var rest := Stage(fs[1..], seen + {row.title}, env);
          Run([Upload(env.mime(f))] + rest.calls,
              if rest.rows.None? then None else Some([row] + rest.rows.value))
  }

  /** The seen set the tail of a run starts from, after the first file of `fs`. */
  function SeenAfter(fs: seq<string>, seen: set<string>, env: Env): set<string>
    requires fs != []
  {
    var f := fs[0];
    if env.readable(f) && SplitExt(f).0 !in seen && UploadOk(env.upload(f)) then seen + {SplitExt(f).0}
    else seen
  }

  /** Indices shift by one when the first element is dropped. */
  lemma ExistsInTail(fs: seq<string>, p: string -> bool)
    requires fs != []
    ensures (exists i :: 0 <= i < |fs| && p(fs[i])) <==> p(fs[0]) || exists i :: 0 <= i < |fs[1..]| && p(fs[1..][i])
  {
    if exists i :: 0 <= i < |fs| && p(fs[i]) {
      var i :| 0 <= i < |fs| && p(fs[i]);
      if i > 0 { assert fs[1..][i - 1] == fs[i]; }
    }
    if exists i :: 0 <= i < |fs[1..]| && p(fs[1..][i]) {
      var i :| 0 <= i < |fs[1..]| && p(fs[1..][i]);
      assert fs[i + 1] == fs[1..][i];
    }
  }

  /** The run raises exactly when one of the files cannot be read: every file is read before any check. */
  lemma {:induction false} StageRaises(fs: seq<string>, seen: set<string>, env: Env)
    ensures Stage(fs, seen, env).rows.None? <==> exists i :: 0 <= i < |fs| && !env.readable(fs[i])
    decreases |fs|
  {
    if fs != [] {
      var unreadable := f => !env.readable(f);
      ExistsInTail(fs, unreadable);
      if env.readable(fs[0]) {
        var seen' := SeenAfter(fs, seen, env);
        StageRaises(fs[1..], seen', env);
        assert Stage(fs, seen, env).rows.None? <==> Stage(fs[1..], seen', env).rows.None?;
      }
    }
  }

  /** The row of every file of `fs` whose upload gives a media id, in order. */
  function Uploaded(fs: seq<string>, env: Env): seq<Row>
  {
    if fs == [] then []
    else
      var m := env.upload(fs[0]);
      (if UploadOk(m) then [RowFor(fs[0], m.value, env.prefix)] else []) + Uploaded(fs[1..], env)
  }

  /** The upload the first file of a run makes: none when its title is already present. */
  function StepCalls(f: string, seen: set<string>, env: Env): seq<Call> {
    if SplitExt(f).0 in seen then [] else [Upload(env.mime(f))]
  }

  /** The row a readable file stages: none when its title is present or its upload fails. */
  function StepRow(f: string, seen: set<string>, env: Env): Option<Row> {
    if SplitExt(f).0 !in seen && UploadOk(env.upload(f)) then Some(RowFor(f, env.upload(f).value, env.prefix))
    else None
  }

  /** A run is its first readable file's step followed by the run over the rest. */
  lemma StageStep(fs: seq<string>, seen: set<string>, env: Env)
    requires fs != [] && env.readable(fs[0])
    ensures var step := StepRow(fs[0], seen, env);
            var tail := Stage(fs[1..], SeenAfter(fs, seen, env), env);
            SeenAfter(fs, seen, env) == (if step.Some? then seen + {step.value.title} else seen) &&
            Stage(fs, seen, env).calls == StepCalls(fs[0], seen, env) + tail.calls &&
            Stage(fs, seen, env).rows ==
              if step.None? then tail.rows
              else if tail.rows.None? then None
              else Some([step.value] + tail.rows.value)
  {
    if SplitExt(fs[0]).0 in seen {
      assert StepCalls(fs[0], seen, env) + Stage(fs[1..], seen, env).calls == Stage(fs[1..], seen, env).calls;
    }
  }

  /** No staged title was present before the run, and every staged media id is non-empty. */
  lemma {:induction false} StageNotSeen(fs: seq<string>, seen: set<string>, env: Env)
    requires Stage(fs, seen, env).rows.Some?
    ensures var rs := Stage(fs, seen, env).rows.value;
            forall k :: 0 <= k < |rs| ==> rs[k].title !in seen && rs[k].mediaId != ""
    decreases |fs|
  {
    if fs != [] {
      assert env.readable(fs[0]);
      var seen' := SeenAfter(fs, seen, env);
      StageStep(fs, seen, env);
      StageNotSeen(fs[1..], seen', env);
      var f := fs[0];
      var rs := Stage(fs, seen, env).rows.value;
      var tail := Stage(fs[1..], seen', env).rows.value;
      var step := StepRow(f, seen, env);
      if step.None? {
        assert rs == tail && seen' == seen;
      } else {
        var row := step.value;
        assert row.title !in seen && row.mediaId != "";
        assert rs == [row] + tail;
        forall k | 0 <= k < |rs| ensures rs[k].title !in seen && rs[k].mediaId != "" {
          if k > 0 { assert rs[k] == tail[k - 1]; }
        }
      }
    }
  }

  predicate DistinctTitles(rs: seq<Row>) {
    forall k, l :: 0 <= k < l < |rs| ==> rs[k].title != rs[l].title
  }

  lemma DistinctCons(r: Row, tail: seq<Row>)
    requires forall k :: 0 <= k < |tail| ==> tail[k].title != r.title
    requires DistinctTitles(tail)
    ensures DistinctTitles([r] + tail)
  {
    var rs := [r] + tail;
    forall k, l | 0 <= k < l < |rs| ensures rs[k].title != rs[l].title {
      assert rs[l] == tail[l - 1];
      if k > 0 { assert rs[k] == tail[k - 1]; }
    }
  }

  /** No title is staged twice. */
  lemma {:induction false} StageDistinct(fs: seq<string>, seen: set<string>, env: Env)
    requires Stage(fs, seen, env).rows.Some?
    ensures DistinctTitles(Stage(fs, seen, env).rows.value)
    decreases |fs|
  {
    if fs != [] {
      var f := fs[0];
      assert env.readable(f);
      var seen' := SeenAfter(fs, seen, env);
      StageStep(fs, seen, env);
      StageDistinct(fs[1..], seen', env);
      var rs := Stage(fs, seen, env).rows.value;
      var tail := Stage(fs[1..], seen', env).rows.value;
      if SplitExt(f).0 in seen || !UploadOk(env.upload(f)) {
        assert rs == tail;
      } else {
        StageNotSeen(fs[1..], seen', env);
        assert rs == [RowFor(f, env.upload(f).value, env.prefix)] + tail;
        DistinctCons(RowFor(f, env.upload(f).value, env.prefix), tail);
      }
    }
  }

  /** Every staged row is the row of a file of the run whose upload gave a media id. */
  lemma {:induction false} StageFromRun(fs: seq<string>, seen: set<string>, env: Env)
    requires Stage(fs, seen, env).rows.Some?
    ensures forall r :: r in Stage(fs, seen, env).rows.value ==> r in Uploaded(fs, env)
    decreases |fs|
  {
    if fs != [] {
      var f := fs[0];
      assert env.readable(f);
      var seen' := SeenAfter(fs, seen, env);
      StageStep(fs, seen, env);
      StageFromRun(fs[1..], seen', env);
      var rs := Stage(fs, seen, env).rows.value;
      var tail := Stage(fs[1..], seen', env).rows.value;
      var up := Uploaded(fs, env);
      var upTail := Uploaded(fs[1..], env);
      if SplitExt(f).0 in seen || !UploadOk(env.upload(f)) {
        assert rs == tail;
        assert forall r :: r in upTail ==> r in up;
      } else {
        var row := RowFor(f, env.upload(f).value, env.prefix);
        assert rs == [row] + tail;
        assert up == [row] + upTail;
      }
    }
  }

  /** Some staged row carries title `t`. */
  predicate HasTitle(rs: seq<Row>, t: string) {
    exists k :: 0 <= k < |rs| && rs[k].title == t
  }

  lemma HasTitleCons(r: Row, tail: seq<Row>, t: string)
    requires HasTitle(tail, t) || r.title == t
    ensures HasTitle([r] + tail, t)
  {
    var rs := [r] + tail;
    if r.title == t {
      assert rs[0].title == t;
    } else {
      var k :| 0 <= k < |tail| && tail[k].title == t;
      assert rs[k + 1] == tail[k];
    }
  }

  /**
   * Nothing else is skipped: every file of a committed run whose title was not present
   * and whose upload gave a media id has its title staged (by it, or by an earlier file
   * with the same title).
   */
  lemma {:induction false} StageCovers(fs: seq<string>, seen: set<string>, env: Env)
    requires Stage(fs, seen, env).rows.Some?
    ensures forall i :: 0 <= i < |fs| && SplitExt(fs[i]).0 !in seen && UploadOk(env.upload(fs[i])) ==>
                        HasTitle(Stage(fs, seen, env).rows.value, SplitExt(fs[i]).0)
    decreases |fs|
  {
    if fs != [] {
      var f := fs[0];
      assert env.readable(f);
      var seen' := SeenAfter(fs, seen, env);
      StageStep(fs, seen, env);
      StageCovers(fs[1..], seen', env);
      var rs := Stage(fs, seen, env).rows.value;
      var tail := Stage(fs[1..], seen', env).rows.value;
      var step := StepRow(f, seen, env);
      forall i | 0 <= i < |fs| && SplitExt(fs[i]).0 !in seen && UploadOk(env.upload(fs[i]))
        ensures HasTitle(rs, SplitExt(fs[i]).0)
      {
        if step.None? {
          assert rs == tail && seen' == seen;
          if i == 0 {
            assert false;
          }
          assert fs[i] == fs[1..][i - 1];
        } else {
          assert rs == [step.value] + tail;
          if i > 0 && SplitExt(fs[i]).0 != step.value.title {
            assert fs[i] == fs[1..][i - 1];
          }
          HasTitleCons(step.value, tail, SplitExt(fs[i]).0);
        }
      }
    }
  }

  /** The rows of a whole run, from those staged so far and those the rest of the run stages. */
  function Resume(staged: seq<Row>, rest: Option<seq<Row>>): Option<seq<Row>> {
    if rest.None? then None else Some(staged + rest.value)
  }

  lemma ResumeCons(staged: seq<Row>, row: Row, tail: Option<seq<Row>>)
    ensures Resume(staged, if tail.None? then None else Some([row] + tail.value)) == Resume(staged + [row], tail)
  {
    if tail.Some? {
      assert staged + ([row] + tail.value) == (staged + [row]) + tail.value;
    }
  }
  /** Rows the table holds, and the answer of one ingestion run. */
  class Table {
    var rows: seq<Row>

    constructor (rows: seq<Row>)
      ensures this.rows == rows
    {
      this.rows := rows;
    }
  }

  /** No supported file, an error rolled back, or the staged rows committed. */
  datatype Outcome = NoFiles | RolledBack | Committed(added: nat)

  /**
   * One run over a folder. `listing == None` is a folder that cannot be listed (the
   * error is caught and rolled back like the others).
   */
  method Ingest(table: Table, client: Client, listing: Option<seq<string>>, suffixes: seq<string>, env: Env)
    returns (outcome: Outcome)
    modifies table, client
    ensures listing.None? ==>
              outcome == RolledBack && table.rows == old(table.rows) && client.calls == old(client.calls)
    ensures listing.Some? && Select(listing.value, suffixes) == [] ==>
              outcome == NoFiles && table.rows == old(table.rows) && client.calls == old(client.calls)
    ensures listing.Some? && Select(listing.value, suffixes) != [] ==>
              var run := Stage(Select(listing.value, suffixes), Titles(old(table.rows)), env);
              client.calls == old(client.calls) + run.calls &&
              (run.rows.None? ==> outcome == RolledBack && table.rows == old(table.rows)) &&
              (run.rows.Some? ==> outcome == Committed(|run.rows.value|) &&
                                  table.rows == old(table.rows) + run.rows.value)
  {
    if listing.None? {
      return RolledBack;
    }
    var fs := Select(listing.value, suffixes);
    if fs == [] {
      return NoFiles;
    }
    var staged := StageFiles(client, fs, table.rows, env);
    if staged.None? {
      return RolledBack;
    }
    table.rows := table.rows + staged.value;
    return Committed(|staged.value|);
  }

  /** The loop of a run over the supported files `fs`, against a table holding `rows`. */
  method StageFiles(client: Client, fs: seq<string>, rows: seq<Row>, env: Env) returns (staged: Option<seq<Row>>)
    modifies client
    ensures var run := Stage(fs, Titles(rows), env);
            client.calls == old(client.calls) + run.calls && staged == run.rows
  {
    ghost var calls0 := client.calls;
    ghost var run := Stage(fs, Titles(rows), env);
    var acc: seq<Row> := [];
    var todo := fs;
    assert rows + acc == rows;
    assert run.rows.Some? ==> acc + run.rows.value == run.rows.value;
    while todo != []
      invariant var rest := Stage(todo, Titles(rows + acc), env);
                client.calls + rest.calls == calls0 + run.calls && run.rows == Resume(acc, rest.rows)
      decreases |todo|
    {
      var f := todo[0];
      if !env.readable(f) {
        assert client.calls == calls0 + run.calls;
        return None;
      }
      ghost var before := client.calls;
      var row := StageOne(client, f, rows + acc, env);
      Advance(todo, rows, acc, env, row, before, calls0 + run.calls, run.rows);
      if row.Some? {
        acc := acc + [row.value];
      }
      todo := todo[1..];
    }
    assert acc + [] == acc && client.calls + [] == client.calls;
    return Some(acc);
  }

  /** The loop invariant of `StageFiles` carries over one readable file. */
  lemma Advance(todo: seq<string>, rows: seq<Row>, acc: seq<Row>, env: Env, row: Option<Row>,
                done: seq<Call>, total: seq<Call>, result: Option<seq<Row>>)
    requires todo != [] && env.readable(todo[0])
    requires row == StepRow(todo[0], Titles(rows + acc), env)
    requires var rest := Stage(todo, Titles(rows + acc), env);
             done + rest.calls == total && result == Resume(acc, rest.rows)
    ensures var acc' := if row.Some? then acc + [row.value] else acc;
            var rest := Stage(todo[1..], Titles(rows + acc'), env);
            (done + StepCalls(todo[0], Titles(rows + acc), env)) + rest.calls == total &&
            result == Resume(acc', rest.rows)
  {
    var seen := Titles(rows + acc);
    StageStep(todo, seen, env);
    var tail := Stage(todo[1..], SeenAfter(todo, seen, env), env);
    ConcatAssoc(done, StepCalls(todo[0], seen, env), tail.calls);
    if row.Some? {
      ResumeCons(acc, row.value, tail.rows);
      TitlesSnoc(rows + acc, row.value);
      ConcatAssoc(rows, acc, [row.value]);
    }
  }

  /** One readable file: the title check against the table, the upload, and the row to stage. */
  method StageOne(client: Client, f: string, rows: seq<Row>, env: Env) returns (row: Option<Row>)
    modifies client
    ensures client.calls == old(client.calls) + StepCalls(f, Titles(rows), env)
    ensures row == StepRow(f, Titles(rows), env)
  {
    var title := SplitExt(f).0;
    if title in Titles(rows) {
      return None;
    }
    client.UploadMedia(env.mime(f));
    var m := env.upload(f);
    if !UploadOk(m) {
      return None;
    }
    return Some(Row(title, env.prefix + f, m.value, Extension(f)));
  }
}
