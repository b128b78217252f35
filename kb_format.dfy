/**
 * The knowledge-base tools of both MCP servers render a decoded JSON file as numbered
 * question/answer text; the two differ only in their wording, collected here in `Wording`.
 */
module KbFormat {
  import opened PyStr
  import opened PyJson
  import opened Seqs

  /** The fixed texts of one server's rendering. */
  datatype Wording = Wording(
    header: string,           // the opening line and blank line
    questionTag: string,      // the letter before a question's number
    answerTag: string,        // the letter before an answer's number
    unknownQuestion: string,  // used when an item has no "question" key
    unknownAnswer: string,    // used when an item has no "answer" key
    contentTag: string)       // introduces the dump of a value that is not a list

  /** The question shown for the item numbered `i`. */
  function QuestionOf(w: Wording, i: nat, item: Json, show: Json -> string): (q: string)
    ensures item.Obj? && "question" in item.fields && item.fields["question"].Str? ==> q == item.fields["question"].s
    ensures item.Obj? && "question" !in item.fields ==> q == w.unknownQuestion
    ensures !item.Obj? ==> q == "Item " + NatToString(i)
  {
    if item.Obj? then StrOf(GetOr(item.fields, "question", Json.Str(w.unknownQuestion)), show)
    else "Item " + NatToString(i)
  }

  /** The answer shown for an item. */
  function AnswerOf(w: Wording, item: Json, show: Json -> string): (a: string)
    ensures item.Obj? && "answer" in item.fields && item.fields["answer"].Str? ==> a == item.fields["answer"].s
    ensures item.Obj? && "answer" !in item.fields ==> a == w.unknownAnswer
    ensures !item.Obj? ==> a == StrOf(item, show)
  {
    if item.Obj? then StrOf(GetOr(item.fields, "answer", Json.Str(w.unknownAnswer)), show)
    else StrOf(item, show)
  }

  /** `f"{tag}{i}: {text}\n"`. */
  function Line(tag: string, i: nat, text: string): string {
    tag + NatToString(i) + ": " + text + "\n"
  }

  /** The question line, the answer line and the blank line of the item numbered `i`. */
  function Block(w: Wording, i: nat, item: Json, show: Json -> string): string {
    Line(w.questionTag, i, QuestionOf(w, i, item, show)) + (Line(w.answerTag, i, AnswerOf(w, item, show)) + "\n")
  }

  /** The texts `f(first, xs[0])`, `f(first + 1, xs[1])`, ... one after the other. */
  function Numbered<T>(xs: seq<T>, first: nat, f: (nat, T) -> string): string
    decreases |xs|
  {
    if xs == [] then ""
    else
      var n := |xs| - 1;
      Numbered(xs[..n], first, f) + f(first + n, xs[n])
  }

  lemma NumberedSnoc<T>(xs: seq<T>, first: nat, x: T, f: (nat, T) -> string)
    ensures Numbered(xs + [x], first, f) == Numbered(xs, first, f) + f(first + |xs|, x)
  {
    SnocPrefix(xs, x);
  }

  lemma {:induction false} NumberedCons<T>(x: T, xs: seq<T>, first: nat, f: (nat, T) -> string)
    ensures Numbered([x] + xs, first, f) == f(first, x) + Numbered(xs, first + 1, f)
    decreases |xs|
  {
    if xs == [] {
      assert [x] + xs == [] + [x];
      NumberedSnoc([], first, x, f);
    } else {
      var n := |xs| - 1;
      var init := xs[..n];
      assert xs == init + [xs[n]];
      assert [x] + xs == ([x] + init) + [xs[n]];
      NumberedSnoc([x] + init, first, xs[n], f);
      NumberedCons(x, init, first, f);
      NumberedSnoc(init, first + 1, xs[n], f);
      ConcatAssoc(f(first, x), Numbered(init, first + 1, f), f(first + 1 + n, xs[n]));
    }
  }

  /** The blocks of `items`, numbered from `first` on. */
  function Blocks(w: Wording, items: seq<Json>, first: nat, show: Json -> string): string {
    Numbered(items, first, (i: nat, item: Json) => Block(w, i, item, show))
  }

  /** One more item appends its block, numbered one past the items before it. */
  lemma BlocksSnoc(w: Wording, items: seq<Json>, first: nat, item: Json, show: Json -> string)
    ensures Blocks(w, items + [item], first, show) ==
            Blocks(w, items, first, show) + Block(w, first + |items|, item, show)
  {
    NumberedSnoc(items, first, item, (i: nat, item: Json) => Block(w, i, item, show));
  }

  /** The first item's block comes first, numbered `first`, and the others follow from `first + 1`. */
  lemma BlocksCons(w: Wording, item: Json, items: seq<Json>, first: nat, show: Json -> string)
    ensures Blocks(w, [item] + items, first, show) ==
            Block(w, first, item, show) + Blocks(w, items, first + 1, show)
  {
    NumberedCons(item, items, first, (i: nat, item: Json) => Block(w, i, item, show));
  }

  /**
   * The whole text for a decoded file. Every text opens with the header, and an empty
   * list gives the header alone.
   */
  function KbText(w: Wording, data: Json, show: Json -> string, dump: Json -> string): (r: string)
    ensures StartsWith(r, w.header)
    ensures data == Arr([]) ==> r == w.header
  {
    var r := if data.Arr? then w.header + Blocks(w, data.items, 1, show)
             else w.header + w.contentTag + dump(data) + "\n\n";
    assert r[..|w.header|] == w.header;
    r
  }

  /** `get_knowledge_base`'s loop: add each item's block to the text, numbering from 1. */
  method Render(w: Wording, data: Json, show: Json -> string, dump: Json -> string) returns (text: string)
    ensures text == KbText(w, data, show, dump)
  {
    text := w.header;
    if data.Arr? {
      var items := data.items;
      var i := 0;
      while i < |items|
        invariant 0 <= i <= |items|
        invariant text == w.header + Blocks(w, items[..i], 1, show)
      {
        ghost var before := text;
        var question, answer := ItemTexts(w, i + 1, items[i], show);
        var qLine := Line(w.questionTag, i + 1, question);
        var aLine := Line(w.answerTag, i + 1, answer) + "\n";
        text := text + qLine;
        text := text + aLine;
        ConcatAssoc(before, qLine, aLine);
        BlocksSnoc(w, items[..i], 1, items[i], show);
        ConcatAssoc(w.header, Blocks(w, items[..i], 1, show), qLine + aLine);
        PrefixSnoc(items, i);
        i := i + 1;
      }
      PrefixAll(items);
    } else {
      text := text + (w.contentTag + dump(data) + "\n\n");
    }
  }

  /** The question and answer of the item numbered `i`: its keys when it is a dict, else its number and text. */
  method ItemTexts(w: Wording, i: nat, item: Json, show: Json -> string) returns (question: string, answer: string)
    ensures question == QuestionOf(w, i, item, show) && answer == AnswerOf(w, item, show)
  {
    if item.Obj? {
      question := StrOf(GetOr(item.fields, "question", Json.Str(w.unknownQuestion)), show);
      answer := StrOf(GetOr(item.fields, "answer", Json.Str(w.unknownAnswer)), show);
    } else {
      question := "Item " + NatToString(i);
      answer := StrOf(item, show);
    }
  }

  /** How reading and decoding the file ended. */
  datatype Load = Loaded(data: Json) | NotFound | BadJson | Failed(message: string)
}
