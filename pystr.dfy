/**
 * Python `str` operations the chatbot relies on, over the ASCII range:
 * `isspace`, `lower`, `upper`, `strip`, `split()` / `split(sep)` / `split(sep, 1)`,
 * `sep.join`, `in`, `replace`, `endswith`, `os.path.splitext` for bare file names,
 * and the regex idiom `re.sub(r"\b(w1|w2|...)\b", "", s, flags=re.IGNORECASE)`.
 * Characters are Unicode code points, as in Python, so lengths agree with `len`.
 */
module PyStr {
  import opened Optional
  import opened Seqs

  // ---------------------------------------------------------------- characters

  /** `c.isspace()` for ASCII: space, `\t` .. `\r` (9 .. 13) and the separators 0x1C .. 0x1F. */
  predicate IsSpace(c: char) {
    c == ' ' || ('\t' <= c <= '\r') || ('\U{1C}' <= c <= '\U{1F}')
  }

  /** Regex `\w` over ASCII: letters, digits and underscore. */
  predicate IsWordChar(c: char) {
    ('a' <= c <= 'z') || ('A' <= c <= 'Z') || ('0' <= c <= '9') || c == '_'
  }

  predicate IsDigit(c: char) { '0' <= c <= '9' }

  predicate IsUpperChar(c: char) { 'A' <= c <= 'Z' }

  predicate IsLowerChar(c: char) { 'a' <= c <= 'z' }

  function LowerChar(c: char): (d: char)
    ensures !IsUpperChar(d)
    ensures IsSpace(d) <==> IsSpace(c)
    ensures IsWordChar(d) <==> IsWordChar(c)
  {
    if 'A' <= c <= 'Z' then (c as int + 32) as char else c
  }

  function UpperChar(c: char): (d: char)
    ensures !IsLowerChar(d)
    ensures IsSpace(d) <==> IsSpace(c)
  {
    if 'a' <= c <= 'z' then (c as int - 32) as char else c
  }

  // ------------------------------------------------------------ whole strings

  predicate NoUpper(s: string) { forall i :: 0 <= i < |s| ==> !IsUpperChar(s[i]) }

  predicate NoLower(s: string) { forall i :: 0 <= i < |s| ==> !IsLowerChar(s[i]) }

  predicate NoSpace(s: string) { forall i :: 0 <= i < |s| ==> !IsSpace(s[i]) }

  predicate AllSpace(s: string) { forall i :: 0 <= i < |s| ==> IsSpace(s[i]) }

  /** `s.lower()`: character by character, so length and positions are kept. */
  function Lower(s: string): (r: string)
    ensures |r| == |s| && NoUpper(r)
    ensures forall i :: 0 <= i < |s| ==> r[i] == LowerChar(s[i])
  {
    seq(|s|, i requires 0 <= i < |s| => LowerChar(s[i]))
  }

  /** `s.upper()`. */
  function Upper(s: string): (r: string)
    ensures |r| == |s| && NoLower(r)
    ensures forall i :: 0 <= i < |s| ==> r[i] == UpperChar(s[i])
  {
    seq(|s|, i requires 0 <= i < |s| => UpperChar(s[i]))
  }

  /** `s.replace(a, b)` for single characters. */
  function ReplaceChar(s: string, a: char, b: char): (r: string)
    ensures |r| == |s|
    ensures forall i :: 0 <= i < |s| ==> r[i] == (if s[i] == a then b else s[i])
  {
    seq(|s|, i requires 0 <= i < |s| => if s[i] == a then b else s[i])
  }

  /** `re.sub(r"\D", "", s)`: the decimal digits of `s`, in order. */
  function KeepDigits(s: string): (r: string)
    ensures forall i :: 0 <= i < |r| ==> IsDigit(r[i])
    ensures |r| <= |s|
    ensures (forall i :: 0 <= i < |s| ==> IsDigit(s[i])) ==> r == s
  {
    if s == [] then []
    else (if IsDigit(s[0]) then [s[0]] else []) + KeepDigits(s[1..])
  }

  // -------------------------------------------------------------------- strip

  /** `s.lstrip()`: the suffix left after the leading whitespace. */
  function TrimStart(s: string): (r: string)
    ensures |r| <= |s| && r == s[|s| - |r|..]
    ensures r == [] || !IsSpace(r[0])
    ensures AllSpace(s[..|s| - |r|])
  {
    if |s| > 0 && IsSpace(s[0]) then TrimStart(s[1..]) else s
  }

  /** `s.rstrip()`: the prefix left before the trailing whitespace. */
  function TrimEnd(s: string): (r: string)
    ensures |r| <= |s| && r == s[..|r|]
    ensures r == [] || !IsSpace(r[|r| - 1])
    ensures AllSpace(s[|r|..])
  {
    if |s| > 0 && IsSpace(s[|s| - 1]) then
      var r := TrimEnd(s[..|s| - 1]);
      assert s[|r|..] == s[..|s| - 1][|r|..] + [s[|s| - 1]];
      r
    else s
  }

  /** `s.strip()`. */
  function Strip(s: string): (r: string)
    ensures r == [] || (!IsSpace(r[0]) && !IsSpace(r[|r| - 1]))
    ensures r == [] <==> AllSpace(s)
    ensures |r| <= |s|
  {
    var t := TrimStart(s);
    assert t == [] ==> AllSpace(s) by {
      if t == [] { assert s[..|s|] == s; }
    }
    TrimEnd(t)
  }

  /** The stripped text is the original's characters from position `k` on. */
  lemma StripSlice(s: string) returns (k: nat)
    ensures k + |Strip(s)| <= |s|
    ensures forall i :: 0 <= i < |Strip(s)| ==> Strip(s)[i] == s[k + i]
    ensures AllSpace(s[..k]) && AllSpace(s[k + |Strip(s)|..])
  {
    k := StripCut(s);
  }

  /**
   * `strip()` removes whitespace only: the stripped text is a slice of the original and
   * what lies on either side of it is all whitespace.
   */
  lemma StripCut(s: string) returns (k: nat)
    ensures k + |Strip(s)| <= |s|
    ensures Strip(s) == s[k..k + |Strip(s)|]
    ensures AllSpace(s[..k]) && AllSpace(s[k + |Strip(s)|..])
  {
    var t := TrimStart(s);
    var r := TrimEnd(t);
    k := |s| - |t|;
    assert t == s[k..];
    TrimEndTail(s[k..], k, s);
  }

  /** Cutting trailing whitespace from a suffix `t` of `s` leaves an inner slice of `s`. */
  lemma TrimEndTail(t: string, k: nat, s: string)
    requires k <= |s| && t == s[k..]
    ensures TrimEnd(t) == s[k..k + |TrimEnd(t)|]
    ensures AllSpace(s[k + |TrimEnd(t)|..])
  {
    var r := TrimEnd(t);
    assert s[k + |r|..] == t[|r|..];
  }

  lemma TrimStartShift(s: string) returns (k: nat)
    ensures k + |TrimStart(s)| == |s|
    ensures forall i :: 0 <= i < |TrimStart(s)| ==> TrimStart(s)[i] == s[k + i]
  {
    k := |s| - |TrimStart(s)|;
  }

  lemma TrimEndPrefix(t: string)
    ensures forall i :: 0 <= i < |TrimEnd(t)| ==> TrimEnd(t)[i] == t[i]
  {
  }

  /** Stripping a string with no surrounding whitespace changes nothing. */
  lemma StripNoOp(s: string)
    requires s == [] || (!IsSpace(s[0]) && !IsSpace(s[|s| - 1]))
    ensures Strip(s) == s
  {
  }

  /** Stripping twice is stripping once. */
  lemma StripIdempotent(s: string)
    ensures Strip(Strip(s)) == Strip(s)
  {
    StripNoOp(Strip(s));
  }

  // ----------------------------------------------------------- split and join

  /** Length of the leading run of non-whitespace characters. */
  function SpanNonSpace(s: string): (n: nat)
    ensures n <= |s| && NoSpace(s[..n])
    ensures n == |s| || IsSpace(s[n])
  {
    if |s| > 0 && !IsSpace(s[0]) then 1 + SpanNonSpace(s[1..]) else 0
  }

  /** Every word is non-empty and free of whitespace. */
  predicate ProperWords(ws: seq<string>) {
    forall k :: 0 <= k < |ws| ==> ws[k] != [] && NoSpace(ws[k])
  }

  /** `s.split()` with no argument: the maximal runs of non-whitespace, in order. */
  function Words(s: string): (ws: seq<string>)
    ensures ProperWords(ws)
    decreases |s|
  {
    var t := TrimStart(s);
    if t == [] then []
    else
      var n := SpanNonSpace(t);
      var w := t[..n];
      var rest := Words(t[n..]);
      ProperCons(w, rest);
      [w] + rest
  }

  lemma ProperCons(w: string, rest: seq<string>)
    requires w != [] && NoSpace(w) && ProperWords(rest)
    ensures ProperWords([w] + rest)
  {
    var ws := [w] + rest;
    forall k | 0 <= k < |ws| ensures ws[k] != [] && NoSpace(ws[k]) {
      if k > 0 { assert ws[k] == rest[k - 1]; }
    }
  }

  /** `sep.join(ws)`. */
  function Join(sep: string, ws: seq<string>): string
  {
    if |ws| == 0 then ""
    else if |ws| == 1 then ws[0]
    else ws[0] + sep + Join(sep, ws[1..])
  }

  /** The joined text begins with the first piece and ends with the last one. */
  lemma {:induction false} JoinEnds(sep: string, ws: seq<string>)
    requires |ws| > 0
    ensures StartsWith(Join(sep, ws), ws[0]) && EndsWith(Join(sep, ws), ws[|ws| - 1])
  {
    if |ws| > 1 {
      JoinEnds(sep, ws[1..]);
      var t := Join(sep, ws[1..]);
      assert Join(sep, ws) == (ws[0] + sep) + t;
      assert (ws[0] + sep + t)[..|ws[0]|] == ws[0];
      assert ((ws[0] + sep) + t)[|ws[0] + sep + t| - |t|..] == t;
    }
  }

  /**
   * Single-spaced text: no whitespace at either end, and each whitespace character is
   * a plain space followed by a non-whitespace character.
   */
  predicate SingleSpaced(s: string) {
    (|s| > 0 ==> !IsSpace(s[0]) && !IsSpace(s[|s| - 1])) &&
    forall i :: 0 <= i < |s| && IsSpace(s[i]) ==> s[i] == ' ' && i + 1 < |s| && !IsSpace(s[i + 1])
  }

  lemma {:induction false} JoinSingleSpaced(ws: seq<string>)
    requires ProperWords(ws)
    ensures SingleSpaced(Join(" ", ws))
    ensures |ws| > 0 ==> Join(" ", ws) != []
  {
    if |ws| > 1 {
      JoinSingleSpaced(ws[1..]);
      var j := Join(" ", ws[1..]);
      var r := ws[0] + " " + j;
      assert r == Join(" ", ws);
      forall i | 0 <= i < |r| && IsSpace(r[i])
        ensures r[i] == ' ' && i + 1 < |r| && !IsSpace(r[i + 1])
      {
        if i == |ws[0]| {
          assert r[i + 1] == j[0];
        } else if i > |ws[0]| {
          assert r[i] == j[i - |ws[0]| - 1];
          if i + 1 < |r| {
            assert r[i + 1] == j[i - |ws[0]|];
          }
        }
      }
      assert r[|r| - 1] == j[|j| - 1];
    }
  }

  /** `" ".join(s.split())`: whitespace runs collapsed to single spaces, ends trimmed. */
  function CollapseSpaces(s: string): (r: string)
    ensures SingleSpaced(r)
    ensures r == [] <==> AllSpace(s)
  {
    var ws := Words(s);
    JoinSingleSpaced(ws);
    assert ws == [] <==> AllSpace(s) by {
      if ws == [] {
        var t := TrimStart(s);
        assert t == [];
        assert s[..|s|] == s;
      }
    }
    Join(" ", ws)
  }

  /** Lower-casing changes no whitespace, so single-spacing survives it. */
  lemma LowerSingleSpaced(s: string)
    requires SingleSpaced(s)
    ensures SingleSpaced(Lower(s))
  {
    var r := Lower(s);
    forall i | 0 <= i < |r| && IsSpace(r[i])
      ensures r[i] == ' ' && i + 1 < |r| && !IsSpace(r[i + 1])
    {
      assert IsSpace(s[i]);
    }
  }

  // ---------------------------------------------------------------- substrings

  predicate StartsWith(s: string, p: string) { |p| <= |s| && s[..|p|] == p }

  predicate EndsWith(s: string, p: string) { |p| <= |s| && s[|s| - |p|..] == p }

  /**
   * `s.startswith(p)` and `s.endswith(p)` compare character by character: `p` matches the
   * front, or the last `|p|` characters, of `s`.
   */
  lemma AffixChars(s: string, p: string)
    ensures StartsWith(s, p) <==> |p| <= |s| && forall i :: 0 <= i < |p| ==> s[i] == p[i]
    ensures EndsWith(s, p) <==> |p| <= |s| && forall i :: 0 <= i < |p| ==> s[|s| - |p| + i] == p[i]
  {
    if |p| <= |s| && forall i :: 0 <= i < |p| ==> s[|s| - |p| + i] == p[i] {
      assert s[|s| - |p|..] == p;
    }
  }

  /** `sub` occurs in `s` at position `i`. */
  predicate At(s: string, sub: string, i: int) {
    0 <= i <= |s| - |sub| && s[i..i + |sub|] == sub
  }

  /** `sub in s`. */
  predicate Contains(s: string, sub: string)
    ensures Contains(s, sub) ==> |sub| <= |s|
  {
    exists i | 0 <= i <= |s| - |sub| :: At(s, sub, i)
  }

  /** A prefix and a suffix both occur; in particular the empty text occurs everywhere. */
  lemma ContainsEnds(s: string, sub: string)
    ensures StartsWith(s, sub) ==> Contains(s, sub)
    ensures EndsWith(s, sub) ==> Contains(s, sub)
    ensures sub == [] ==> Contains(s, sub)
  {
    assert StartsWith(s, sub) ==> At(s, sub, 0);
    assert EndsWith(s, sub) ==> At(s, sub, |s| - |sub|);
  }

  /** A needle with a character the haystack lacks cannot occur in it. */
  lemma Absent(s: string, sub: string, c: char)
    requires c in sub && c !in s
    ensures !Contains(s, sub)
  {
  }

  /** The middle of a concatenation occurs in it. */
  lemma ContainsMiddle(a: string, b: string, c: string)
    ensures Contains(a + b + c, b)
  {
    Middle(a, b, c);
    assert At(a + b + c, b, |a|);
  }

  /** Containment is transitive. */
  lemma ContainsTrans(s: string, p: string, q: string)
    requires Contains(s, p) && Contains(p, q)
    ensures Contains(s, q)
  {
    var i :| 0 <= i <= |s| - |p| && At(s, p, i);
    var j :| 0 <= j <= |p| - |q| && At(p, q, j);
    forall k | 0 <= k < |q| ensures s[i + j + k] == q[k] {
      assert q[k] == p[j + k];
      assert p[j + k] == s[i + j + k];
    }
    assert s[i + j..i + j + |q|] == q;
    assert At(s, q, i + j);
  }

  /** `s.find(sub)`: the first position of `sub` in `s`, or -1. */
  function Find(s: string, sub: string): (r: int)
    ensures r == -1 || 0 <= r <= |s| - |sub|
    ensures r >= 0 ==> At(s, sub, r)
    ensures r >= 0 ==> forall j :: 0 <= j < r ==> !At(s, sub, j)
    ensures r == -1 <==> !Contains(s, sub)
    decreases |s|
  {
    if StartsWith(s, sub) then
      assert At(s, sub, 0);
      0
    else if |s| <= |sub| then
      -1
    else
      var k := Find(s[1..], sub);
      assert forall j :: 1 <= j <= |s| - |sub| ==> (At(s, sub, j) <==> At(s[1..], sub, j - 1)) by {
        forall j | 1 <= j <= |s| - |sub| ensures At(s, sub, j) <==> At(s[1..], sub, j - 1) {
          SliceShift(s, j, |sub|);
        }
      }
      if k < 0 then
        assert forall j :: 0 <= j <= |s| - |sub| ==> !At(s, sub, j) by {
          forall j | 0 <= j <= |s| - |sub| ensures !At(s, sub, j) {
            if j > 0 { assert !At(s[1..], sub, j - 1); }
          }
        }
        -1
      else
        k + 1
  }

  lemma SliceShift(s: string, j: int, m: int)
    requires 1 <= j && 0 <= m && j + m <= |s|
    ensures s[1..][j - 1..j - 1 + m] == s[j..j + m]
  {
  }

  /** `s.split(sep, 1)`: the text before and after the first `sep`, if any. */
  function SplitOnce(s: string, sep: string): (r: Option<(string, string)>)
    requires sep != []
    ensures r.None? <==> !Contains(s, sep)
    ensures r.Some? ==> s == r.value.0 + sep + r.value.1 && !Contains(r.value.0, sep)
  {
    var i := Find(s, sep);
    if i < 0 then None
    else
      var before, after := s[..i], s[i + |sep|..];
      assert s == before + sep + after by {
        assert s[i..i + |sep|] == sep;
        assert s == s[..i] + s[i..i + |sep|] + s[i + |sep|..];
      }
      assert !Contains(before, sep) by {
        forall j | 0 <= j <= |before| - |sep| ensures !At(before, sep, j) {
          assert before[j..j + |sep|] == s[j..j + |sep|];
          assert !At(s, sep, j);
        }
      }
      Some((before, after))
  }

  /** `s.split(sep)` for a non-empty separator: every piece, in order. */
  function SplitAll(s: string, sep: string): (parts: seq<string>)
    requires sep != []
    ensures |parts| >= 1
    ensures forall k :: 0 <= k < |parts| ==> !Contains(parts[k], sep)
    decreases |s|
  {
    match SplitOnce(s, sep)
    case None => [s]
    case Some((before, after)) => [before] + SplitAll(after, sep)
  }

  /** A string with no separator is one piece; otherwise the first piece precedes the first `sep`. */
  lemma SplitAllFirst(s: string, sep: string)
    requires sep != []
    ensures !Contains(s, sep) ==> SplitAll(s, sep) == [s]
    ensures Contains(s, sep) ==>
              (|SplitAll(s, sep)| >= 2 && SplitOnce(s, sep).Some? &&
               SplitAll(s, sep)[0] == SplitOnce(s, sep).value.0 &&
               SplitAll(s, sep)[1..] == SplitAll(SplitOnce(s, sep).value.1, sep))
  {
  }

  /** `any(k in s for k in ks)`. */
  predicate ContainsAny(s: string, ks: seq<string>) {
    exists k | 0 <= k < |ks| :: Contains(s, ks[k])
  }

  /** `s.endswith(tuple(ss))`. */
  predicate EndsWithAny(s: string, ss: seq<string>) {
    exists k | 0 <= k < |ss| :: EndsWith(s, ss[k])
  }

  // --------------------------------------------------------------- file names

  /** `s.split(c)[-1]`: the text after the last `c`, or all of `s` when there is none. */
  function AfterLast(s: string, c: char): (r: string)
    ensures |r| <= |s| && r == s[|s| - |r|..]
    ensures c !in r
    ensures |r| < |s| ==> s[|s| - |r| - 1] == c
  {
    if s == [] then []
    else if s[|s| - 1] == c then []
    else
      var r := AfterLast(s[..|s| - 1], c) + [s[|s| - 1]];
      assert r == s[|s| - |r|..] by {
        assert s[..|s| - 1][|s| - |r|..] + [s[|s| - 1]] == s[|s| - |r|..];
      }
      r
  }

  lemma AfterLastNoSep(s: string, c: char)
    requires c !in s
    ensures AfterLast(s, c) == s
  {
  }

  predicate AllDots(s: string) { forall i :: 0 <= i < |s| ==> s[i] == '.' }

  /**
   * `os.path.splitext(name)` for a bare file name (no `/`, as `os.listdir` returns):
   * the extension starts at the last dot, unless only dots precede that dot.
   */
  function SplitExt(name: string): (r: (string, string))
    ensures r.0 + r.1 == name
    ensures r.1 == [] || (r.1[0] == '.' && '.' !in r.1[1..])
  {
    var tail := AfterLast(name, '.');
    if |tail| == |name| then (name, "")
    else
      var stem := name[..|name| - |tail| - 1];
      if AllDots(stem) then (name, "")
      else
        var ext := ['.'] + tail;
        assert stem + ext == name by {
          assert name == name[..|name| - |tail|] + tail;
          assert name[..|name| - |tail|] == stem + ['.'];
        }
        (stem, ext)
  }

  /** A name with a dot after a non-dot character loses exactly the text from its last dot. */
  lemma SplitExtDotted(stem: string, ext: string)
    requires '.' !in ext && !AllDots(stem)
    ensures SplitExt(stem + "." + ext) == (stem, "." + ext)
  {
    var name := stem + "." + ext;
    AfterLastSuffix(stem + ".", ext);
    assert AfterLast(name, '.') == ext;
    ConcatAssoc(stem, ".", ext);
    PrefixOfConcat(stem, "." + ext);
    SuffixOfConcat(stem, "." + ext);
  }

  /** The text after the last `c` of `p + [c] + s` is `s`, when `s` has no `c`. */
  lemma {:induction false} AfterLastSuffix(p: string, s: string)
    requires |p| > 0 && '.' !in s && p[|p| - 1] == '.'
    ensures AfterLast(p + s, '.') == s
    decreases |s|
  {
    if s == [] {
      assert p + s == p;
    } else {
      var q := p + s;
      assert q[..|q| - 1] == p + s[..|s| - 1];
      AfterLastSuffix(p, s[..|s| - 1]);
      assert s[..|s| - 1] + [s[|s| - 1]] == s;
    }
  }

  // ------------------------------------------------------- regex word removal

  /** Length of the leading run of word characters. */
  function RunLen(s: string): (n: nat)
    ensures n <= |s|
    ensures forall i :: 0 <= i < n ==> IsWordChar(s[i])
    ensures n == |s| || !IsWordChar(s[n])
  {
    if |s| > 0 && IsWordChar(s[0]) then 1 + RunLen(s[1..]) else 0
  }

  /** The maximal runs of word characters of `s`, in order (what `\b\w+\b` finds). */
  function WordRuns(s: string): seq<string>
    decreases |s|
  {
    if s == [] then []
    else if !IsWordChar(s[0]) then WordRuns(s[1..])
    else
      var n := RunLen(s);
      [s[..n]] + WordRuns(s[n..])
  }

  /** The runs whose lower-case form is not in `stop`. */
  function KeepNonStop(ws: seq<string>, stop: set<string>): (r: seq<string>)
    ensures forall k :: 0 <= k < |r| ==> Lower(r[k]) !in stop
  {
    if ws == [] then []
    else (if Lower(ws[0]) in stop then [] else [ws[0]]) + KeepNonStop(ws[1..], stop)
  }

  /**
   * `re.sub(r"\b(w1|...|wn)\b", "", s, flags=re.IGNORECASE)` for alternatives made of word
   * characters. Such a match starts and ends at a word boundary and so covers exactly one
   * maximal run of word characters; the run is deleted when its lower-case form is one of
   * the alternatives. Everything else, non-word characters included, is copied.
   */
  function RemoveWords(s: string, stop: set<string>): (r: string)
    ensures r == [] || s == [] || (IsWordChar(r[0]) ==> IsWordChar(s[0]))
    decreases |s|
  {
    if s == [] then []
    else if !IsWordChar(s[0]) then [s[0]] + RemoveWords(s[1..], stop)
    else
      var n := RunLen(s);
      (if Lower(s[..n]) in stop then [] else s[..n]) + RemoveWords(s[n..], stop)
  }

  /** A run of word characters followed by a non-word character (or nothing) is one run. */
  lemma {:induction false} WordRunsPrefix(w: string, rest: string)
    requires w != [] && forall i :: 0 <= i < |w| ==> IsWordChar(w[i])
    requires rest == [] || !IsWordChar(rest[0])
    ensures WordRuns(w + rest) == [w] + WordRuns(rest)
  {
    RunLenPrefix(w, rest);
    assert (w + rest)[..|w|] == w;
    assert (w + rest)[|w|..] == rest;
  }

  lemma {:induction false} RunLenPrefix(w: string, rest: string)
    requires forall i :: 0 <= i < |w| ==> IsWordChar(w[i])
    requires rest == [] || !IsWordChar(rest[0])
    ensures RunLen(w + rest) == |w|
    decreases |w|
  {
    if w == [] {
      assert w + rest == rest;
    } else {
      assert (w + rest)[1..] == w[1..] + rest;
      RunLenPrefix(w[1..], rest);
    }
  }

  /**
   * Whole-word removal: the word runs of the result are exactly the word runs of the input
   * that are not stopwords, in their original order. No stopword survives as a whole word,
   * and no other word is touched (a stopword inside a longer word is kept).
   */
  lemma {:induction false} RemoveWordsRuns(s: string, stop: set<string>)
    ensures WordRuns(RemoveWords(s, stop)) == KeepNonStop(WordRuns(s), stop)
    decreases |s|
  {
    if s == [] {
    } else if !IsWordChar(s[0]) {
      RemoveWordsRuns(s[1..], stop);
      var r := [s[0]] + RemoveWords(s[1..], stop);
      assert r[1..] == RemoveWords(s[1..], stop);
    } else {
      var n := RunLen(s);
      var w, rest := s[..n], s[n..];
      RemoveWordsRuns(rest, stop);
      assert WordRuns(s) == [w] + WordRuns(rest);
      var tail := RemoveWords(rest, stop);
      if Lower(w) in stop {
        assert RemoveWords(s, stop) == tail;
      } else {
        assert RemoveWords(s, stop) == w + tail;
        WordRunsPrefix(w, tail);
      }
    }
  }

  /** Every word lower-cased. */
  function LowerAll(ws: seq<string>): (r: seq<string>)
    ensures |r| == |ws| && forall k :: 0 <= k < |ws| ==> r[k] == Lower(ws[k])
  {
    seq(|ws|, k requires 0 <= k < |ws| => Lower(ws[k]))
  }

  /**
   * The query cleaning shared by the document and image handlers: whole-word stopwords
   * removed, whitespace runs collapsed, ends stripped, lower-cased. The `\w` runs of the
   * result are those of the query that are not stopwords (compared case-insensitively),
   * in their original order, lower-cased, and its tokens are the query's tokens without
   * the stopword runs: punctuation and symbols survive, in order.
   */
  function CleanText(q: string, stop: set<string>): (r: string)
    ensures NoUpper(r) && SingleSpaced(r)
    ensures WordRuns(r) == LowerAll(KeepNonStop(WordRuns(q), stop))
    ensures Tokens(r) == LowerAll(KeepTokens(Tokens(q), stop))
  {
    var removed := RemoveWords(q, stop);
    var c := CollapseSpaces(removed);
    StripNoOp(c);
    LowerSingleSpaced(c);
    RemoveWordsRuns(q, stop);
    CollapseRuns(removed);
    StripRuns(c);
    LowerRuns(Strip(c));
    CleanTokens(q, stop);
    Lower(Strip(c))
  }

  /** The tokens of the cleaned text: the query's tokens other than stopword runs, lower-cased. */
  lemma CleanTokens(q: string, stop: set<string>)
    ensures Tokens(Lower(Strip(CollapseSpaces(RemoveWords(q, stop))))) == LowerAll(KeepTokens(Tokens(q), stop))
  {
    var removed := RemoveWords(q, stop);
    var c := CollapseSpaces(removed);
    RemoveWordsTokens(q, stop);
    CollapseTokens(removed);
    StripTokens(c);
    LowerTokens(Strip(c));
  }

  /** A text without word characters has no word runs. */
  lemma {:induction false} NoWordRuns(s: string)
    requires forall i :: 0 <= i < |s| ==> !IsWordChar(s[i])
    ensures WordRuns(s) == []
    decreases |s|
  {
    if s != [] {
      NoWordRuns(s[1..]);
    }
  }

  /** A run of word characters that stops inside `a` stops at the same place in `a + b`. */
  lemma {:induction false} RunLenConcat(a: string, b: string)
    requires RunLen(a) < |a|
    ensures RunLen(a + b) == RunLen(a)
    decreases |a|
  {
    if IsWordChar(a[0]) {
      assert (a + b)[1..] == a[1..] + b;
      RunLenConcat(a[1..], b);
    }
  }

  /** Word runs split at a point where no word continues across. */
  lemma {:induction false} WordRunsSplit(a: string, b: string)
    requires a == [] || b == [] || !IsWordChar(a[|a| - 1]) || !IsWordChar(b[0])
    ensures WordRuns(a + b) == WordRuns(a) + WordRuns(b)
    decreases |a|
  {
    if a == [] {
      assert a + b == b;
    } else if !IsWordChar(a[0]) {
      assert (a + b)[1..] == a[1..] + b;
      WordRunsSplit(a[1..], b);
    } else if RunLen(a) < |a| {
      var n := RunLen(a);
      WordRunsSplitRun(a, b);
      assert a[n..][|a[n..]| - 1] == a[|a| - 1];
      WordRunsSplit(a[n..], b);
    } else {
      assert a[..|a|] == a;
      WordRunsPrefix(a, b);
      WordRunsPrefix(a, []);
      assert a + [] == a;
    }
  }

  /** One step of the split: a run that ends inside `a` is the first run of `a + b`. */
  lemma WordRunsSplitRun(a: string, b: string)
    requires a != [] && IsWordChar(a[0]) && RunLen(a) < |a|
    ensures WordRuns(a + b) == [a[..RunLen(a)]] + WordRuns(a[RunLen(a)..] + b)
  {
    var n := RunLen(a);
    RunLenConcat(a, b);
    assert (a + b)[..n] == a[..n] && (a + b)[n..] == a[n..] + b;
  }

  /** Leading whitespace has no word runs. */
  lemma TrimStartRuns(s: string)
    ensures WordRuns(TrimStart(s)) == WordRuns(s)
  {
    var t := TrimStart(s);
    var pre := s[..|s| - |t|];
    assert s == pre + t;
    NoWordRuns(pre);
    WordRunsSplit(pre, t);
  }

  /** Trailing whitespace has no word runs. */
  lemma TrimEndRuns(s: string)
    ensures WordRuns(TrimEnd(s)) == WordRuns(s)
  {
    var r := TrimEnd(s);
    var suf := s[|r|..];
    assert s == r + suf;
    NoWordRuns(suf);
    WordRunsSplit(r, suf);
    assert WordRuns(r) + [] == WordRuns(r);
  }

  /** Stripping whitespace keeps the word runs. */
  lemma StripRuns(s: string)
    ensures WordRuns(Strip(s)) == WordRuns(s)
  {
    TrimStartRuns(s);
    TrimEndRuns(TrimStart(s));
  }

  /** Collapsing whitespace runs to single spaces keeps the word runs. */
  lemma {:induction false} CollapseRuns(s: string)
    ensures WordRuns(CollapseSpaces(s)) == WordRuns(s)
  {
    JoinWordsRuns(s);
  }

  lemma {:induction false} JoinWordsRuns(s: string)
    ensures WordRuns(Join(" ", Words(s))) == WordRuns(s)
    decreases |s|
  {
    var t := TrimStart(s);
    TrimStartRuns(s);
    if t != [] {
      var n := SpanNonSpace(t);
      WordsStep(s);
      SpaceSplit(t, n);
      JoinWordsRuns(t[n..]);
      JoinRunsStep(t[..n], Words(t[n..]));
    }
  }

  /** The word runs of a joined text: those of its first word, then those of the rest. */
  lemma JoinRunsStep(w: string, ws: seq<string>)
    requires w != []
    ensures WordRuns(Join(" ", [w] + ws)) == WordRuns(w) + WordRuns(Join(" ", ws))
  {
    if ws == [] {
      assert Join(" ", [w] + ws) == w;
      assert WordRuns(w) + [] == WordRuns(w);
    } else {
      var j := Join(" ", ws);
      JoinStep(w, ws);
      WordRunsSplit(w, " " + j);
      assert (" " + j)[1..] == j;
    }
  }

  /** The first word of `s.split()` and the words after it. */
  lemma WordsStep(s: string)
    requires TrimStart(s) != []
    ensures var t := TrimStart(s);
            Words(s) == [t[..SpanNonSpace(t)]] + Words(t[SpanNonSpace(t)..])
  {
  }

  /** Leading whitespace does not start a word. */
  lemma WordsSpaceHead(s: string)
    requires s != [] && IsSpace(s[0])
    ensures Words(s) == Words(s[1..])
  {
    assert TrimStart(s) == TrimStart(s[1..]);
  }

  /** A text that starts with a non-space character starts with its first word. */
  lemma WordsWordHead(s: string)
    requires s != [] && !IsSpace(s[0])
    ensures Words(s) == [s[..SpanNonSpace(s)]] + Words(s[SpanNonSpace(s)..])
  {
    assert TrimStart(s) == s;
    WordsStep(s);
  }

  /** A run of non-space characters ended by the end of `a`, by `b`'s first space or inside `a` is not extended by `b`. */
  lemma {:induction false} SpanConcat(a: string, b: string)
    requires SpanNonSpace(a) < |a| || b == [] || IsSpace(b[0])
    ensures SpanNonSpace(a + b) == SpanNonSpace(a)
    decreases |a|
  {
    if a == [] {
      assert a + b == b;
    } else if !IsSpace(a[0]) {
      assert (a + b)[1..] == a[1..] + b;
      SpanConcat(a[1..], b);
    }
  }

  /** Cutting `a + b` inside `a`. */
  lemma ConcatCut(a: string, b: string, n: nat)
    requires n <= |a|
    ensures (a + b)[..n] == a[..n] && (a + b)[n..] == a[n..] + b
  {
  }

  /**
   * `split()` distributes over a concatenation whose seam is not inside a word: the words
   * of `a + b` are the words of `a` followed by the words of `b`.
   */
  lemma {:induction false} WordsSplit(a: string, b: string)
    requires a == [] || b == [] || IsSpace(a[|a| - 1]) || IsSpace(b[0])
    ensures Words(a + b) == Words(a) + Words(b)
    decreases |a|
  {
    if a == [] {
      assert a + b == b;
      assert Words(a) == [];
    } else if IsSpace(a[0]) {
      WordsSplit(a[1..], b);
      WordsSplitSpace(a, b);
    } else if SpanNonSpace(a) < |a| {
      WordsSplit(a[SpanNonSpace(a)..], b);
      WordsSplitWord(a, b);
    } else {
      assert a[..SpanNonSpace(a)] == a;
      WordsSplitLast(a, b);
    }
  }

  /** `WordsSplit`, step over a leading space of `a`. */
  lemma WordsSplitSpace(a: string, b: string)
    requires a != [] && IsSpace(a[0])
    requires Words(a[1..] + b) == Words(a[1..]) + Words(b)
    ensures Words(a + b) == Words(a) + Words(b)
  {
    ConcatCut(a, b, 1);
    WordsSpaceHead(a);
    WordsSpaceHead(a + b);
  }

  /** `WordsSplit`, step over the first word of `a` when whitespace follows it inside `a`. */
  lemma WordsSplitWord(a: string, b: string)
    requires a != [] && !IsSpace(a[0]) && SpanNonSpace(a) < |a|
    requires Words(a[SpanNonSpace(a)..] + b) == Words(a[SpanNonSpace(a)..]) + Words(b)
    ensures Words(a + b) == Words(a) + Words(b)
  {
    var n := SpanNonSpace(a);
    var w := a[..n];
    ConcatCut(a, b, n);
    SpanConcat(a, b);
    WordsWordHead(a);
    WordsWordHead(a + b);
    var x, y := Words(a[n..]), Words(b);
    assert Words(a) == [w] + x;
    assert Words(a + b) == [w] + (x + y);
    ConcatAssoc([w], x, y);
  }

  /** `WordsSplit`, when `a` is a single word and `b` is empty or starts with whitespace. */
  lemma WordsSplitLast(a: string, b: string)
    requires a != [] && NoSpace(a) && (b == [] || IsSpace(b[0]))
    ensures Words(a + b) == Words(a) + Words(b)
  {
    WordsOne(a);
    ConcatCut(a, b, |a|);
    assert a[..|a|] == a && a[|a|..] == [];
    SpanConcat(a, b);
    WordsWordHead(a + b);
  }

  /** A single run of non-space characters is one word. */
  lemma WordsOne(w: string)
    requires w != [] && NoSpace(w)
    ensures Words(w) == [w]
  {
    var n := SpanNonSpace(w);
    assert n == |w|;
    assert w[..n] == w && w[n..] == [];
    WordsWordHead(w);
    assert Words(w[n..]) == [];
  }

  /** Text made only of whitespace has no words. */
  lemma WordsBlank(s: string)
    requires AllSpace(s)
    ensures Words(s) == []
  {
  }

  /** Joining a word in front of further words puts one space between. */
  lemma JoinStep(w: string, ws: seq<string>)
    requires ws != []
    ensures Join(" ", [w] + ws) == w + (" " + Join(" ", ws))
  {
    assert ([w] + ws)[1..] == ws;
  }

  /** Cutting at the end of a non-space run cuts between word runs. */
  lemma SpaceSplit(t: string, n: nat)
    requires t != [] && !IsSpace(t[0]) && n == SpanNonSpace(t)
    ensures WordRuns(t) == WordRuns(t[..n]) + WordRuns(t[n..])
  {
    assert t == t[..n] + t[n..];
    assert t[..n][n - 1] == t[n - 1];
    WordRunsSplit(t[..n], t[n..]);
  }

  /** Lower-casing keeps where word runs start and end. */
  lemma {:induction false} RunLenLower(s: string)
    ensures RunLen(Lower(s)) == RunLen(s)
    decreases |s|
  {
    if s != [] && IsWordChar(s[0]) {
      assert Lower(s)[1..] == Lower(s[1..]);
      RunLenLower(s[1..]);
    }
  }

  /** The word runs of a lower-cased text are its word runs lower-cased. */
  lemma {:induction false} LowerRuns(s: string)
    ensures WordRuns(Lower(s)) == LowerAll(WordRuns(s))
    decreases |s|
  {
    if s == [] {
    } else if !IsWordChar(s[0]) {
      LowerRuns(s[1..]);
      LowerCut(s, 1);
      assert !IsWordChar(Lower(s)[0]);
    } else {
      LowerRuns(s[RunLen(s)..]);
      LowerRunsRun(s);
    }
  }

  /** `LowerRuns`, step over a first run of word characters. */
  lemma LowerRunsRun(s: string)
    requires s != [] && IsWordChar(s[0])
    requires WordRuns(Lower(s[RunLen(s)..])) == LowerAll(WordRuns(s[RunLen(s)..]))
    ensures WordRuns(Lower(s)) == LowerAll(WordRuns(s))
  {
    var n := RunLen(s);
    RunLenLower(s);
    LowerCut(s, n);
    assert IsWordChar(Lower(s)[0]);
    LowerAllCons(s[..n], WordRuns(s[n..]));
  }

  // ------------------------------------------------------------ tokens

  /**
   * The non-space tokens of `s`, in order: each maximal run of word characters is one
   * token, and each other non-whitespace character (punctuation, symbols) is a token of
   * its own. Whitespace separates tokens and is not one.
   */
  function Tokens(s: string): seq<string>
    decreases |s|
  {
    if s == [] then []
    else if IsSpace(s[0]) then Tokens(s[1..])
    else if !IsWordChar(s[0]) then [[s[0]]] + Tokens(s[1..])
    else
      var n := RunLen(s);
      [s[..n]] + Tokens(s[n..])
  }

  /** A token `re.sub` deletes: a word run whose lower-case form is a stopword. */
  predicate StopToken(t: string, stop: set<string>) {
    t != [] && IsWordChar(t[0]) && Lower(t) in stop
  }

  /** The tokens other than stopword runs, in order. */
  function KeepTokens(ts: seq<string>, stop: set<string>): (r: seq<string>)
    ensures forall k :: 0 <= k < |r| ==> !StopToken(r[k], stop)
  {
    if ts == [] then []
    else (if StopToken(ts[0], stop) then [] else [ts[0]]) + KeepTokens(ts[1..], stop)
  }

  /** A run of word characters followed by a non-word character (or nothing) is one token. */
  lemma TokensPrefix(w: string, rest: string)
    requires w != [] && forall i :: 0 <= i < |w| ==> IsWordChar(w[i])
    requires rest == [] || !IsWordChar(rest[0])
    ensures Tokens(w + rest) == [w] + Tokens(rest)
  {
    RunLenPrefix(w, rest);
    assert (w + rest)[..|w|] == w;
    assert (w + rest)[|w|..] == rest;
  }

  /**
   * Whole-word removal deletes exactly the stopword runs: every other token of the input,
   * word run or punctuation, survives in order, and no other token appears.
   */
  lemma {:induction false} RemoveWordsTokens(s: string, stop: set<string>)
    ensures Tokens(RemoveWords(s, stop)) == KeepTokens(Tokens(s), stop)
    decreases |s|
  {
    if s == [] {
    } else if !IsWordChar(s[0]) {
      RemoveWordsTokens(s[1..], stop);
      var r := [s[0]] + RemoveWords(s[1..], stop);
      assert r[1..] == RemoveWords(s[1..], stop);
      if !IsSpace(s[0]) {
        assert !StopToken([s[0]], stop);
        assert Tokens(s) == [[s[0]]] + Tokens(s[1..]);
        assert KeepTokens(Tokens(s), stop) == [[s[0]]] + KeepTokens(Tokens(s[1..]), stop);
      }
    } else {
      var n := RunLen(s);
      var w, rest := s[..n], s[n..];
      RemoveWordsTokens(rest, stop);
      assert Tokens(s) == [w] + Tokens(rest);
      var tail := RemoveWords(rest, stop);
      if Lower(w) in stop {
        assert StopToken(w, stop);
        assert RemoveWords(s, stop) == tail;
      } else {
        assert !StopToken(w, stop);
        assert RemoveWords(s, stop) == w + tail;
        TokensPrefix(w, tail);
      }
    }
  }

  /** Whitespace has no tokens. */
  lemma {:induction false} BlankTokens(s: string)
    requires AllSpace(s)
    ensures Tokens(s) == []
    decreases |s|
  {
    if s != [] {
      BlankTokens(s[1..]);
    }
  }

  /** Tokens split at a point where no word continues across. */
  lemma {:induction false} TokensSplit(a: string, b: string)
    requires a == [] || b == [] || !IsWordChar(a[|a| - 1]) || !IsWordChar(b[0])
    ensures Tokens(a + b) == Tokens(a) + Tokens(b)
    decreases |a|
  {
    if a == [] {
      assert a + b == b;
    } else if !IsWordChar(a[0]) {
      assert (a + b)[1..] == a[1..] + b;
      TokensSplit(a[1..], b);
      TokensCharHead(a, b);
    } else if RunLen(a) < |a| {
      var n := RunLen(a);
      TokensSplitRun(a, b);
      assert a[n..][|a[n..]| - 1] == a[|a| - 1];
      TokensSplit(a[n..], b);
      ConcatAssoc([a[..n]], Tokens(a[n..]), Tokens(b));
    } else {
      assert a[..|a|] == a;
      TokensPrefix(a, b);
      TokensPrefix(a, []);
      assert a + [] == a;
    }
  }

  /** `TokensSplit`, step over a leading non-word character of `a`. */
  lemma TokensCharHead(a: string, b: string)
    requires a != [] && !IsWordChar(a[0])
    requires Tokens(a[1..] + b) == Tokens(a[1..]) + Tokens(b)
    ensures Tokens(a + b) == Tokens(a) + Tokens(b)
  {
    assert (a + b)[0] == a[0] && (a + b)[1..] == a[1..] + b;
    if !IsSpace(a[0]) {
      ConcatAssoc([[a[0]]], Tokens(a[1..]), Tokens(b));
    }
  }

  /** One step of the split: a run that ends inside `a` is the first token of `a + b`. */
  lemma TokensSplitRun(a: string, b: string)
    requires a != [] && IsWordChar(a[0]) && RunLen(a) < |a|
    ensures Tokens(a + b) == [a[..RunLen(a)]] + Tokens(a[RunLen(a)..] + b)
    ensures Tokens(a) == [a[..RunLen(a)]] + Tokens(a[RunLen(a)..])
  {
    var n := RunLen(a);
    RunLenConcat(a, b);
    assert (a + b)[..n] == a[..n] && (a + b)[n..] == a[n..] + b;
  }

  /** Leading whitespace has no tokens. */
  lemma TrimStartTokens(s: string)
    ensures Tokens(TrimStart(s)) == Tokens(s)
  {
    var t := TrimStart(s);
    var pre := s[..|s| - |t|];
    assert s == pre + t;
    BlankTokens(pre);
    TokensSplit(pre, t);
  }

  /** Trailing whitespace has no tokens. */
  lemma TrimEndTokens(s: string)
    ensures Tokens(TrimEnd(s)) == Tokens(s)
  {
    var r := TrimEnd(s);
    var suf := s[|r|..];
    assert s == r + suf;
    BlankTokens(suf);
    TokensSplit(r, suf);
    assert Tokens(r) + [] == Tokens(r);
  }

  /** Stripping whitespace keeps the tokens. */
  lemma StripTokens(s: string)
    ensures Tokens(Strip(s)) == Tokens(s)
  {
    TrimStartTokens(s);
    TrimEndTokens(TrimStart(s));
  }

  /** `" ".join(s.split())` keeps the tokens. */
  lemma {:induction false} CollapseTokens(s: string)
    ensures Tokens(Join(" ", Words(s))) == Tokens(s)
    decreases |s|
  {
    var t := TrimStart(s);
    TrimStartTokens(s);
    if t != [] {
      var n := SpanNonSpace(t);
      WordsStep(s);
      SpaceSplitTokens(t, n);
      CollapseTokens(t[n..]);
      JoinTokensStep(t[..n], Words(t[n..]));
    }
  }

  /** Cutting at the end of a non-space run cuts between tokens. */
  lemma SpaceSplitTokens(t: string, n: nat)
    requires t != [] && !IsSpace(t[0]) && n == SpanNonSpace(t)
    ensures Tokens(t) == Tokens(t[..n]) + Tokens(t[n..])
  {
    assert t == t[..n] + t[n..];
    assert t[..n][n - 1] == t[n - 1];
    TokensSplit(t[..n], t[n..]);
  }

  /** The tokens of a joined text: those of its first word, then those of the rest. */
  lemma JoinTokensStep(w: string, ws: seq<string>)
    requires w != []
    ensures Tokens(Join(" ", [w] + ws)) == Tokens(w) + Tokens(Join(" ", ws))
  {
    if ws == [] {
      assert Join(" ", [w] + ws) == w;
      assert Tokens(w) + [] == Tokens(w);
    } else {
      var j := Join(" ", ws);
      JoinStep(w, ws);
      TokensSplit(w, " " + j);
      assert (" " + j)[1..] == j;
    }
  }

  /** The tokens of a lower-cased text are its tokens lower-cased. */
  lemma {:induction false} LowerTokens(s: string)
    ensures Tokens(Lower(s)) == LowerAll(Tokens(s))
    decreases |s|
  {
    if s == [] {
    } else if !IsWordChar(s[0]) {
      LowerTokens(s[1..]);
      LowerTokensChar(s);
    } else {
      LowerTokens(s[RunLen(s)..]);
      LowerTokensRun(s);
    }
  }

  /** `LowerTokens`, step over a first character that is not a word character. */
  lemma LowerTokensChar(s: string)
    requires s != [] && !IsWordChar(s[0])
    requires Tokens(Lower(s[1..])) == LowerAll(Tokens(s[1..]))
    ensures Tokens(Lower(s)) == LowerAll(Tokens(s))
  {
    var l := Lower(s);
    LowerCut(s, 1);
    assert l[0] == LowerChar(s[0]);
    if !IsSpace(s[0]) {
      assert [l[0]] == Lower([s[0]]);
      LowerAllCons([s[0]], Tokens(s[1..]));
    }
  }

  /** `LowerTokens`, step over a first run of word characters. */
  lemma LowerTokensRun(s: string)
    requires s != [] && IsWordChar(s[0])
    requires Tokens(Lower(s[RunLen(s)..])) == LowerAll(Tokens(s[RunLen(s)..]))
    ensures Tokens(Lower(s)) == LowerAll(Tokens(s))
  {
    var n := RunLen(s);
    RunLenLower(s);
    LowerCut(s, n);
    assert IsWordChar(Lower(s)[0]);
    LowerAllCons(s[..n], Tokens(s[n..]));
  }

  /** Lower-casing commutes with cutting. */
  lemma LowerCut(s: string, n: nat)
    requires n <= |s|
    ensures Lower(s)[..n] == Lower(s[..n]) && Lower(s)[n..] == Lower(s[n..])
  {
  }

  lemma LowerAllCons(w: string, rest: seq<string>)
    ensures LowerAll([w] + rest) == [Lower(w)] + LowerAll(rest)
  {
  }

  /** Whole-word removal works piece by piece on pieces that do not cut a word. */
  lemma {:induction false} RemoveWordsSplit(a: string, b: string, stop: set<string>)
    requires a == [] || b == [] || !IsWordChar(a[|a| - 1]) || !IsWordChar(b[0])
    ensures RemoveWords(a + b, stop) == RemoveWords(a, stop) + RemoveWords(b, stop)
    decreases |a|
  {
    if a == [] {
      assert a + b == b;
    } else if !IsWordChar(a[0]) {
      RemoveWordsSplit(a[1..], b, stop);
      RemoveSplitChar(a, b, stop);
    } else if RunLen(a) < |a| {
      assert a[RunLen(a)..][|a[RunLen(a)..]| - 1] == a[|a| - 1];
      RemoveWordsSplit(a[RunLen(a)..], b, stop);
      RemoveSplitRun(a, b, stop);
    } else {
      RemoveSplitLast(a, b, stop);
    }
  }

  /** `RemoveWordsSplit`, step over a leading non-word character of `a`. */
  lemma RemoveSplitChar(a: string, b: string, stop: set<string>)
    requires a != [] && !IsWordChar(a[0])
    requires RemoveWords(a[1..] + b, stop) == RemoveWords(a[1..], stop) + RemoveWords(b, stop)
    ensures RemoveWords(a + b, stop) == RemoveWords(a, stop) + RemoveWords(b, stop)
  {
    var ab := a + b;
    ConcatCut(a, b, 1);
    assert ab[0] == a[0];
    RemoveWordsCharHead(ab, stop);
    RemoveWordsCharHead(a, stop);
    ConcatAssoc([a[0]], RemoveWords(a[1..], stop), RemoveWords(b, stop));
  }

  /** `RemoveWordsSplit`, step over the first run of `a` when it ends inside `a`. */
  lemma RemoveSplitRun(a: string, b: string, stop: set<string>)
    requires a != [] && IsWordChar(a[0]) && RunLen(a) < |a|
    requires RemoveWords(a[RunLen(a)..] + b, stop) == RemoveWords(a[RunLen(a)..], stop) + RemoveWords(b, stop)
    ensures RemoveWords(a + b, stop) == RemoveWords(a, stop) + RemoveWords(b, stop)
  {
    var n := RunLen(a);
    var ab := a + b;
    RunLenConcat(a, b);
    ConcatCut(a, b, n);
    assert ab[0] == a[0];
    RemoveWordsRunHead(ab, stop);
    RemoveWordsRunHead(a, stop);
    var piece := if Lower(a[..n]) in stop then [] else a[..n];
    ConcatAssoc(piece, RemoveWords(a[n..], stop), RemoveWords(b, stop));
  }

  /** Unfolding `RemoveWords` at a non-word first character. */
  lemma RemoveWordsCharHead(s: string, stop: set<string>)
    requires s != [] && !IsWordChar(s[0])
    ensures RemoveWords(s, stop) == [s[0]] + RemoveWords(s[1..], stop)
  {
  }

  /** Unfolding `RemoveWords` at a first run of word characters. */
  lemma RemoveWordsRunHead(s: string, stop: set<string>)
    requires s != [] && IsWordChar(s[0])
    ensures var n := RunLen(s);
            RemoveWords(s, stop) == (if Lower(s[..n]) in stop then [] else s[..n]) + RemoveWords(s[n..], stop)
  {
  }

  /** `RemoveWordsSplit`, when `a` is one run of word characters. */
  lemma RemoveSplitLast(a: string, b: string, stop: set<string>)
    requires a != [] && IsWordChar(a[0]) && RunLen(a) == |a|
    requires b == [] || !IsWordChar(a[|a| - 1]) || !IsWordChar(b[0])
    ensures RemoveWords(a + b, stop) == RemoveWords(a, stop) + RemoveWords(b, stop)
  {
    RemoveWordsRun(a, stop);
    RunLenPrefix(a, b);
    assert (a + b)[..|a|] == a && (a + b)[|a|..] == b;
  }

  /** A character that is not a word character is copied. */
  lemma RemoveWordsChar(c: char, stop: set<string>)
    requires !IsWordChar(c)
    ensures RemoveWords([c], stop) == [c]
  {
    assert [c][1..] == [];
  }

  /** A whole run of word characters is deleted exactly when it is a stopword, ignoring case. */
  lemma RemoveWordsRun(w: string, stop: set<string>)
    requires w != [] && forall i :: 0 <= i < |w| ==> IsWordChar(w[i])
    ensures RemoveWords(w, stop) == if Lower(w) in stop then [] else w
  {
    RunLenPrefix(w, []);
    assert w + [] == w;
    assert w[..|w|] == w && w[|w|..] == [];
  }

  /**
   * Two `\w` runs around one visible non-word separator: the separator always survives, and
   * each run survives exactly when its lower-case form is not a stopword.
   */
  lemma RemoveWordsAround(a: string, c: char, b: string, stop: set<string>)
    requires a != [] && forall i :: 0 <= i < |a| ==> IsWordChar(a[i])
    requires b != [] && forall i :: 0 <= i < |b| ==> IsWordChar(b[i])
    requires !IsWordChar(c)
    ensures RemoveWords(a + [c] + b, stop)
         == (if Lower(a) in stop then [] else a) + [c] + (if Lower(b) in stop then [] else b)
  {
    RemoveWordsSplit(a + [c], b, stop);
    RemoveWordsSplit(a, [c], stop);
    RemoveWordsRun(a, stop);
    RemoveWordsChar(c, stop);
    RemoveWordsRun(b, stop);
  }

  /** When removal leaves a single run without whitespace, the cleaned text is that run in lower case. */
  lemma CleanTextSingle(q: string, stop: set<string>, w: string)
    requires RemoveWords(q, stop) == w && w != [] && NoSpace(w)
    ensures CleanText(q, stop) == Lower(w)
  {
    WordsOne(w);
    assert Join(" ", [w]) == w;
    StripNoOp(w);
  }

  /** Without a stopword run, whole-word removal changes nothing. */
  lemma {:induction false} RemoveWordsNone(s: string, stop: set<string>)
    requires forall k :: 0 <= k < |WordRuns(s)| ==> Lower(WordRuns(s)[k]) !in stop
    ensures RemoveWords(s, stop) == s
    decreases |s|
  {
    if s == [] {
    } else if !IsWordChar(s[0]) {
      assert WordRuns(s) == WordRuns(s[1..]);
      RemoveWordsNone(s[1..], stop);
    } else {
      var n := RunLen(s);
      assert WordRuns(s) == [s[..n]] + WordRuns(s[n..]);
      assert Lower(WordRuns(s)[0]) !in stop;
      assert forall k :: 0 <= k < |WordRuns(s[n..])| ==> WordRuns(s[n..])[k] == WordRuns(s)[k + 1];
      RemoveWordsNone(s[n..], stop);
      assert s[..n] + s[n..] == s;
    }
  }

  /**
   * A query without stopwords is only re-spaced and lower-cased: its words joined by single
   * spaces, in lower case. Punctuation stays where it was within each word.
   */
  lemma CleanTextNoStop(q: string, stop: set<string>)
    requires forall k :: 0 <= k < |WordRuns(q)| ==> Lower(WordRuns(q)[k]) !in stop
    ensures CleanText(q, stop) == Lower(Join(" ", Words(q)))
  {
    RemoveWordsNone(q, stop);
    StripNoOp(CollapseSpaces(q));
  }

  // ------------------------------------------------------- split after join

  /**
   * When no occurrence of `sep` starts inside `pre`, splitting `pre + sep + post` once
   * gives back `pre` and `post`.
   */
  lemma SplitOnceJoin(pre: string, sep: string, post: string)
    requires sep != [] && !Contains(pre + sep[..|sep| - 1], sep)
    ensures SplitOnce(pre + sep + post, sep) == Some((pre, post))
  {
    var s := pre + sep + post;
    var q := pre + sep[..|sep| - 1];
    assert At(s, sep, |pre|) by { assert s[|pre|..|pre| + |sep|] == sep; }
    forall j | 0 <= j < |pre| ensures !At(s, sep, j) {
      assert s[j..j + |sep|] == q[j..j + |sep|];
      assert !At(q, sep, j);
    }
    var i := Find(s, sep);
    assert i == |pre|;
    assert s[..i] == pre && s[i + |sep|..] == post;
  }

  /** The first piece of a `c`-split is everything before the first `c`. */
  lemma SplitAllCons(pre: string, c: char, rest: string)
    requires c !in pre
    ensures SplitAll(pre + [c] + rest, [c]) == [pre] + SplitAll(rest, [c])
  {
    Absent(pre, [c], c);
    assert pre + [c][..0] == pre;
    SplitOnceJoin(pre, [c], rest);
  }

  /** Splitting a `c`-joined list of `c`-free pieces at `c` gives the pieces back. */
  lemma {:induction false} SplitJoinChar(ls: seq<string>, c: char)
    requires |ls| >= 1 && forall k :: 0 <= k < |ls| ==> c !in ls[k]
    ensures SplitAll(Join([c], ls), [c]) == ls
  {
    if |ls| == 1 {
      Absent(ls[0], [c], c);
      SplitAllFirst(ls[0], [c]);
    } else {
      var rest := Join([c], ls[1..]);
      assert Join([c], ls) == ls[0] + [c] + rest;
      SplitAllCons(ls[0], c, rest);
      SplitJoinChar(ls[1..], c);
      assert ls == [ls[0]] + ls[1..];
    }
  }

  // ------------------------------------------------------------------ numbers

  function DigitChar(d: nat): (c: char)
    requires d < 10
    ensures IsDigit(c)
  {
    ('0' as int + d) as char
  }

  predicate AllDigits(s: string) { forall i :: 0 <= i < |s| ==> IsDigit(s[i]) }

  /** `str(n)` for a non-negative integer: its decimal digits, no leading zero. */
  function NatToString(n: nat): (s: string)
    ensures s != [] && AllDigits(s)
    ensures |s| > 1 ==> s[0] != '0'
    decreases n
  {
    if n < 10 then [DigitChar(n)] else NatToString(n / 10) + [DigitChar(n % 10)]
  }

  /** The number a string of decimal digits denotes. */
  function DigitsValue(s: string): nat
    requires AllDigits(s)
  {
    if s == [] then 0 else DigitsValue(s[..|s| - 1]) * 10 + (s[|s| - 1] as int - '0' as int)
  }

  lemma {:induction false} DigitsRoundTrip(n: nat)
    ensures DigitsValue(NatToString(n)) == n
    decreases n
  {
    if n >= 10 {
      var s := NatToString(n);
      DigitsRoundTrip(n / 10);
      assert s[..|s| - 1] == NatToString(n / 10);
    }
  }

  /** `str(n)` for any integer. */
  function IntToString(n: int): (r: string)
    ensures r != [] && (r[0] == '-' <==> n < 0)
    ensures AllDigits(if n < 0 then r[1..] else r)
    ensures |r| > 1 && n >= 0 ==> r[0] != '0'
  {
    if n < 0 then "-" + NatToString(-n) else NatToString(n)
  }

  /**
   * CPython's default `sys.get_int_max_str_digits()`: `int()` refuses a decimal text with
   * more digits than this.
   */
  const MaxStrDigits := 4300

  /**
   * Decimal digits in groups joined by single underscores, as `int()` accepts them since
   * PEP 515: a digit at each end and no two underscores in a row.
   */
  predicate DigitGroups(d: string) {
    d != [] && IsDigit(d[0]) && IsDigit(d[|d| - 1]) &&
    (forall i :: 0 <= i < |d| ==> IsDigit(d[i]) || d[i] == '_') &&
    (forall i :: 0 <= i < |d| - 1 ==> d[i] == '_' ==> d[i + 1] != '_')
  }

  /** The text after an optional leading sign. */
  function Unsigned(t: string): (d: string)
    ensures |d| <= |t| && d == t[|t| - |d|..]
  {
    if t != [] && (t[0] == '-' || t[0] == '+') then t[1..] else t
  }

  /** The number a sign-free text of digit groups denotes, or `None` when `int()` refuses it. */
  function ParseDigits(d: string): (r: Option<int>)
    ensures r.Some? ==> DigitGroups(d) && r.value >= 0
  {
    if DigitGroups(d) && |KeepDigits(d)| <= MaxStrDigits then Some(DigitsValue(KeepDigits(d))) else None
  }

  /**
   * The whitespace `int()` skips around a number (CPython's `Py_ISSPACE`): space and
   * `\t` .. `\r`. Unlike `str.isspace`, the separators 0x1C .. 0x1F are not skipped.
   */
  predicate IsIntSpace(c: char) {
    c == ' ' || ('\t' <= c <= '\r')
  }

  predicate AllIntSpace(s: string) { forall i :: 0 <= i < |s| ==> IsIntSpace(s[i]) }

  /** The suffix left after `int()`'s leading whitespace. */
  function IntTrimStart(s: string): (r: string)
    ensures |r| <= |s| && r == s[|s| - |r|..]
    ensures r == [] || !IsIntSpace(r[0])
    ensures AllIntSpace(s[..|s| - |r|])
  {
    if |s| > 0 && IsIntSpace(s[0]) then IntTrimStart(s[1..]) else s
  }

  /** The prefix left before `int()`'s trailing whitespace. */
  function IntTrimEnd(s: string): (r: string)
    ensures |r| <= |s| && r == s[..|r|]
    ensures r == [] || !IsIntSpace(r[|r| - 1])
    ensures AllIntSpace(s[|r|..])
  {
    if |s| > 0 && IsIntSpace(s[|s| - 1]) then
      var r := IntTrimEnd(s[..|s| - 1]);
      assert s[|r|..] == s[..|s| - 1][|r|..] + [s[|s| - 1]];
      r
    else s
  }

  /** The text `int()` reads: `s` without the surrounding whitespace `int()` skips. */
  function IntStrip(s: string): (r: string)
    ensures r == [] || (!IsIntSpace(r[0]) && !IsIntSpace(r[|r| - 1]))
    ensures |r| <= |s|
  {
    IntTrimEnd(IntTrimStart(s))
  }

  /**
   * `int(s)` on a string: surrounding whitespace (`IsIntSpace`) is ignored, then an optional
   * sign and digit groups with at most `MaxStrDigits` digits. `None` is the `ValueError`.
   */
  function ParseInt(s: string): (r: Option<int>)
    ensures r.Some? ==> !AllSpace(s) && !AllIntSpace(s)
  {
    var t := IntStrip(s);
    var r := Signed(t);
    assert r.Some? ==> !AllSpace(s) && !AllIntSpace(s) by {
      if r.Some? { IntStripDigit(s); }
    }
    r
  }

  /** A text `int()` reads holds a digit. */
  lemma IntStripDigit(s: string)
    requires Signed(IntStrip(s)).Some?
    ensures !AllSpace(s) && !AllIntSpace(s)
  {
    var t0 := IntTrimStart(s);
    var t := IntTrimEnd(t0);
    var d := Unsigned(t);
    assert DigitGroups(d);
    var j := |s| - |t0| + (|t| - |d|);
    assert d[0] == t[|t| - |d|] == t0[|t| - |d|] == s[j];
    assert IsDigit(s[j]);
  }

  /** `int()` reads a text with no skipped whitespace at its ends as it stands. */
  lemma IntStripNoOp(s: string)
    requires s == [] || (!IsIntSpace(s[0]) && !IsIntSpace(s[|s| - 1]))
    ensures IntStrip(s) == s
  {
  }

  /** Whitespace `int()` skips in front is dropped. */
  lemma {:induction false} IntTrimStartSpaces(a: string, x: string)
    requires AllIntSpace(a)
    ensures IntTrimStart(a + x) == IntTrimStart(x)
    decreases |a|
  {
    if a != [] {
      assert (a + x)[1..] == a[1..] + x;
      IntTrimStartSpaces(a[1..], x);
    } else {
      assert a + x == x;
    }
  }

  /** Whitespace `int()` skips behind is dropped. */
  lemma {:induction false} IntTrimEndSpaces(y: string, b: string)
    requires AllIntSpace(b)
    ensures IntTrimEnd(y + b) == IntTrimEnd(y)
    decreases |b|
  {
    if b != [] {
      var b' := b[..|b| - 1];
      assert (y + b)[..|y + b| - 1] == y + b';
      IntTrimEndSpaces(y, b');
    } else {
      assert y + b == y;
    }
  }

  /** Text made only of skipped whitespace leaves nothing to read. */
  lemma {:induction false} IntTrimStartBlank(b: string)
    requires AllIntSpace(b)
    ensures IntTrimStart(b) == []
    decreases |b|
  {
    if b != [] {
      IntTrimStartBlank(b[1..]);
    }
  }

  /** `int()` reads the text between the whitespace it skips. */
  lemma IntStripPadded(a: string, d: string, b: string)
    requires AllIntSpace(a) && AllIntSpace(b)
    requires d == [] || (!IsIntSpace(d[0]) && !IsIntSpace(d[|d| - 1]))
    ensures IntStrip(a + d + b) == d
    ensures ParseInt(a + d + b) == Signed(d)
  {
    assert a + d + b == a + (d + b);
    IntTrimStartSpaces(a, d + b);
    if d == [] {
      assert d + b == b;
      IntTrimStartBlank(b);
    } else {
      assert (d + b)[0] == d[0];
      assert IntTrimStart(d + b) == d + b;
      IntTrimEndSpaces(d, b);
      IntStripNoOp(d);
    }
  }

  /**
   * The information separators 0x1C .. 0x1F count as whitespace for `str.strip()` but not
   * for `int()`: a number next to one is refused.
   */
  lemma ParseIntSeparators()
    ensures ParseInt("\U{1C}5") == None && ParseInt("5\U{1F}") == None
  {
    StrayLead("\U{1C}5");
    StrayTrail("5\U{1F}");
  }

  /** A text that starts with a character other than skipped whitespace, a digit or a sign is refused. */
  lemma StrayLead(t: string)
    requires t != [] && !IsIntSpace(t[0]) && !IsDigit(t[0]) && t[0] != '-' && t[0] != '+'
    requires !IsIntSpace(t[|t| - 1])
    ensures ParseInt(t) == None
  {
    ParseIntTrimmed(t);
    assert Unsigned(t) == t;
  }

  /** A text that ends with a character other than skipped whitespace or a digit is refused. */
  lemma StrayTrail(t: string)
    requires t != [] && !IsIntSpace(t[0]) && !IsIntSpace(t[|t| - 1]) && !IsDigit(t[|t| - 1])
    ensures ParseInt(t) == None
  {
    ParseIntTrimmed(t);
    var d := Unsigned(t);
    if d != [] {
      assert d[|d| - 1] == t[|t| - 1];
    }
  }

  /** Spaces, tabs and line breaks around a number's decimal text are skipped. */
  lemma ParseIntPadded(a: string, n: int, b: string)
    requires AllIntSpace(a) && AllIntSpace(b) && |IntToString(n)| <= MaxStrDigits
    ensures ParseInt(a + IntToString(n) + b) == Some(n)
  {
    var d := IntToString(n);
    ShowTrimmed(n);
    IntStripPadded(a, d, b);
    ParseIntTrimmed(d);
    ParseIntShow(n);
  }

  /** `int()` on a text without surrounding whitespace. */
  function Signed(t: string): (r: Option<int>)
    ensures r.Some? ==> t != [] && DigitGroups(Unsigned(t))
    ensures r.Some? && r.value < 0 ==> t[0] == '-'
  {
    match ParseDigits(Unsigned(t))
    case None => None
    case Some(v) => Some(if t[0] == '-' then -v else v)
  }

  /** A text with no skipped whitespace at either end is read as it stands. */
  lemma ParseIntTrimmed(s: string)
    requires s == [] || (!IsIntSpace(s[0]) && !IsIntSpace(s[|s| - 1]))
    ensures ParseInt(s) == Signed(s)
  {
    IntStripNoOp(s);
  }

  /** `int(str(n)) == n`, for every integer whose text is within the digit limit. */
  lemma {:induction false} ParseIntShow(n: int)
    requires |IntToString(n)| <= MaxStrDigits
    ensures ParseInt(IntToString(n)) == Some(n)
  {
    ShowTrimmed(n);
    ParseIntTrimmed(IntToString(n));
    SignedShow(n);
  }

  lemma {:induction false} ShowTrimmed(n: int)
    ensures var s := IntToString(n); s != [] && !IsSpace(s[0]) && !IsSpace(s[|s| - 1])
  {
    var d := NatToString(if n < 0 then -n else n);
    var s := IntToString(n);
    assert s[|s| - 1] == d[|d| - 1];
  }

  lemma {:induction false} SignedShow(n: int)
    requires |IntToString(n)| <= MaxStrDigits
    ensures Signed(IntToString(n)) == Some(n)
  {
    if n < 0 {
      assert IntToString(n) == "-" + NatToString(-n);
      DigitsShow(-n);
      SignedNeg(NatToString(-n));
    } else {
      DigitsShow(n);
      SignedPlain(NatToString(n));
    }
  }

  lemma {:induction false} DigitsShow(m: nat)
    requires |NatToString(m)| <= MaxStrDigits
    ensures ParseDigits(NatToString(m)) == Some(m)
  {
    DigitsRoundTrip(m);
    assert KeepDigits(NatToString(m)) == NatToString(m);
  }

  /** A text that starts with a digit is read as its digit groups, unsigned. */
  lemma {:induction false} SignedPlain(d: string)
    requires d != [] && IsDigit(d[0])
    ensures Signed(d) == ParseDigits(d)
  {
    assert Unsigned(d) == d;
  }

  /** The same text after a minus sign is read as the negated number. */
  lemma {:induction false} SignedNeg(d: string)
    requires d != [] && IsDigit(d[0])
    ensures Signed("-" + d) == if ParseDigits(d).Some? then Some(-ParseDigits(d).value) else None
  {
    var t := "-" + d;
    assert t[0] == '-' && t[1..] == d;
    SignedMinus(t);
  }

  lemma SignedMinus(t: string)
    requires t != [] && t[0] == '-'
    ensures Signed(t) == if ParseDigits(t[1..]).Some? then Some(-ParseDigits(t[1..]).value) else None
  {
    assert Unsigned(t) == t[1..];
  }

  /** Digit groups joined with or without an underscore are digit groups. */
  lemma {:induction false} DigitGroupsJoin(a: string, b: string)
    requires DigitGroups(a) && DigitGroups(b)
    ensures DigitGroups(a + "_" + b) && DigitGroups(a + b)
  {
    var g, j := a + "_" + b, a + b;
    forall i | 0 <= i < |g| - 1 && g[i] == '_' ensures g[i + 1] != '_' {
      if i < |a| - 1 {
        assert g[i] == a[i] && g[i + 1] == a[i + 1];
      } else if i > |a| {
        assert g[i] == b[i - |a| - 1] && g[i + 1] == b[i - |a|];
      } else if i == |a| {
        assert g[i + 1] == b[0];
      }
    }
    forall i | 0 <= i < |j| - 1 && j[i] == '_' ensures j[i + 1] != '_' {
      if i < |a| - 1 {
        assert j[i] == a[i] && j[i + 1] == a[i + 1];
      } else if i >= |a| {
        assert j[i] == b[i - |a|] && j[i + 1] == b[i - |a| + 1];
      }
    }
    forall i | 0 <= i < |g| ensures IsDigit(g[i]) || g[i] == '_' {
      if i > |a| { assert g[i] == b[i - |a| - 1]; }
    }
    forall i | 0 <= i < |j| ensures IsDigit(j[i]) || j[i] == '_' {
      if i >= |a| { assert j[i] == b[i - |a|]; }
    }
  }

  /** An underscore between two digit groups does not change the number `int()` reads. */
  lemma {:induction false} ParseIntGrouped(a: string, b: string)
    requires DigitGroups(a) && DigitGroups(b)
    ensures ParseInt(a + "_" + b) == ParseInt(a + b)
    ensures ParseInt(a + "_" + b).Some? <==> |KeepDigits(a + b)| <= MaxStrDigits
  {
    GroupsTrimmed(a, b);
    ParseIntTrimmed(a + "_" + b);
    ParseIntTrimmed(a + b);
    SignedGrouped(a, b);
  }

  lemma {:induction false} GroupsTrimmed(a: string, b: string)
    requires DigitGroups(a) && DigitGroups(b)
    ensures var g := a + "_" + b; !IsSpace(g[0]) && !IsSpace(g[|g| - 1])
    ensures var j := a + b; !IsSpace(j[0]) && !IsSpace(j[|j| - 1])
  {
    var g, j := a + "_" + b, a + b;
    assert g[0] == a[0] && j[0] == a[0];
    assert g[|g| - 1] == b[|b| - 1] && j[|j| - 1] == b[|b| - 1];
  }

  lemma {:induction false} SignedGrouped(a: string, b: string)
    requires DigitGroups(a) && DigitGroups(b)
    ensures Signed(a + "_" + b) == Signed(a + b)
    ensures Signed(a + "_" + b).Some? <==> |KeepDigits(a + b)| <= MaxStrDigits
  {
    var g, j := a + "_" + b, a + b;
    assert g[0] == a[0] && j[0] == a[0];
    DigitGroupsJoin(a, b);
    SignedPlain(g);
    SignedPlain(j);
    KeepDigitsUnderscore(a, b);
  }

  /** `int()` reads no digit from an underscore. */
  lemma {:induction false} KeepDigitsUnderscore(a: string, b: string)
    ensures KeepDigits(a + "_" + b) == KeepDigits(a + b)
  {
    KeepDigitsConcat(a + "_", b);
    KeepDigitsConcat(a, "_");
    KeepDigitsConcat(a, b);
    assert KeepDigits("_") == [];
  }

  /** Keeping the digits of a concatenation keeps those of each part. */
  /** One character is kept exactly when it is a digit. */
  lemma KeepDigitsChar(c: char)
    ensures KeepDigits([c]) == if IsDigit(c) then [c] else []
  {
    assert [c][1..] == [];
  }

  /** The digits of a concatenation are the digits of each part, in order. */
  lemma {:induction false} KeepDigitsConcat(x: string, y: string)
    ensures KeepDigits(x + y) == KeepDigits(x) + KeepDigits(y)
  {
    if x != [] {
      var head := if IsDigit(x[0]) then [x[0]] else [];
      assert (x + y)[0] == x[0] && (x + y)[1..] == x[1..] + y;
      calc {
        KeepDigits(x + y);
        head + KeepDigits(x[1..] + y);
        { KeepDigitsConcat(x[1..], y); }
        head + (KeepDigits(x[1..]) + KeepDigits(y));
        (head + KeepDigits(x[1..])) + KeepDigits(y);
        KeepDigits(x) + KeepDigits(y);
      }
    } else {
      assert x + y == y;
    }
  }

  /** A decimal text with more digits than the limit is refused, as CPython's `int()` raises on it. */
  lemma {:induction false} ParseIntTooLong(d: string)
    requires d != [] && IsDigit(d[0]) && IsDigit(d[|d| - 1]) && |KeepDigits(d)| > MaxStrDigits
    ensures ParseInt(d) == None
  {
    ParseIntTrimmed(d);
    SignedTooLong(d);
  }

  lemma {:induction false} SignedTooLong(d: string)
    requires d != [] && IsDigit(d[0]) && |KeepDigits(d)| > MaxStrDigits
    ensures Signed(d) == None
  {
    SignedPlain(d);
  }

  /** Underscores only between digits and one at a time: `1_000` is read, `1__0`, `_1` and `1_` are not. */
  lemma ParseIntUnderscores()
    ensures ParseInt("1_000") == Some(1000)
    ensures ParseInt("1__0") == None && ParseInt("_1") == None && ParseInt("1_") == None
  {
    ThousandGroups();
    ParseIntGrouped("1", "000");
    ReadThousand();
    RefusedGroups();
  }

  lemma ThousandGroups()
    ensures DigitGroups("1") && DigitGroups("000")
    ensures "1" + "_" + "000" == "1_000" && "1" + "000" == "1000"
  {
  }

  lemma ReadThousand()
    ensures ParseInt("1000") == Some(1000)
  {
    ParseIntTrimmed("1000");
    SignedPlain("1000");
    DigitsThousand();
  }

  lemma DigitsThousand()
    ensures ParseDigits("1000") == Some(1000)
  {
    assert KeepDigits("1000") == "1000";
    assert DigitsValue("1000") == 1000 by {
      assert "1000"[..3] == "100" && "100"[..2] == "10" && "10"[..1] == "1" && "1"[..0] == "";
    }
  }

  lemma RefusedGroups()
    ensures ParseInt("1__0") == None && ParseInt("_1") == None && ParseInt("1_") == None
  {
    RefusedDouble();
    RefusedLeading();
    RefusedTrailing();
  }

  lemma RefusedDouble()
    ensures ParseInt("1__0") == None
  {
    ParseIntTrimmed("1__0");
    SignedPlain("1__0");
    assert !DigitGroups("1__0") by { assert "1__0"[1] == '_' && "1__0"[2] == '_'; }
  }

  lemma RefusedLeading()
    ensures ParseInt("_1") == None
  {
    LeadingUnderscore("_1");
  }

  /** A number may not start with an underscore. */
  lemma LeadingUnderscore(t: string)
    requires t != [] && t[0] == '_' && !IsSpace(t[|t| - 1])
    ensures ParseInt(t) == None
  {
    ParseIntTrimmed(t);
    SignedUnderscore(t);
  }

  lemma SignedUnderscore(t: string)
    requires t != [] && t[0] == '_'
    ensures Signed(t) == None
  {
    assert Unsigned(t) == t;
  }

  lemma RefusedTrailing()
    ensures ParseInt("1_") == None
  {
    StrayTrail("1_");
  }
}
