/**
 The hints parser of wrapper.cpp: trim and read_hints, "key1=val1\nkey2=val2".
 */
module Hints {
  import opened Options

  const NPOS := -1

  predicate IsBlank(c: char) { c == ' ' || c == '\t' }
  predicate IsBreak(c: char) { c == '\n' || c == '\r' }

  ghost predicate Blank(s: string) { forall i :: 0 <= i < |s| ==> IsBlank(s[i]) }
  ghost predicate NoBreak(s: string) { forall i :: 0 <= i < |s| ==> !IsBreak(s[i]) }

  // ---------------------------------------------------------------- std::string searches

  /** find_first_of("\n\r", start), with -1 for npos. */
  function FindBreak(s: string, start: nat): (p: int)
    ensures p == NPOS || (start <= p < |s| && IsBreak(s[p]))
    ensures forall i :: start <= i < (if p == NPOS then |s| else p) ==> !IsBreak(s[i])
    decreases |s| - start
  {
    if start >= |s| then NPOS else if IsBreak(s[start]) then start else FindBreak(s, start + 1)
  }

  /** find("=") from the beginning. */
  function FindEquals(s: string): (p: int)
    ensures p == NPOS || (0 <= p < |s| && s[p] == '=')
    ensures '=' !in s[..if p == NPOS then |s| else p]
  {
    if s == [] then NPOS
    else if s[0] == '=' then 0
    else
      var q := FindEquals(s[1..]);
      assert s == [s[0]] + s[1..];
      if q == NPOS then NPOS else q + 1
  }

  function FirstNonBlank(s: string): (p: int)
    ensures p == NPOS <==> Blank(s)
    ensures p != NPOS ==> 0 <= p < |s| && !IsBlank(s[p]) && forall i :: 0 <= i < p ==> IsBlank(s[i])
  {
    if s == [] then NPOS
    else if !IsBlank(s[0]) then 0
    else
      assert s == [s[0]] + s[1..];
      var q := FirstNonBlank(s[1..]);
      if q == NPOS then NPOS else q + 1
  }

  function LastNonBlank(s: string): (p: int)
    ensures p == NPOS <==> Blank(s)
    ensures p != NPOS ==> 0 <= p < |s| && !IsBlank(s[p]) && forall i :: p < i < |s| ==> IsBlank(s[i])
  {
    if s == [] then NPOS
    else
      var n := |s| - 1;
      assert s == s[..n] + [s[n]];
      if !IsBlank(s[n]) then n else LastNonBlank(s[..n])
  }

  // ---------------------------------------------------------------- trim

  /** No blank at either end. */
  predicate Trimmed(s: string) { s == [] || (!IsBlank(s[0]) && !IsBlank(s[|s| - 1])) }

  /** `t` is `s` without its blank ends. */
  ghost predicate IsTrimOf(t: string, s: string) {
    Trimmed(t) && exists a: nat :: IsMiddle(t, s, a)
  }

  /** `t` stands at offset `a` of `s` with only blanks around it. */
  ghost predicate IsMiddle(t: string, s: string, a: nat) {
    a + |t| <= |s| && s[a..a + |t|] == t && Blank(s[..a]) && Blank(s[a + |t|..])
  }

  /** trim(s, " \t"): two in-place erasures. */
  method Trim(source: string) returns (s: string)
    ensures s == Trimming(source)
  {
    s := source;
    var ind := FirstNonBlank(s);
    if ind != NPOS {
      s := s[ind..];
    }
    ind := LastNonBlank(s);
    if ind != NPOS {
      s := s[..ind + 1];
    } else {
      s := "";
    }
  }

  function Trimming(s: string): string {
    var i := FirstNonBlank(s);
    var t := if i == NPOS then s else s[i..];
    var j := LastNonBlank(t);
    if j == NPOS then "" else t[..j + 1]
  }

  /** What trim computes: the string without blank ends that blanks extend to the source ... */
  lemma TrimmingIsTrim(s: string)
    ensures IsTrimOf(Trimming(s), s)
  {
    var i := FirstNonBlank(s);
    if i == NPOS {
      assert IsMiddle("", s, 0);
    } else {
      var t := s[i..];
      assert !IsBlank(t[0]);
      var j := LastNonBlank(t);
      assert t[..j + 1] == s[i..i + j + 1];
      assert IsMiddle(t[..j + 1], s, i);
    }
  }

  /** ... and there is only one. */
  lemma TrimUnique(t: string, t': string, s: string)
    requires IsTrimOf(t, s) && IsTrimOf(t', s)
    ensures t == t'
  {
    var a: nat :| IsMiddle(t, s, a);
    var a': nat :| IsMiddle(t', s, a');
    if t != "" { Reaches(t, s, a, t', a'); }
    if t' != "" { Reaches(t', s, a', t, a); }
  }

  lemma Reaches(t: string, s: string, a: nat, t': string, a': nat)
    requires Trimmed(t) && t != "" && IsMiddle(t, s, a) && IsMiddle(t', s, a')
    ensures a' <= a && a + |t| <= a' + |t'|
  {
    var e, e' := a + |t|, a' + |t'|;
    assert s[a] == t[0] && s[e - 1] == t[|t| - 1];
    assert forall i :: 0 <= i < a' ==> IsBlank(s[..a'][i]) && s[i] == s[..a'][i];
    assert forall i :: e' <= i < |s| ==> IsBlank(s[e'..][i - e']) && s[i] == s[e'..][i - e'];
  }

  // ---------------------------------------------------------------- the reference: line by line

  datatype Hint = Hint(key: string, val: string)

  /** The lines of a text: cut at every '\n' and every '\r'. */
  function Split(s: string): (lines: seq<string>)
    ensures |lines| >= 1
  {
    if s == "" then [""]
    else
      var rest := Split(s[1..]);
      if IsBreak(s[0]) then [""] + rest else [[s[0]] + rest[0]] + rest[1..]
  }

  /** The same, except that a break at offset 0 does not cut. */
  function Lines(s: string): seq<string> {
    if s == "" then [""]
    else var rest := Split(s[1..]); [[s[0]] + rest[0]] + rest[1..]
  }

  /** The meaning of one line: trimmed, cut at the first '=', both halves trimmed; no '=' means no hint. */
  function LineHint(line: string): Option<Hint> {
    var next := Trimming(line);
    var p := FindEquals(next);
    if p == NPOS then None else Some(Hint(Trimming(next[..p]), Trimming(next[p + 1..])))
  }

  /** Last assignment wins. */
  function Assign(m: map<string, string>, h: Option<Hint>): map<string, string> {
    match h case None => m case Some(Hint(k, v)) => m[k := v]
  }

  function Fold(m: map<string, string>, lines: seq<string>): map<string, string>
    decreases |lines|
  {
    if lines == [] then m else Fold(Assign(m, LineHint(lines[0])), lines[1..])
  }

  lemma {:induction false} SplitWhole(u: string)
    requires NoBreak(u)
    ensures Split(u) == [u]
  {
    if u != "" {
      SplitWhole(u[1..]);
      assert u == [u[0]] + u[1..];
    }
  }

  lemma {:induction false} SplitHead(u: string, c: char, v: string)
    requires NoBreak(u) && IsBreak(c)
    ensures Split(u + [c] + v) == [u] + Split(v)
  {
    if u == "" {
      assert (u + [c] + v)[1..] == v;
    } else {
      SplitHead(u[1..], c, v);
      assert u == [u[0]] + u[1..];
      assert (u + [c] + v)[1..] == u[1..] + [c] + v;
    }
  }

  /** Lines peels off the same head as Split, but its first character may be anything. */
  lemma LinesHead(u: string, c: char, v: string)
    requires u != "" && NoBreak(u[1..]) && IsBreak(c)
    ensures Lines(u + [c] + v) == [u] + Split(v)
  {
    SplitHead(u[1..], c, v);
    assert u == [u[0]] + u[1..];
    assert (u + [c] + v)[1..] == u[1..] + [c] + v;
  }

  lemma LinesWhole(u: string)
    requires u == "" || NoBreak(u[1..])
    ensures Lines(u) == [u]
  {
    if u != "" {
      SplitWhole(u[1..]);
      assert u == [u[0]] + u[1..];
    }
  }

  lemma FoldCons(m: map<string, string>, line: string, rest: seq<string>)
    ensures Fold(m, [line] + rest) == Fold(Assign(m, LineHint(line)), rest)
  {
    assert ([line] + rest)[1..] == rest;
  }

  // ---------------------------------------------------------------- read_hints

  /** The lines still to be read when the loop stands at `pos` with `last_pos`. */
  function Remaining(source: string, pos: int, lastPos: int): seq<string>
    requires pos == NPOS || pos == 0 || (0 < pos && 0 <= lastPos <= |source|)
  {
    if pos == NPOS then [] else if pos == 0 then Lines(source) else Split(source[lastPos..])
  }

  /** One move of the two indices takes exactly the next line of the reference. */
  lemma NextLine(source: string, pos: int, lastPos: int, p: int, line: string)
    requires IsPosition(source, pos, lastPos) && pos != NPOS && p == FindBreak(source, pos + 1)
    requires line == source[lastPos..if p == NPOS then |source| else p]
    ensures Remaining(source, pos, lastPos) == [line] + Remaining(source, p, p + 1)
  {
    if p == NPOS { LastLine(source, pos, lastPos, line); } else { InnerLine(source, pos, lastPos, p, line); }
  }

  lemma LastLine(source: string, pos: int, lastPos: int, line: string)
    requires IsPosition(source, pos, lastPos) && pos != NPOS && FindBreak(source, pos + 1) == NPOS
    requires line == source[lastPos..|source|]
    ensures Remaining(source, pos, lastPos) == [line] + []
  {
    assert [line] + [] == [line];
    if pos > 0 {
      assert line == source[lastPos..];
      SplitWhole(line);
    } else {
      assert line == source;
      LinesWhole(line);
    }
  }

  lemma InnerLine(source: string, pos: int, lastPos: int, p: int, line: string)
    requires IsPosition(source, pos, lastPos) && pos != NPOS && p == FindBreak(source, pos + 1) && p != NPOS
    requires line == source[lastPos..p]
    ensures Remaining(source, pos, lastPos) == [line] + Split(source[p + 1..])
  {
    var v := source[p + 1..];
    if pos > 0 {
      SplitHead(line, source[p], v);
      assert source[lastPos..] == line + [source[p]] + v;
    } else {
      LinesHead(line, source[p], v);
      assert source == line + [source[p]] + v;
    }
  }

  /** The body of read_hints for one line. */
  method AddLine(parameters: map<string, string>, line: string) returns (m: map<string, string>)
    ensures m == Assign(parameters, LineHint(line))
  {
    m := parameters;
    var next := Trim(line);
    if next != "" {
      var innerDelimPos := FindEquals(next);
      if innerDelimPos != NPOS {
        var key := Trim(next[..innerDelimPos]);
        var val := Trim(next[innerDelimPos + 1..]);
        m := m[key := val];
      }
    }
  }

  ghost predicate IsPosition(source: string, pos: int, lastPos: int) {
    pos == NPOS || (0 <= pos && (pos == 0 ==> lastPos == 0) && (pos > 0 ==> lastPos == pos + 1 <= |source|))
  }

  /** Reading one line keeps the meaning of what has been parsed plus what is left. */
  lemma TakeLine(source: string, pos: int, lastPos: int, p: int, line: string,
                 m: map<string, string>, m': map<string, string>)
    requires IsPosition(source, pos, lastPos) && pos != NPOS && p == FindBreak(source, pos + 1)
    requires line == source[lastPos..if p == NPOS then |source| else p]
    requires m' == Assign(m, LineHint(line))
    ensures Fold(m', Remaining(source, p, p + 1)) == Fold(m, Remaining(source, pos, lastPos))
  {
    NextLine(source, pos, lastPos, p, line);
    FoldCons(m, line, Remaining(source, p, p + 1));
  }

  /** read_hints: two indices run over the string; the result is the line-by-line meaning of the whole text. */
  method ReadHints(source: string) returns (parameters: map<string, string>)
    ensures parameters == Fold(map[], Lines(source))
  {
    parameters := map[];
    var pos, lastPos := 0, 0;
    ghost var meaning := Fold(map[], Lines(source));
    while pos != NPOS
      invariant IsPosition(source, pos, lastPos)
      invariant Fold(parameters, Remaining(source, pos, lastPos)) == meaning
      decreases if pos == NPOS then 0 else 1 + |source| - pos
    {
      var next := FindBreak(source, pos + 1);
      var line := source[lastPos..if next == NPOS then |source| else next];
      var m := AddLine(parameters, line);
      TakeLine(source, pos, lastPos, next, line, parameters, m);
      pos, parameters := next, m;
      lastPos := if pos != 0 then pos + 1 else 0;
    }
  }

  // ---------------------------------------------------------------- round trip

  /** Text on one line that neither begins nor ends with a space or a tab. */
  ghost predicate Bare(s: string) {
    '\n' !in s && '\r' !in s
    && (s == "" || (s[0] != ' ' && s[0] != '\t' && s[|s| - 1] != ' ' && s[|s| - 1] != '\t'))
  }

  /** A hint that can be written down. */
  ghost predicate Printable(h: Hint) { Bare(h.key) && Bare(h.val) && '=' !in h.key }

  function PrintLine(h: Hint): string { h.key + "=" + h.val }

  /** "key1=val1\nkey2=val2" */
  function Print(hs: seq<Hint>): string {
    if hs == [] then "" else if |hs| == 1 then PrintLine(hs[0]) else PrintLine(hs[0]) + "\n" + Print(hs[1..])
  }

  /** A hint written with white space around key and value, and what separates it from the next one. */
  datatype Entry = Entry(b0: string, b1: string, b2: string, b3: string, hint: Hint, breaks: string)

  ghost predicate Spaces(s: string) { forall i :: 0 <= i < |s| ==> s[i] == ' ' || s[i] == '\t' }
  ghost predicate Breaks(s: string) { forall i :: 0 <= i < |s| ==> s[i] == '\n' || s[i] == '\r' }

  ghost predicate Writable(e: Entry) {
    Printable(e.hint) && Spaces(e.b0) && Spaces(e.b1) && Spaces(e.b2) && Spaces(e.b3) && Breaks(e.breaks)
  }

  function PadLine(e: Entry): string { (e.b0 + e.hint.key + e.b1) + "=" + (e.b2 + e.hint.val + e.b3) }

  function Write(es: seq<Entry>): string {
    if es == [] then "" else PadLine(es[0]) + es[0].breaks + Write(es[1..])
  }

  /** Every entry but perhaps the last is followed by a line break of some kind, or by several. */
  ghost predicate Separated(es: seq<Entry>) {
    (forall e <- es :: Writable(e)) && forall i :: 0 <= i < |es| - 1 ==> es[i].breaks != ""
  }

  function HintsOf(es: seq<Entry>): seq<Hint> {
    if es == [] then [] else [es[0].hint] + HintsOf(es[1..])
  }

  function FoldHints(m: map<string, string>, hs: seq<Hint>): map<string, string>
    decreases |hs|
  {
    if hs == [] then m else FoldHints(m[hs[0].key := hs[0].val], hs[1..])
  }

  lemma TrimTo(pre: string, t: string, post: string, s: string)
    requires s == pre + t + post && Blank(pre) && Blank(post) && Trimmed(t)
    ensures Trimming(s) == t
  {
    TrimmingIsTrim(s);
    assert IsMiddle(t, s, |pre|);
    TrimUnique(Trimming(s), t, s);
  }

  lemma {:induction false} EqualsAt(k: string, v: string)
    requires '=' !in k
    ensures FindEquals(k + "=" + v) == |k|
  {
    if k != "" {
      assert (k + "=" + v)[1..] == k[1..] + "=" + v;
      EqualsAt(k[1..], v);
    }
  }

  lemma LineHintOf(pre: string, left: string, right: string, post: string, s: string)
    requires s == (pre + left) + "=" + (right + post) && Blank(pre) && Blank(post)
    requires '=' !in left && Trimmed(left + "=" + right)
    ensures LineHint(s) == Some(Hint(Trimming(left), Trimming(right)))
  {
    var t := left + "=" + right;
    assert s == pre + t + post;
    TrimTo(pre, t, post, s);
    EqualsAt(left, right);
    assert t[..|left|] == left && t[|left| + 1..] == right;
  }

  /** What stands left of '=': outer blanks, and the key with the blanks behind it, unless it is empty. */
  lemma KeySide(b0: string, k: string, b1: string) returns (pre: string, left: string)
    requires Bare(k) && '=' !in k && Spaces(b0) && Spaces(b1)
    ensures pre + left == b0 + k + b1 && Blank(pre) && '=' !in left && Trimming(left) == k
    ensures if k == "" then left == "" else left != "" && left[0] == k[0]
  {
    if k == "" {
      pre, left := b0 + b1, "";
    } else {
      pre, left := b0, k + b1;
      KeyTrimmed(k, b1, left);
    }
  }

  lemma KeyTrimmed(k: string, b1: string, left: string)
    requires Bare(k) && '=' !in k && Spaces(b1) && left == k + b1
    ensures '=' !in left && Trimming(left) == k
  {
    assert '=' !in b1;
    assert left == "" + k + b1;
    TrimTo("", k, b1, left);
  }

  lemma ValueSide(b2: string, v: string, b3: string) returns (right: string, post: string)
    requires Bare(v) && Spaces(b2) && Spaces(b3)
    ensures right + post == b2 + v + b3 && Blank(post) && Trimming(right) == v
    ensures if v == "" then right == "" else right != "" && right[|right| - 1] == v[|v| - 1]
  {
    if v == "" {
      right, post := "", b2 + b3;
    } else {
      right, post := b2 + v, b3;
      assert right == b2 + v + "";
      TrimTo(b2, v, "", right);
    }
  }

  /** White space around key and value does not matter; a side that is empty leaves its space to the outside. */
  lemma PaddedHint(e: Entry)
    requires Writable(e)
    ensures LineHint(PadLine(e)) == Some(e.hint)
  {
    var pre, left := KeySide(e.b0, e.hint.key, e.b1);
    var right, post := ValueSide(e.b2, e.hint.val, e.b3);
    CoreTrimmed(e.hint.key, e.hint.val, left, right);
    LineHintOf(pre, left, right, post, PadLine(e));
  }

  lemma CoreTrimmed(k: string, v: string, left: string, right: string)
    requires Bare(k) && Bare(v) && (k == "" ==> left == "") && (k != "" ==> left != "" && left[0] == k[0])
    requires (v == "" ==> right == "") && (v != "" ==> right != "" && right[|right| - 1] == v[|v| - 1])
    ensures Trimmed(left + "=" + right)
  {
    var t := left + "=" + right;
    assert t[0] == if k == "" then '=' else k[0];
    assert t[|t| - 1] == if v == "" then '=' else v[|v| - 1];
  }

  lemma PaddedShape(e: Entry)
    requires Writable(e)
    ensures PadLine(e) != "" && NoBreak(PadLine(e))
  {
  }

  lemma {:induction false} FoldBreaks(m: map<string, string>, breaks: string, rest: string)
    requires Breaks(breaks)
    ensures Fold(m, Split(breaks + rest)) == Fold(m, Split(rest))
    decreases |breaks|
  {
    if breaks == "" {
      assert breaks + rest == rest;
    } else {
      var more := breaks[1..] + rest;
      assert (breaks + rest)[1..] == more;
      assert LineHint("") == None;
      FoldCons(m, "", Split(more));
      FoldBreaks(m, breaks[1..], rest);
    }
  }

  /** A line and the breaks behind it, of either kind and any number, make one assignment. */
  lemma FoldLine(m: map<string, string>, line: string, breaks: string, rest: string)
    requires NoBreak(line) && breaks != "" && Breaks(breaks)
    ensures Fold(m, Split(line + breaks + rest)) == Fold(Assign(m, LineHint(line)), Split(rest))
  {
    var more := breaks[1..] + rest;
    assert line + breaks + rest == line + [breaks[0]] + more;
    SplitHead(line, breaks[0], more);
    FoldCons(m, line, Split(more));
    FoldBreaks(Assign(m, LineHint(line)), breaks[1..], rest);
  }

  lemma LastLineOnly(m: map<string, string>, line: string)
    requires NoBreak(line)
    ensures Fold(m, Split(line)) == Assign(m, LineHint(line))
  {
    SplitWhole(line);
    assert [line] == [line] + [];
    FoldCons(m, line, []);
  }

  lemma {:induction false} FoldWritten(es: seq<Entry>, m: map<string, string>)
    requires Separated(es)
    ensures Fold(m, Split(Write(es))) == FoldHints(m, HintsOf(es))
    decreases |es|
  {
    if es == [] {
      assert LineHint("") == None;
      LastLineOnly(m, "");
    } else {
      var e, m' := es[0], m[es[0].hint.key := es[0].hint.val];
      PaddedHint(e);
      PaddedShape(e);
      if e.breaks == "" {
        assert es[1..] == [] && Write(es) == PadLine(e);
        LastLineOnly(m, PadLine(e));
      } else {
        FoldLine(m, PadLine(e), e.breaks, Write(es[1..]));
        FoldWritten(es[1..], m');
      }
      HintsCons(es, m);
    }
  }

  lemma HintsCons(es: seq<Entry>, m: map<string, string>)
    requires es != []
    ensures FoldHints(m, HintsOf(es)) == FoldHints(m[es[0].hint.key := es[0].hint.val], HintsOf(es[1..]))
  {
    assert HintsOf(es)[1..] == HintsOf(es[1..]);
  }

  /**
   Parsing written hints executes their assignments in order, whatever spaces and tabs stand around keys and
   values and however many newlines and carriage returns between the hints.
   */
  lemma WriteParse(es: seq<Entry>)
    requires Separated(es)
    ensures Fold(map[], Lines(Write(es))) == FoldHints(map[], HintsOf(es))
  {
    FoldWritten(es, map[]);
    if es != [] {
      PaddedShape(es[0]);
      assert Write(es)[0] == PadLine(es[0])[0];
      assert Lines(Write(es)) == Split(Write(es));
    }
  }

  /** The plain format as a special case of the padded one. */
  function Plain(hs: seq<Hint>): seq<Entry> {
    if hs == [] then [] else [Entry("", "", "", "", hs[0], if |hs| == 1 then "" else "\n")] + Plain(hs[1..])
  }

  lemma PlainLine(h: Hint, breaks: string)
    ensures PadLine(Entry("", "", "", "", h, breaks)) == PrintLine(h)
  {
  }

  lemma PlainCons(hs: seq<Hint>, rest: seq<Entry>)
    requires hs != [] && rest == Plain(hs[1..]) && |rest| == |hs| - 1
    ensures var e := Entry("", "", "", "", hs[0], if |hs| == 1 then "" else "\n");
            && Plain(hs) == [e] + rest
            && Write(Plain(hs)) == PadLine(e) + e.breaks + Write(rest)
            && HintsOf(Plain(hs)) == [hs[0]] + HintsOf(rest)
            && (Separated(rest) && Printable(hs[0]) ==> Separated(Plain(hs)))
  {
    assert Plain(hs)[1..] == rest;
    if Separated(rest) {
      assert forall i :: 1 <= i < |hs| ==> Plain(hs)[i] == rest[i - 1];
    }
  }

  lemma {:induction false} PlainPrints(hs: seq<Hint>)
    requires forall h <- hs :: Printable(h)
    ensures Write(Plain(hs)) == Print(hs) && HintsOf(Plain(hs)) == hs && Separated(Plain(hs)) && |Plain(hs)| == |hs|
    decreases |hs|
  {
    if hs != [] {
      PlainPrints(hs[1..]);
      PlainLine(hs[0], if |hs| == 1 then "" else "\n");
      PlainCons(hs, Plain(hs[1..]));
    }
  }

  /** In particular, the format of the comment: "key1=val1\nkey2=val2". */
  lemma PrintParse(hs: seq<Hint>)
    requires forall h <- hs :: Printable(h)
    ensures Fold(map[], Lines(Print(hs))) == FoldHints(map[], hs)
  {
    PlainPrints(hs);
    WriteParse(Plain(hs));
  }

  /** `hs` lists the entries of `m`, in any order. */
  ghost predicate Enumerates(hs: seq<Hint>, m: map<string, string>) {
    && (forall h <- hs :: h.key in m && m[h.key] == h.val)
    && (forall k <- m :: Hint(k, m[k]) in hs)
  }

  lemma {:induction false} FoldInto(acc: map<string, string>, hs: seq<Hint>, m: map<string, string>)
    requires forall h <- hs :: h.key in m && m[h.key] == h.val
    requires forall k <- acc :: k in m && m[k] == acc[k]
    ensures var r := FoldHints(acc, hs);
            && (forall k <- r :: k in m && m[k] == r[k])
            && acc.Keys <= r.Keys && (forall h <- hs :: h.key in r)
    decreases |hs|
  {
    if hs != [] {
      assert hs == [hs[0]] + hs[1..];
      FoldInto(acc[hs[0].key := hs[0].val], hs[1..], m);
    }
  }

  /** Round trip: every map of printable hints, written in any order and layout and parsed, comes back. */
  lemma RoundTrip(m: map<string, string>, es: seq<Entry>)
    requires Enumerates(HintsOf(es), m) && Separated(es)
    ensures Fold(map[], Lines(Write(es))) == m
  {
    var hs := HintsOf(es);
    WriteParse(es);
    FoldInto(map[], hs, m);
    Covered(FoldHints(map[], hs), hs, m);
  }

  lemma Covered(r: map<string, string>, hs: seq<Hint>, m: map<string, string>)
    requires Enumerates(hs, m) && (forall k <- r :: k in m && m[k] == r[k]) && (forall h <- hs :: h.key in r)
    ensures r == m
  {
    forall k | k in m ensures k in r { assert Hint(k, m[k]) in hs; }
  }

  /**
   Where the parser departs from the line format: a break at the very beginning does not end an empty first
   line but stays glued to the first key, so that hint cannot be looked up under its own name.
   */
  lemma LeadingBreak(h: Hint, c: char)
    requires Printable(h) && (c == '\n' || c == '\r')
    ensures Fold(map[], Lines([c] + PrintLine(h))) == map[[c] + h.key := h.val]
  {
    var line, k := [c] + PrintLine(h), [c] + h.key;
    GluedShape(c, h.key, h.val, k, line);
    GluedTrimmed(k, h.val);
    LineHintOf("", k, h.val, "", line);
    OneLine(line, Hint(k, h.val));
  }

  lemma GluedShape(c: char, key: string, val: string, k: string, line: string)
    requires Bare(key) && Bare(val) && '=' !in key && (c == '\n' || c == '\r')
    requires k == [c] + key && line == [c] + (key + "=" + val)
    ensures line == ("" + k) + "=" + (val + "") && line != ""
    ensures NoBreak(line[1..]) && '=' !in k && Trimmed(k) && !IsBlank(k[0]) && k != ""
  {
    assert "" + k == k && val + "" == val;
    assert line[1..] == key + "=" + val;
    assert k[|k| - 1] == if key == "" then c else key[|key| - 1];
  }

  lemma GluedTrimmed(k: string, v: string)
    requires k != "" && !IsBlank(k[0]) && Trimmed(k) && Bare(v)
    ensures Trimmed(k + "=" + v) && Trimming(k) == k && Trimming(v) == v
  {
    var t := k + "=" + v;
    assert t[|t| - 1] == if v == "" then '=' else v[|v| - 1];
    assert "" + k + "" == k && "" + v + "" == v;
    TrimTo("", k, "", k);
    TrimTo("", v, "", v);
  }

  /** The text opens with a line break, and the line after it is a hint. */
  predicate LosesHint(s: string) { s != "" && IsBreak(s[0]) && '=' in Split(s[1..])[0] }

  /** Exactly when read_hints meets the line format: iff no hint stands right behind a break at offset 0. */
  lemma FormatIff(s: string)
    ensures Fold(map[], Lines(s)) == Fold(map[], Split(s)) <==> !LosesHint(s)
  {
    if s != "" && IsBreak(s[0]) {
      var lines := Split(s[1..]);
      SplitNoBreak(s[1..]);
      assert Lines(s) == [[s[0]] + lines[0]] + lines[1..] && Split(s) == [""] + lines;
      HintIffEquals("");
      FoldCons(map[], "", lines);
      GluedLine(s[0], lines[0], lines[1..], lines);
    }
  }

  /** A break glued to a line changes the meaning iff the line is a hint. */
  lemma GluedLine(c: char, line: string, rest: seq<string>, lines: seq<string>)
    requires IsBreak(c) && lines == [line] + rest && forall l <- lines :: NoBreak(l)
    ensures Fold(map[], [[c] + line] + rest) == Fold(map[], lines) <==> '=' !in line
  {
    var glued := [c] + line;
    FoldCons(map[], glued, rest);
    FoldCons(map[], line, rest);
    HintIffEquals(glued);
    HintIffEquals(line);
    if '=' in line {
      GluedKey(c, line);
      var h := LineHint(glued).value;
      FoldKeeps(map[h.key := h.val], rest, h.key);
      FoldNoBreak(map[], lines);
    }
  }

  lemma HintIffEquals(line: string)
    ensures LineHint(line).Some? <==> '=' in line
  {
    TrimmingIsTrim(line);
    var t := Trimming(line);
    var a: nat :| IsMiddle(t, line, a);
    EqualsInMiddle(t, line, a);
    HintOfTrimmed(t);
  }

  lemma EqualsInMiddle(t: string, line: string, a: nat)
    requires IsMiddle(t, line, a)
    ensures '=' in t <==> '=' in line
  {
    var pre, post := line[..a], line[a + |t|..];
    assert '=' !in pre && '=' !in post;
    assert line == pre + (t + post);
  }

  lemma HintOfTrimmed(t: string)
    ensures FindEquals(t) != NPOS <==> '=' in t
  {
    assert t[..|t|] == t;
  }

  lemma GluedKey(c: char, line: string)
    requires IsBreak(c) && LineHint([c] + line).Some?
    ensures var k := LineHint([c] + line).value.key; k != "" && k[0] == c
  {
    TrimKeepsFirst([c] + line);
    var next := Trimming([c] + line);
    TrimKeepsFirst(next[..FindEquals(next)]);
  }

  lemma TrimKeepsFirst(s: string)
    requires s != "" && !IsBlank(s[0])
    ensures Trimming(s) != "" && Trimming(s)[0] == s[0]
  {
    assert s[0..] == s;
  }

  lemma {:induction false} FoldKeeps(m: map<string, string>, lines: seq<string>, k: string)
    requires k in m
    ensures k in Fold(m, lines)
    decreases |lines|
  {
    if lines != [] { FoldKeeps(Assign(m, LineHint(lines[0])), lines[1..], k); }
  }

  lemma {:induction false} SplitNoBreak(s: string)
    ensures forall line <- Split(s) :: NoBreak(line)
  {
    if s != "" {
      SplitNoBreak(s[1..]);
      var rest := Split(s[1..]);
      assert NoBreak(rest[0]);
      assert NoBreak([s[0]] + rest[0]) || IsBreak(s[0]);
    }
  }

  /** From lines without breaks come keys without breaks. */
  lemma {:induction false} FoldNoBreak(m: map<string, string>, lines: seq<string>)
    requires (forall k <- m :: NoBreak(k)) && forall line <- lines :: NoBreak(line)
    ensures forall k <- Fold(m, lines) :: NoBreak(k)
    decreases |lines|
  {
    if lines != [] {
      TrimNoBreak(lines[0]);
      var next := Trimming(lines[0]);
      if FindEquals(next) != NPOS { TrimNoBreak(next[..FindEquals(next)]); }
      FoldNoBreak(Assign(m, LineHint(lines[0])), lines[1..]);
    }
  }

  lemma TrimNoBreak(s: string)
    requires NoBreak(s)
    ensures NoBreak(Trimming(s))
  {
  }

  lemma OneLine(line: string, h: Hint)
    requires line != "" && NoBreak(line[1..]) && LineHint(line) == Some(h)
    ensures Fold(map[], Lines(line)) == map[h.key := h.val]
  {
    LinesWhole(line);
    assert [line] == [line] + [];
    FoldCons(map[], line, []);
  }
}
