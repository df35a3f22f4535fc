/** How the results parsed from ripgrep's output differ from those of searchFile. ripgrep names each line once,
    a matching one as a match and any other within the context distance of a match as context. */
module GrepAgreement {
  import opened Basics
  import opened Grep

  /** One file and what is looked for; the lines are without their ends. */
  datatype Search = Search(path: string, lines: seq<string>, matches: string -> bool, context: int)

  predicate IsHit(s: Search, j: nat) {
    j < |s.lines| && s.matches(s.lines[j])
  }

  /** Some hit is within the context distance. */
  predicate Near(s: Search, j: nat) {
    exists h: nat :: h < |s.lines| && IsHit(s, h) && -s.context <= h - j <= s.context
  }

  predicate IsContext(s: Search, j: nat) {
    j < |s.lines| && !IsHit(s, j) && Near(s, j)
  }

  /** Every line but the last carries its newline. */
  function LineText(s: Search, j: nat): string
    requires j < |s.lines|
  {
    if j < |s.lines| - 1 then s.lines[j] + "\n" else s.lines[j]
  }

  function Messages(s: Search, j: nat): seq<Msg>
    requires j < |s.lines|
  {
    if IsHit(s, j) then [MatchMsg(s.path, j + 1, LineText(s, j))]
    else if IsContext(s, j) then [ContextMsg(s.path, j + 1, LineText(s, j))]
    else []
  }

  /** What ripgrep has written after the first `n` lines of the file; `earlier` is about other files. */
  function Stream(earlier: seq<Msg>, s: Search, n: nat): seq<Msg>
    requires n <= |s.lines|
  {
    if n == 0 then earlier + [BeginMsg] else Stream(earlier, s, n - 1) + Messages(s, n - 1)
  }

  /** The lines from `i` to `n` that are written as context, as they are recorded. */
  function Shown(s: Search, i: nat, n: nat): seq<string>
    requires n <= |s.lines|
  {
    if n <= i then [] else Shown(s, i, n - 1) + if IsContext(s, n - 1) then [TrimLineEnd(s.lines[n - 1])] else []
  }

  function Trimmed(lines: seq<string>): seq<string> {
    seq(|lines|, i requires 0 <= i < |lines| => TrimLineEnd(lines[i]))
  }

  function HitsOf(s: Search, n: nat): seq<nat>
    requires n <= |s.lines|
  {
    Hits(s.lines, s.matches, n)
  }

  /** The line where the context of the `a`-th hit ends: that of the next hit, or the `n`-th. */
  function EndOf(hits: seq<nat>, a: nat, n: nat): nat {
    if a + 1 < |hits| then hits[a + 1] else n
  }

  predicate IsResult(m: GrepMatch, s: Search, hits: seq<nat>, a: nat, n: nat, rel: string -> string)
    requires a < |hits| && n <= |s.lines|
  {
    && hits[a] < n && EndOf(hits, a, n) <= n
    && m == GrepMatch(rel(s.path), hits[a] + 1, TrimLineEnd(s.lines[hits[a]]), [],
                      Shown(s, hits[a] + 1, EndOf(hits, a, n)))
  }

  /** `found` are the results for the hits among the first `n` lines. */
  predicate AreResults(found: seq<GrepMatch>, s: Search, n: nat, rel: string -> string)
    requires n <= |s.lines|
  {
    var hits := HitsOf(s, n);
    && |found| == |hits|
    && forall a :: 0 <= a < |hits| ==> IsResult(found[a], s, hits, a, n, rel)
  }

  // ---- one line ----

  lemma LineTextTrimmed(s: Search, j: nat)
    requires j < |s.lines|
    ensures TrimLineEnd(LineText(s, j)) == TrimLineEnd(s.lines[j])
  {
    var t := s.lines[j];
    TakeDrop(t, "\n");
    assert (t + "\n")[|t|] == '\n';
  }

  lemma ParseSnoc(msgs: seq<Msg>, msg: Msg, rel: string -> string)
    ensures Parse(msgs + [msg], rel) == Take(Parse(msgs, rel), msg, rel)
  {
    TakeDrop(msgs, [msg]);
  }

  lemma NextIsHit(found: seq<GrepMatch>, s: Search, n: nat, rel: string -> string)
    requires n < |s.lines| && IsHit(s, n) && AreResults(found, s, n, rel)
    ensures AreResults(found + [HeaderOf(s, n, rel)], s, n + 1, rel)
  {
    var hits, next := HitsOf(s, n), HitsOf(s, n + 1);
    assert next == hits + [n];
    assert Shown(s, n + 1, n + 1) == [];
    forall a | 0 <= a < |hits| ensures EndOf(next, a, n + 1) == EndOf(hits, a, n) {
    }
    forall a | 0 <= a < |next| ensures IsResult((found + [HeaderOf(s, n, rel)])[a], s, next, a, n + 1, rel) {
      assert a < |hits| ==> IsResult(found[a], s, hits, a, n, rel);
    }
  }

  lemma NextIsContext(found: seq<GrepMatch>, s: Search, n: nat, rel: string -> string)
    requires n < |s.lines| && IsContext(s, n) && AreResults(found, s, n, rel) && found != []
    ensures AreResults(found[|found| - 1 := Behind(found[|found| - 1], s, n)], s, n + 1, rel)
  {
    assert HitsOf(s, n + 1) == HitsOf(s, n);
  }

  lemma NextIsOther(found: seq<GrepMatch>, s: Search, n: nat, rel: string -> string)
    requires n < |s.lines| && !IsHit(s, n) && AreResults(found, s, n, rel)
    requires !IsContext(s, n) || found == []
    ensures AreResults(found, s, n + 1, rel)
  {
    assert HitsOf(s, n + 1) == HitsOf(s, n);
  }

  // ---- one file ----

  /** The results of the earlier files, then those of this one. */
  predicate ParsedAs(p: Parsed, earlier: seq<GrepMatch>, s: Search, n: nat, rel: string -> string)
    requires n <= |s.lines|
  {
    && earlier <= p.matches && AreResults(p.matches[|earlier|..], s, n, rel)
    && (p.current <==> HitsOf(s, n) != [])
  }

  function HeaderOf(s: Search, j: nat, rel: string -> string): GrepMatch
    requires j < |s.lines|
  {
    GrepMatch(rel(s.path), j + 1, TrimLineEnd(s.lines[j]), [], [])
  }

  /** The effect of what is written for one line. */
  function TakeLine(p: Parsed, s: Search, j: nat, rel: string -> string): (r: Parsed)
    requires ParsedOk(p) && j < |s.lines|
    ensures ParsedOk(r)
  {
    if IsHit(s, j) then Parsed(p.matches + [HeaderOf(s, j, rel)], true)
    else if IsContext(s, j) && p.current then
      var last := |p.matches| - 1;
      p.(matches := p.matches[last := Behind(p.matches[last], s, j)])
    else p
  }

  function Behind(m: GrepMatch, s: Search, j: nat): GrepMatch
    requires j < |s.lines|
  {
    m.(after := m.after + [TrimLineEnd(s.lines[j])])
  }

  function TakeFile(p: Parsed, s: Search, n: nat, rel: string -> string): (r: Parsed)
    requires ParsedOk(p) && n <= |s.lines|
    ensures ParsedOk(r)
    decreases n
  {
    if n == 0 then p.(current := false) else TakeLine(TakeFile(p, s, n - 1, rel), s, n - 1, rel)
  }

  lemma LineStep(p: Parsed, earlier: seq<GrepMatch>, s: Search, n: nat, rel: string -> string)
    requires n < |s.lines| && ParsedOk(p) && ParsedAs(p, earlier, s, n, rel)
    ensures ParsedAs(TakeLine(p, s, n, rel), earlier, s, n + 1, rel)
  {
    var found := p.matches[|earlier|..];
    if IsHit(s, n) {
      NextIsHit(found, s, n, rel);
      AppendAfter(earlier, p.matches, HeaderOf(s, n, rel));
    } else if IsContext(s, n) && found != [] {
      NextIsContext(found, s, n, rel);
      UpdateAfter(earlier, p.matches, Behind(found[|found| - 1], s, n));
    } else {
      NextIsOther(found, s, n, rel);
    }
  }

  lemma AppendAfter<T>(a: seq<T>, b: seq<T>, x: T)
    requires a <= b
    ensures a <= b + [x] && (b + [x])[|a|..] == b[|a|..] + [x]
  {
  }

  lemma UpdateAfter<T>(a: seq<T>, b: seq<T>, x: T)
    requires a <= b && |a| < |b|
    ensures a <= b[|b| - 1 := x] && b[|b| - 1 := x][|a|..] == b[|a|..][|b| - |a| - 1 := x]
  {
  }

  /** The context of a result is what is written between its hit and the next, and all of it is behind. */
  lemma {:induction false} FileResults(p: Parsed, s: Search, n: nat, rel: string -> string)
    requires n <= |s.lines| && ParsedOk(p)
    ensures ParsedAs(TakeFile(p, s, n, rel), p.matches, s, n, rel)
    decreases n
  {
    if n > 0 {
      var k, q := n - 1, TakeFile(p, s, n - 1, rel);
      FileResults(p, s, k, rel);
      LineStep(q, p.matches, s, k, rel);
      assert TakeFile(p, s, n, rel) == TakeLine(q, s, k, rel);
    }
  }

  predicate IsAhead(p: Parsed, n: nat) {
    p.current && p.matches != [] ==> p.matches[|p.matches| - 1].line <= n
  }

  lemma CurrentIsAhead(p: Parsed, s: Search, n: nat, rel: string -> string)
    requires n <= |s.lines| && ParsedOk(p)
    ensures IsAhead(TakeFile(p, s, n, rel), n)
  {
    FileResults(p, s, n, rel);
    var q := TakeFile(p, s, n, rel);
    if q.current {
      assert q.matches[|p.matches|..] != [];
      assert q.matches[|q.matches| - 1] == q.matches[|p.matches|..][|q.matches| - |p.matches| - 1];
    }
  }

  // ---- the stream ----

  lemma TakeMatch(p: Parsed, path: string, line: int, text: string, rel: string -> string)
    requires ParsedOk(p) && 0 < line < 0x8000_0000
    ensures Take(p, MatchMsg(path, line, text), rel) ==
      Parsed(p.matches + [GrepMatch(rel(path), line, TrimLineEnd(text), [], [])], true)
  {
  }

  lemma ParseLine(msgs: seq<Msg>, p: Parsed, s: Search, j: nat, rel: string -> string)
    requires j < |s.lines| < 0x8000_0000 && p == Parse(msgs, rel)
    requires IsAhead(p, j)
    ensures Parse(msgs + Messages(s, j), rel) == TakeLine(p, s, j, rel)
  {
    LineTextTrimmed(s, j);
    if IsHit(s, j) {
      ParseSnoc(msgs, MatchMsg(s.path, j + 1, LineText(s, j)), rel);
      TakeMatch(p, s.path, j + 1, LineText(s, j), rel);
    } else if IsContext(s, j) {
      ParseSnoc(msgs, ContextMsg(s.path, j + 1, LineText(s, j)), rel);
    } else {
      assert msgs + [] == msgs;
    }
  }

  lemma StreamStarts(earlier: seq<Msg>, s: Search, rel: string -> string)
    ensures Parse(Stream(earlier, s, 0), rel) == TakeFile(Parse(earlier, rel), s, 0, rel)
  {
    ParseSnoc(earlier, BeginMsg, rel);
  }

  lemma LineOfFile(p: Parsed, s: Search, n: nat, rel: string -> string)
    requires 0 < n <= |s.lines| && ParsedOk(p)
    ensures TakeFile(p, s, n, rel) == TakeLine(TakeFile(p, s, n - 1, rel), s, n - 1, rel)
  {
  }

  lemma StreamLine(stream: seq<Msg>, p: Parsed, q: Parsed, s: Search, n: nat, rel: string -> string)
    requires 0 < n <= |s.lines| < 0x8000_0000 && ParsedOk(p)
    requires Parse(stream, rel) == q && q == TakeFile(p, s, n - 1, rel) && IsAhead(q, n - 1)
    ensures Parse(stream + Messages(s, n - 1), rel) == TakeFile(p, s, n, rel)
  {
    LineOfFile(p, s, n, rel);
    ParseLine(stream, q, s, n - 1, rel);
    assert Parse(stream + Messages(s, n - 1), rel) == TakeLine(q, s, n - 1, rel);
  }

  lemma StreamStep(stream: seq<Msg>, p: Parsed, s: Search, n: nat, rel: string -> string)
    requires 0 < n <= |s.lines| < 0x8000_0000 && ParsedOk(p)
    requires Parse(stream, rel) == TakeFile(p, s, n - 1, rel)
    ensures Parse(stream + Messages(s, n - 1), rel) == TakeFile(p, s, n, rel)
  {
    CurrentIsAhead(p, s, n - 1, rel);
    StreamLine(stream, p, TakeFile(p, s, n - 1, rel), s, n, rel);
  }

  lemma {:induction false} ParseStream(earlier: seq<Msg>, s: Search, n: nat, rel: string -> string)
    requires n <= |s.lines| < 0x8000_0000
    ensures Parse(Stream(earlier, s, n), rel) == TakeFile(Parse(earlier, rel), s, n, rel)
    decreases n
  {
    if n == 0 {
      StreamStarts(earlier, s, rel);
    } else {
      ParseStream(earlier, s, n - 1, rel);
      StreamStep(Stream(earlier, s, n - 1), Parse(earlier, rel), s, n, rel);
    }
  }

  // ---- the recorded lines and the window ----

  /** No hit strictly between `i` and `e`; `i` is one, and so is `e` if it is a line. */
  predicate Consecutive(s: Search, i: nat, e: nat) {
    && IsHit(s, i) && i < e <= |s.lines| && (e < |s.lines| ==> IsHit(s, e))
    && forall j :: i < j < e ==> !IsHit(s, j)
  }

  lemma NearIff(s: Search, i: nat, e: nat, j: nat)
    requires Consecutive(s, i, e) && i < j < e
    ensures IsContext(s, j) <==> j - i <= s.context || (e < |s.lines| && e - j <= s.context)
  {
    if Near(s, j) {
      var h: nat :| h < |s.lines| && IsHit(s, h) && -s.context <= h - j <= s.context;
      assert h <= i || e <= h;
    }
  }

  /** Up to the end of the window, or to the next hit, the lines of the window are recorded. */
  lemma {:induction false} WindowIsShown(s: Search, i: nat, e: nat, n: nat)
    requires Consecutive(s, i, e) && i < n <= e && n - i - 1 <= Max(0, s.context)
    ensures Shown(s, i + 1, n) == Trimmed(s.lines[i + 1..n])
    decreases n
  {
    if n > i + 1 {
      WindowIsShown(s, i, e, n - 1);
      NearIff(s, i, e, n - 1);
      TrimmedSnoc(s.lines, i + 1, n - 1);
    }
  }

  lemma TrimmedSnoc(lines: seq<string>, i: nat, n: nat)
    requires i <= n < |lines|
    ensures Trimmed(lines[i..n + 1]) == Trimmed(lines[i..n]) + [TrimLineEnd(lines[n])]
  {
  }

  lemma {:induction false} NothingBeyond(s: Search, i: nat, n: nat, w: nat)
    requires Consecutive(s, i, |s.lines|) && i < w <= n <= |s.lines| && (w - i - 1 == s.context || s.context <= 0)
    ensures Shown(s, i + 1, n) == Shown(s, i + 1, w)
    decreases n
  {
    if w < n {
      NothingBeyond(s, i, n - 1, w);
      NearIff(s, i, |s.lines|, n - 1);
    }
  }

  lemma {:induction false} ShownGrows(s: Search, i: nat, n: nat, w: nat)
    requires w <= n <= |s.lines|
    ensures |Shown(s, i, w)| <= |Shown(s, i, n)|
    decreases n
  {
    if w < n {
      ShownGrows(s, i, n - 1, w);
    }
  }

  /** The context of a hit behind it, as searchFile shows it. */
  function Window(s: Search, i: nat): seq<string>
    requires i < |s.lines|
  {
    Trimmed(MatchAt(s.path, s.lines, i, s.context).after)
  }

  lemma LastHitAgrees(s: Search, i: nat)
    requires Consecutive(s, i, |s.lines|)
    ensures Shown(s, i + 1, |s.lines|) == Window(s, i)
  {
    var w := Min(|s.lines|, i + 1 + Max(0, s.context));
    WindowIsShown(s, i, |s.lines|, if s.context <= 0 then i + 1 else w);
    if w < |s.lines| {
      NothingBeyond(s, i, |s.lines|, w);
    }
  }

  lemma NoContext(s: Search, i: nat, n: nat)
    requires s.context <= 0 && n <= |s.lines|
    ensures Shown(s, i, n) == []
  {
    if n > i {
      NoContext(s, i, n - 1);
    }
  }

  /** The line ahead of a later hit is recorded behind this one. */
  lemma LineAheadIsShown(s: Search, i: nat, e: nat)
    requires Consecutive(s, i, e) && e < |s.lines| && s.context > 0 && e > i + 1
    ensures Shown(s, i + 1, e) == Shown(s, i + 1, e - 1) + [TrimLineEnd(s.lines[e - 1])]
  {
    NearIff(s, i, e, e - 1);
  }

  lemma FarHitAddsLines(s: Search, i: nat, e: nat)
    requires Consecutive(s, i, e) && e < |s.lines| && s.context > 0 && e > i + s.context + 1
    ensures |Shown(s, i + 1, e)| > s.context
  {
    WindowIsShown(s, i, e, i + s.context + 1);
    ShownGrows(s, i + 1, e - 1, i + s.context + 1);
    LineAheadIsShown(s, i, e);
  }

  lemma NextHitAgreesIff(s: Search, i: nat, e: nat)
    requires Consecutive(s, i, e) && e < |s.lines| && s.context > 0
    ensures Shown(s, i + 1, e) == Window(s, i) <==> e == i + s.context + 1
  {
    assert |Window(s, i)| == Min(|s.lines|, i + s.context + 1) - i - 1;
    if e > i + s.context + 1 {
      FarHitAddsLines(s, i, e);
    } else {
      WindowIsShown(s, i, e, e);
    }
  }

  lemma HitsAreConsecutive(s: Search, a: nat)
    requires a < |HitsOf(s, |s.lines|)|
    ensures var hits := HitsOf(s, |s.lines|);
      Consecutive(s, hits[a], EndOf(hits, a, |s.lines|)) && (a + 1 < |hits| <==> EndOf(hits, a, |s.lines|) < |s.lines|)
  {
    var hits := HitsOf(s, |s.lines|);
    HitsAreTheMatches(s.lines, s.matches, |s.lines|);
    var e := EndOf(hits, a, |s.lines|);
    forall j | hits[a] < j < e ensures !IsHit(s, j) {
      if IsHit(s, j) {
        assert j in hits;
        var b :| 0 <= b < |hits| && hits[b] == j;
      }
    }
  }

  // ---- where the two searches agree ----

  /** The result `m` for the `a`-th hit against that of searchFile: the header is the same; the context behind the
      hit is the same exactly if there is no next hit, or no context is wanted, or the next hit is the first line
      past the window; and the context ahead of it is the same only if none is wanted or there is none. */
  predicate AgreesIff(m: GrepMatch, s: Search, hits: seq<nat>, a: nat, rel: string -> string)
    requires a < |hits| && hits[a] < |s.lines|
  {
    var w := MatchAt(rel(s.path), s.lines, hits[a], s.context);
    && m.path == w.path && m.line == w.line && m.content == TrimLineEnd(w.content)
    && (m.after == Trimmed(w.after) <==>
          a + 1 == |hits| || s.context <= 0 || hits[a + 1] == hits[a] + s.context + 1)
    && (m.before == Trimmed(w.before) <==> hits[a] == 0 || s.context <= 0)
  }

  /** So it is for every result of every file, whatever files come before it. */
  lemma RipgrepAgreesIff(earlier: seq<Msg>, s: Search, rel: string -> string)
    requires |s.lines| < 0x8000_0000
    ensures var hits := HitsOf(s, |s.lines|);
      var before, all := Parse(earlier, rel).matches, Parse(Stream(earlier, s, |s.lines|) + [OtherMsg], rel).matches;
      && before <= all && |all| == |before| + |hits|
      && forall a :: 0 <= a < |hits| ==>
           hits[a] < |s.lines| && AgreesIff(all[|before|..][a], s, hits, a, rel)
  {
    FileResults(Parse(earlier, rel), s, |s.lines|, rel);
    ParseStream(earlier, s, |s.lines|, rel);
    var p := TakeFile(Parse(earlier, rel), s, |s.lines|, rel);
    ParseSnoc(Stream(earlier, s, |s.lines|), OtherMsg, rel);
    var found := p.matches[|Parse(earlier, rel).matches|..];
    forall a | 0 <= a < |found|
      ensures HitsOf(s, |s.lines|)[a] < |s.lines| && AgreesIff(found[a], s, HitsOf(s, |s.lines|), a, rel)
    {
      ResultAgreesIff(found, s, rel, a);
    }
  }

  lemma ResultAgreesIff(found: seq<GrepMatch>, s: Search, rel: string -> string, a: nat)
    requires AreResults(found, s, |s.lines|, rel) && |s.lines| < 0x8000_0000 && a < |found|
    ensures a < |HitsOf(s, |s.lines|)| && HitsOf(s, |s.lines|)[a] < |s.lines|
    ensures AgreesIff(found[a], s, HitsOf(s, |s.lines|), a, rel)
  {
    var hits := HitsOf(s, |s.lines|);
    AfterAgreesIff(s, a);
    MatchFields(rel(s.path), s.lines, hits[a], s.context);
    MatchFields(s.path, s.lines, hits[a], s.context);
  }

  /** The fields of a result of searchFile. */
  lemma MatchFields(path: string, lines: seq<string>, i: nat, k: int)
    requires i < |lines| < 0x8000_0000
    ensures var w := MatchAt(path, lines, i, k);
      && w.path == path && w.line == i + 1 && w.content == lines[i] && (w.before == [] <==> i == 0 || k <= 0)
      && w.after == if k > 0 then lines[i + 1..Min(|lines|, i + k + 1)] else []
  {
  }

  lemma AfterAgreesIff(s: Search, a: nat)
    requires a < |HitsOf(s, |s.lines|)|
    ensures var hits := HitsOf(s, |s.lines|);
      && hits[a] < |s.lines| && EndOf(hits, a, |s.lines|) <= |s.lines|
      && (Shown(s, hits[a] + 1, EndOf(hits, a, |s.lines|)) == Window(s, hits[a]) <==>
            a + 1 == |hits| || s.context <= 0 || hits[a + 1] == hits[a] + s.context + 1)
  {
    HitsAreConsecutive(s, a);
    var hits := HitsOf(s, |s.lines|);
    if a + 1 == |hits| {
      LastHitAgrees(s, hits[a]);
    } else if s.context <= 0 {
      NoContext(s, hits[a] + 1, hits[a + 1]);
    } else {
      NextHitAgreesIff(s, hits[a], hits[a + 1]);
    }
  }

  lemma TakeContext(earlier: seq<GrepMatch>, m: GrepMatch, path: string, line: int, text: string,
                    rel: string -> string)
    requires line > m.line
    ensures Take(Parsed(earlier + [m], true), ContextMsg(path, line, text), rel) ==
      Parsed(earlier + [m.(after := m.after + [TrimLineEnd(text)])], true)
  {
  }

  lemma FoldOfFive(a: Msg, b: Msg, c: Msg, d: Msg, e: Msg, rel: string -> string)
    ensures Parse([a, b, c, d, e], rel) ==
      Take(Take(Take(Take(Take(Parsed([], false), a, rel), b, rel), c, rel), d, rel), e, rel)
  {
    assert [] + [a] == [a] && [a] + [b] == [a, b] && [a, b] + [c] == [a, b, c];
    assert [a, b, c] + [d] == [a, b, c, d] && [a, b, c, d] + [e] == [a, b, c, d, e];
    ParseSnoc([], a, rel);
    ParseSnoc([a], b, rel);
    ParseSnoc([a, b], c, rel);
    ParseSnoc([a, b, c], d, rel);
    ParseSnoc([a, b, c, d], e, rel);
  }

  /** With one line of context and matches in the lines 1 and 9, line 8 comes to stand behind line 1. */
  lemma ContextIsMisfiled(path: string, text: seq<string>, rel: string -> string)
    requires |text| == 9
    ensures var msgs := [BeginMsg, MatchMsg(path, 1, text[0]), ContextMsg(path, 2, text[1]),
                         ContextMsg(path, 8, text[7]), MatchMsg(path, 9, text[8])];
      && Ordered(msgs)
      && Parse(msgs, rel).matches ==
           [GrepMatch(rel(path), 1, TrimLineEnd(text[0]), [], [TrimLineEnd(text[1]), TrimLineEnd(text[7])]),
            GrepMatch(rel(path), 9, TrimLineEnd(text[8]), [], [])]
  {
    FoldOfFive(BeginMsg, MatchMsg(path, 1, text[0]), ContextMsg(path, 2, text[1]), ContextMsg(path, 8, text[7]),
               MatchMsg(path, 9, text[8]), rel);
    assert Take(Parsed([], false), BeginMsg, rel) == Parsed([], false);
    var first := GrepMatch(rel(path), 1, TrimLineEnd(text[0]), [], []);
    var second := first.(after := [TrimLineEnd(text[1])]);
    var third := first.(after := [TrimLineEnd(text[1]), TrimLineEnd(text[7])]);
    TakeMatch(Parsed([], false), path, 1, text[0], rel);
    TakeContext([], first, path, 2, text[1], rel);
    TakeContext([], second, path, 8, text[7], rel);
    assert first.after + [TrimLineEnd(text[1])] == second.after;
    assert second.after + [TrimLineEnd(text[7])] == third.after;
    TakeMatch(Parsed([] + [third], true), path, 9, text[8], rel);
  }
}
