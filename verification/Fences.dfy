/** The fence splitter of the editor, the printer its overlay paints with, and their round trips. */
module Fences {
  import opened Options
  import opened Text

  datatype Segment = Segment(
    code: bool, lang: string, body: string,
    closed: bool, open: string, close: string, bodyStarted: bool)

  /** Inside a fenced block: its raw opening line and language. */
  datatype Block = Outside | Inside(open: string, lang: string)

  function Prose(buf: seq<string>, last: bool): Segment {
    Segment(false, "", Join(buf), !last, "", "", false)
  }

  function Code(b: Block, buf: seq<string>, closed: bool, close: string): Segment
    requires b.Inside?
  {
    Segment(true, b.lang, Join(buf), closed, b.open, close, buf != [])
  }

  /** The segments the remaining lines add, from the lines gathered so far and the open block. */
  function Scan(lines: seq<string>, buf: seq<string>, b: Block): seq<Segment>
    decreases |lines|
  {
    if lines == [] then
      if b.Inside? then [Code(b, buf, false, "")] else if buf != [] then [Prose(buf, true)] else []
    else match Fence(Js, lines[0])
      case None => Scan(lines[1..], buf + [lines[0]], b)
      case Some(lang) =>
        if b.Inside? then [Code(b, buf, true, lines[0])] + Scan(lines[1..], [], Outside)
        else (if buf != [] then [Prose(buf, false)] else []) + Scan(lines[1..], [], Inside(lines[0], lang))
  }

  function SegmentsOf(text: string): seq<Segment> {
    if text == "" then [] else Scan(Split(text), [], Outside)
  }

  /** What the line at `i` does to the scan, after the segments already out. */
  lemma ScanAt(lines: seq<string>, i: nat, buf: seq<string>, b: Block, out: seq<Segment>)
    requires i < |lines|
    ensures out + Scan(lines[i..], buf, b) ==
            match Fence(Js, lines[i])
            case None => out + Scan(lines[i + 1..], buf + [lines[i]], b)
            case Some(lang) =>
              if b.Inside? then out + [Code(b, buf, true, lines[i])] + Scan(lines[i + 1..], [], Outside)
              else (if buf != [] then out + [Prose(buf, false)] else out) + Scan(lines[i + 1..], [], Inside(lines[i], lang))
  {
    assert lines[i..][0] == lines[i] && lines[i..][1..] == lines[i + 1..];
    hide Fence;
  }

  /** `segments`: one pass over the lines with a buffer and the state of the open block. */
  method Segments(text: string) returns (out: seq<Segment>)
    ensures out == SegmentsOf(text)
  {
    out := [];
    if text == "" { return; }
    var lines := Split(text);
    ghost var all := Scan(lines, [], Outside);
    assert lines[0..] == lines && SegmentsOf(text) == all;
    hide Fence, Join, Split, SegmentsOf;
    var buf: seq<string> := [];
    var inCode, lang, open := false, "", "";
    ghost var b := Outside;
    var i := 0;
    while i < |lines|
      invariant 0 <= i <= |lines|
      invariant b == if inCode then Inside(open, lang) else Outside
      invariant !inCode ==> lang == "" && open == ""
      invariant out + Scan(lines[i..], buf, b) == all
    {
      ScanAt(lines, i, buf, b, out);
      hide Scan;
      var line := lines[i];
      var m := Fence(Js, line);
      if m.Some? {
        if inCode {
          out := out + [Segment(true, lang, Join(buf), true, open, line, |buf| > 0)];
          buf, inCode, lang, open := [], false, "", "";
          b := Outside;
        } else {
          if |buf| > 0 {
            out := out + [Segment(false, "", Join(buf), true, "", "", false)];
          }
          buf, inCode, lang, open := [], true, m.value, line;
          b := Inside(line, m.value);
        }
      } else {
        buf := buf + [line];
      }
      i := i + 1;
    }
    assert lines[i..] == [];
    if |buf| > 0 || inCode {
      out := out + [Segment(inCode, lang, Join(buf), false, open, "", inCode && |buf| > 0)];
    }
  }

  // ---- The printer ----

  /** The exact source text of one painted block. */
  function SegText(s: Segment): string {
    if s.code then s.open + (if s.bodyStarted then "\n" + s.body else "") + (if s.closed then "\n" + s.close else "")
    else s.body
  }

  function Texts(segs: seq<Segment>): seq<string> {
    if segs == [] then [] else [SegText(segs[0])] + Texts(segs[1..])
  }

  /** The painted blocks stacked: a line break between each two. */
  function Print(segs: seq<Segment>): string {
    Join(Texts(segs))
  }

  // ---- Printing what was parsed ----

  function SegLines(s: Segment): (lines: seq<string>)
    ensures lines != []
  {
    if s.code then [s.open] + (if s.bodyStarted then Split(s.body) else []) + (if s.closed then [s.close] else [])
    else Split(s.body)
  }

  function Lines(segs: seq<Segment>): seq<string> {
    if segs == [] then [] else SegLines(segs[0]) + Lines(segs[1..])
  }

  lemma SegTextIsLines(s: Segment)
    ensures SegText(s) == Join(SegLines(s))
  {
    JoinSplit(s.body);
    hide Split;
    if s.code {
      var front := [s.open] + (if s.bodyStarted then Split(s.body) else []);
      if s.bodyStarted {
        JoinConcat([s.open], Split(s.body));
      }
      if s.closed {
        JoinConcat(front, [s.close]);
      } else {
        assert SegLines(s) == front;
      }
    }
  }

  lemma {:induction false} PrintIsLines(segs: seq<Segment>)
    ensures Print(segs) == Join(Lines(segs))
    decreases |segs|
  {
    if segs != [] {
      SegTextIsLines(segs[0]);
      PrintIsLines(segs[1..]);
      if |segs| > 1 {
        assert Lines(segs[1..]) != [];
        JoinConcat(SegLines(segs[0]), Lines(segs[1..]));
        assert Texts(segs)[1..] == Texts(segs[1..]);
      } else {
        assert Lines(segs) == SegLines(segs[0]);
      }
    }
  }

  function Opening(b: Block): seq<string> {
    if b.Inside? then [b.open] else []
  }

  lemma LinesCons(s: Segment, rest: seq<Segment>)
    ensures Lines([s] + rest) == SegLines(s) + Lines(rest)
  {
    assert ([s] + rest)[1..] == rest;
  }

  lemma CodeLines(b: Block, buf: seq<string>, closed: bool, close: string)
    requires b.Inside? && forall l | l in buf :: '\n' !in l
    ensures SegLines(Code(b, buf, closed, close)) == [b.open] + buf + if closed then [close] else []
  {
    if buf != [] { SplitJoin(buf); }
  }

  /** No line is lost, invented or moved. */
  lemma {:induction false} ScanKeepsLines(lines: seq<string>, buf: seq<string>, b: Block)
    requires forall l | l in buf :: '\n' !in l
    requires forall l | l in lines :: '\n' !in l
    ensures Lines(Scan(lines, buf, b)) == Opening(b) + buf + lines
    decreases |lines|
  {
    hide SegLines, Lines;
    if lines == [] {
      LastKeepsLines(buf, b);
    } else {
      var line, rest := lines[0], lines[1..];
      assert lines == [line] + rest;
      match Fence(Js, line)
      case None =>
        ScanKeepsLines(rest, buf + [line], b);
        assert Opening(b) + (buf + [line]) + rest == Opening(b) + buf + ([line] + rest);
      case Some(lang) =>
        if b.Inside? {
          ScanKeepsLines(rest, [], Outside);
          CodeLines(b, buf, true, line);
          LinesCons(Code(b, buf, true, line), Scan(rest, [], Outside));
        } else {
          ScanKeepsLines(rest, [], Inside(line, lang));
          ProseKeepsLines(buf, Scan(rest, [], Inside(line, lang)));
        }
    }
  }

  lemma LastKeepsLines(buf: seq<string>, b: Block)
    requires forall l | l in buf :: '\n' !in l
    ensures Lines(Scan([], buf, b)) == Opening(b) + buf
  {
    if b.Inside? {
      CodeLines(b, buf, false, "");
    } else if buf != [] {
      ProseLines(buf, true);
    }
  }

  lemma ProseKeepsLines(buf: seq<string>, rest: seq<Segment>)
    requires forall l | l in buf :: '\n' !in l
    ensures Lines((if buf != [] then [Prose(buf, false)] else []) + rest) == buf + Lines(rest)
  {
    if buf == [] {
      assert [] + rest == rest;
    } else {
      ProseLines(buf, false);
      LinesCons(Prose(buf, false), rest);
    }
  }

  lemma ProseLines(buf: seq<string>, last: bool)
    requires buf != [] && forall l | l in buf :: '\n' !in l
    ensures SegLines(Prose(buf, last)) == buf
  {
    SplitJoin(buf);
  }

  /** The overlay repaints the text character for character. */
  lemma PrintParse(text: string)
    ensures Print(SegmentsOf(text)) == text
  {
    if text != "" {
      ScanKeepsLines(Split(text), [], Outside);
      PrintIsLines(SegmentsOf(text));
      JoinSplit(text);
      assert Lines(SegmentsOf(text)) == Split(text);
    }
  }

  // ---- Parsing what was printed ----

  predicate FenceFree(lines: seq<string>) {
    forall l | l in lines :: Fence(Js, l).None?
  }

  predicate FenceLine(l: string, lang: string) {
    '\n' !in l && Fence(Js, l) == Some(lang)
  }

  predicate WellFormedSegment(s: Segment, last: bool) {
    if s.code then
      && FenceLine(s.open, s.lang)
      && (if s.bodyStarted then FenceFree(Split(s.body)) else s.body == "")
      && (if s.closed then '\n' !in s.close && Fence(Js, s.close).Some? else s.close == "" && last)
    else
      && s.lang == "" && s.open == "" && s.close == "" && !s.bodyStarted
      && FenceFree(Split(s.body))
      && s.closed == !last
  }

  /** Each segment is of the right shape for its place in the list. */
  predicate Follows(segs: seq<Segment>) {
    segs == [] || (
      && WellFormedSegment(segs[0], |segs| == 1)
      && (|segs| > 1 && !segs[0].code ==> segs[1].code)
      && Follows(segs[1..]))
  }

  const EMPTY_PROSE := Segment(false, "", "", false, "", "", false)

  /** No two proses in a row, fence-free bodies, only the last segment unclosed; empty text has no segment. */
  predicate WellFormed(segs: seq<Segment>) {
    Follows(segs) && segs != [EMPTY_PROSE]
  }

  /** Lines that are no fences just go into the buffer. */
  lemma {:induction false} ScanBuffers(a: seq<string>, rest: seq<string>, buf: seq<string>, b: Block)
    requires FenceFree(a)
    ensures Scan(a + rest, buf, b) == Scan(rest, buf + a, b)
    decreases |a|
  {
    if a == [] {
      assert a + rest == rest && buf + a == buf;
    } else {
      assert (a + rest)[1..] == a[1..] + rest;
      ScanBuffers(a[1..], rest, buf + [a[0]], b);
      assert buf + [a[0]] + a[1..] == buf + a;
    }
  }

  lemma {:induction false} ScanOfLines(segs: seq<Segment>)
    requires Follows(segs)
    ensures Scan(Lines(segs), [], Outside) == segs
    decreases |segs|
  {
    if segs != [] {
      var s, rest := segs[0], Lines(segs[1..]);
      ScanOfLines(segs[1..]);
      JoinSplit(s.body);
      if s.code {
        ScanOfCode(s, rest, |segs| == 1);
      } else {
        ScanBuffers(Split(s.body), rest, [], Outside);
        assert [] + Split(s.body) == Split(s.body);
        if |segs| > 1 {
          assert rest[0] == segs[1].open;
        }
      }
    }
  }

  lemma ScanOpens(open: string, lang: string, rest: seq<string>)
    requires Fence(Js, open) == Some(lang)
    ensures Scan([open] + rest, [], Outside) == Scan(rest, [], Inside(open, lang))
  {
    assert ([open] + rest)[1..] == rest;
    hide Fence;
  }

  lemma ScanCloses(close: string, rest: seq<string>, buf: seq<string>, b: Block)
    requires Fence(Js, close).Some? && b.Inside?
    ensures Scan([close] + rest, buf, b) == [Code(b, buf, true, close)] + Scan(rest, [], Outside)
  {
    assert ([close] + rest)[1..] == rest;
    hide Fence;
  }

  /** A well-formed code segment is the one its lines make. */
  lemma CodeIs(s: Segment, last: bool)
    requires s.code && WellFormedSegment(s, last)
    ensures var body := if s.bodyStarted then Split(s.body) else [];
            && s == Code(Inside(s.open, s.lang), body, s.closed, s.close)
            && FenceFree(body)
            && SegLines(s) == [s.open] + body + (if s.closed then [s.close] else [])
            && Fence(Js, s.open) == Some(s.lang)
            && (if s.closed then Fence(Js, s.close).Some? else last && s.close == "")
  {
    JoinSplit(s.body);
    hide Fence;
  }

  lemma ScanBlock(open: string, lang: string, body: seq<string>, tail: seq<string>)
    requires Fence(Js, open) == Some(lang) && FenceFree(body)
    ensures Scan([open] + (body + tail), [], Outside) == Scan(tail, body, Inside(open, lang))
  {
    hide *;
    ScanOpens(open, lang, body + tail);
    ScanBuffers(body, tail, [], Inside(open, lang));
    assert [] + body == body;
  }

  /** The lines of a block, closed or cut off by the end of the text. */
  lemma ScanClosedBlock(open: string, lang: string, body: seq<string>, close: string, rest: seq<string>)
    requires Fence(Js, open) == Some(lang) && FenceFree(body) && Fence(Js, close).Some?
    ensures Scan([open] + body + [close] + rest, [], Outside) ==
            [Code(Inside(open, lang), body, true, close)] + Scan(rest, [], Outside)
  {
    hide *;
    assert [open] + body + [close] + rest == [open] + (body + ([close] + rest));
    ScanBlock(open, lang, body, [close] + rest);
    ScanCloses(close, rest, body, Inside(open, lang));
  }

  lemma ScanOpenBlock(open: string, lang: string, body: seq<string>)
    requires Fence(Js, open) == Some(lang) && FenceFree(body)
    ensures Scan([open] + body, [], Outside) == [Code(Inside(open, lang), body, false, "")]
  {
    assert [open] + body == [open] + (body + []);
    ScanBlock(open, lang, body, []);
    hide Fence, FenceFree, Code;
  }

  lemma ScanOfCode(s: Segment, rest: seq<string>, last: bool)
    requires s.code && WellFormedSegment(s, last) && (last ==> rest == [])
    ensures Scan(SegLines(s) + rest, [], Outside) == [s] + Scan(rest, [], Outside)
  {
    CodeIs(s, last);
    var body := if s.bodyStarted then Split(s.body) else [];
    assert Scan([], [], Outside) == [];
    hide *;
    if s.closed {
      ScanClosedBlock(s.open, s.lang, body, s.close, rest);
    } else {
      ScanOpenBlock(s.open, s.lang, body);
      assert [s.open] + body + [] + rest == [s.open] + body;
    }
  }

  /** Letters, digits and four signs: what may follow the ticks. */
  predicate LangName(lang: string) {
    forall c | c in lang :: 'A' <= c <= 'Z' || 'a' <= c <= 'z' || '0' <= c <= '9' || c == '_' || c == '+' || c == '-' || c == '.'
  }

  lemma TicksAreFence(d: Dialect, lang: string)
    requires LangName(lang)
    ensures Fence(d, "```" + lang) == Some(lang) && '\n' !in "```" + lang
  {
    FenceIsMatch(d, "```" + lang, lang);
  }

  lemma SplitThree(a: string, b: string, c: string)
    requires '\n' !in a && '\n' !in b && '\n' !in c
    ensures Split(a + "\n" + b + "\n" + c) == [a, b, c]
  {
    hide Split;
    assert a + "\n" + b + "\n" + c == a + "\n" + (b + "\n" + c);
    SplitConcat(a, b + "\n" + c);
    SplitConcat(b, c);
    SplitLine(c);
  }

  /** Three back-ticks and a language, a line that is no fence, three back-ticks: one closed block. */
  lemma CodeBlock(lang: string, body: string)
    requires LangName(lang) && '\n' !in body && Fence(Js, body).None?
    ensures SegmentsOf("```" + lang + "\n" + body + "\n" + "```") ==
            [Segment(true, lang, body, true, "```" + lang, "```", true)]
  {
    TicksAreFence(Js, lang);
    TicksAreFence(Js, "");
    assert "```" + "" == "```";
    SplitThree("```" + lang, body, "```");
    hide Fence, Split, LangName;
    ScanClosedBlock("```" + lang, lang, [body], "```", []);
    assert ["```" + lang] + [body] + ["```"] + [] == ["```" + lang, body, "```"];
    assert Scan([], [], Outside) == [];
  }

  /** Without a fence line, a text is one prose segment. */
  lemma NoFenceIsProse(text: string)
    requires text != "" && forall l | l in Split(text) :: Fence(Js, l).None?
    ensures SegmentsOf(text) == [Segment(false, "", text, false, "", "", false)]
  {
    JoinSplit(text);
    ScanBuffers(Split(text), [], [], Outside);
    hide Fence, Split;
    assert Split(text) + [] == Split(text) && [] + Split(text) == Split(text);
  }

  lemma {:induction false} LinesHaveNoBreak(segs: seq<Segment>)
    requires Follows(segs)
    ensures forall l | l in Lines(segs) :: '\n' !in l
    decreases |segs|
  {
    if segs != [] { LinesHaveNoBreak(segs[1..]); }
  }

  /** Every well-formed list of segments is read back from its own print. */
  lemma ParsePrint(segs: seq<Segment>)
    requires WellFormed(segs)
    ensures SegmentsOf(Print(segs)) == segs
  {
    if segs != [] {
      PrintIsLines(segs);
      LinesHaveNoBreak(segs);
      ScanOfLines(segs);
      SplitJoin(Lines(segs));
      if Print(segs) == "" {
        PrintsEmpty(segs);
      }
    }
  }

  lemma PrintsEmpty(segs: seq<Segment>)
    requires Follows(segs) && segs != [] && Lines(segs) == [""]
    ensures segs == [EMPTY_PROSE]
  {
    if |segs| == 1 {
      assert SegLines(segs[0]) == Lines(segs);
      JoinSplit(segs[0].body);
    }
  }

  lemma {:induction false} ScanWellFormed(lines: seq<string>, buf: seq<string>, b: Block)
    requires FenceFree(buf) && forall l | l in buf + lines :: '\n' !in l
    requires b.Inside? ==> FenceLine(b.open, b.lang)
    ensures Follows(Scan(lines, buf, b))
    ensures b.Inside? ==> Scan(lines, buf, b) != [] && Scan(lines, buf, b)[0].code
    decreases |lines|
  {
    if buf != [] { SplitJoin(buf); }
    if lines != [] {
      var line, rest := lines[0], lines[1..];
      match Fence(Js, line)
      case None =>
        ScanWellFormed(rest, buf + [line], b);
      case Some(lang) =>
        if b.Inside? {
          ScanWellFormed(rest, [], Outside);
          ClosedCodeFirst(Code(b, buf, true, line), Scan(rest, [], Outside));
        } else {
          ScanWellFormed(rest, [], Inside(line, lang));
          ProseFirst(buf, Scan(rest, [], Inside(line, lang)));
        }
    }
  }

  lemma ProseFirst(buf: seq<string>, rest: seq<Segment>)
    requires FenceFree(buf) && forall l | l in buf :: '\n' !in l
    requires Follows(rest) && rest != [] && rest[0].code
    ensures Follows((if buf != [] then [Prose(buf, false)] else []) + rest)
  {
    if buf == [] {
      assert [] + rest == rest;
    } else {
      SplitJoin(buf);
      assert ([Prose(buf, false)] + rest)[1..] == rest;
    }
  }

  lemma ClosedCodeFirst(s: Segment, rest: seq<Segment>)
    requires s.code && s.closed && WellFormedSegment(s, false) && Follows(rest)
    ensures Follows([s] + rest)
  {
    assert ([s] + rest)[1..] == rest;
  }

  /** The splitter yields only well-formed lists, so it and the printer are inverse bijections. */
  lemma ParseWellFormed(text: string)
    ensures WellFormed(SegmentsOf(text))
  {
    if text != "" {
      ScanWellFormed(Split(text), [], Outside);
      PrintParse(text);
      assert Print([EMPTY_PROSE]) == "" by {
        assert Texts([EMPTY_PROSE]) == [""];
      }
    }
  }
}
