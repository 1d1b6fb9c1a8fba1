/** The server's fence splitter, and exactly when it agrees with the editor's. */
module FenceAgreement {
  import opened Options
  import opened Text
  import opened Fences

  datatype TextSegment = TextSegment(code: bool, lang: string, body: string)

  /** The only line break in `s`, if any, is the line feed. */
  predicate OnlyLineFeeds(s: string) {
    forall c | c in s :: LineBreak(StrNewlines, c) ==> c == '\n'
  }

  predicate EndsInBreak(s: string) {
    s != "" && s[|s| - 1] == '\n'
  }

  /** A line feed ends the first line; without one the text is a line. */
  lemma FirstLine(s: string) returns (k: nat)
    requires OnlyLineFeeds(s) && s != ""
    ensures k <= |s| && '\n' !in s[..k]
    ensures k == |s| ==> SplitLines(StrNewlines, s) == [s]
    ensures k < |s| ==> s[k] == '\n' && s == s[..k] + "\n" + s[k + 1..] && OnlyLineFeeds(s[k + 1..])
    ensures k < |s| ==> SplitLines(StrNewlines, s) == [s[..k]] + SplitLines(StrNewlines, s[k + 1..])
  {
    k := FirstBreak(StrNewlines, s);
    assert LineBreak(StrNewlines, '\n');
    if k < |s| { assert s[k] in s; }
    hide LineBreak;
  }

  lemma {:induction false} SplitLinesVsSplit(s: string)
    requires OnlyLineFeeds(s) && s != ""
    ensures if EndsInBreak(s) then Split(s) == SplitLines(StrNewlines, s) + [""] else Split(s) == SplitLines(StrNewlines, s)
    decreases |s|
  {
    var k := FirstLine(s);
    hide OnlyLineFeeds, Split, SplitLines;
    if k == |s| {
      assert s[..k] == s;
      SplitLine(s);
    } else {
      SplitConcat(s[..k], s[k + 1..]);
      if s[k + 1..] == "" {
        NoLine();
      } else {
        SplitLinesVsSplit(s[k + 1..]);
      }
    }
  }

  lemma NoLine()
    ensures Split("") == [""] && SplitLines(StrNewlines, "") == []
  {
  }

  // ---- `assistant_segments` ----

  /** The segments the remaining lines add; `code` is the open block's language. */
  function PyScan(lines: seq<string>, buf: seq<string>, code: Option<string>): seq<TextSegment>
    decreases |lines|
  {
    if lines == [] then
      if buf == [] then [] else [PySegment(buf, code)]
    else match Fence(Py, lines[0])
      case None => PyScan(lines[1..], buf + [lines[0]], code)
      case Some(lang) =>
        if code.Some? then [PySegment(buf, code)] + PyScan(lines[1..], [], None)
        else (if buf != [] then [PySegment(buf, None)] else []) + PyScan(lines[1..], [], Some(lang))
  }

  function PySegment(buf: seq<string>, code: Option<string>): TextSegment {
    TextSegment(code.Some?, if code.Some? then code.value else "", Join(buf))
  }

  function AssistantSegmentsOf(text: string): seq<TextSegment> {
    if text == "" then [TextSegment(false, "", "")] else PyScan(SplitLines(StrNewlines, text), [], None)
  }

  /** What the line at `i` does to the scan, after the segments already out. */
  lemma PyScanAt(lines: seq<string>, i: nat, buf: seq<string>, code: Option<string>, out: seq<TextSegment>)
    requires i < |lines|
    ensures out + PyScan(lines[i..], buf, code) ==
            match Fence(Py, lines[i])
            case None => out + PyScan(lines[i + 1..], buf + [lines[i]], code)
            case Some(lang) =>
              if code.Some? then out + [PySegment(buf, code)] + PyScan(lines[i + 1..], [], None)
              else (if buf != [] then out + [PySegment(buf, None)] else out) + PyScan(lines[i + 1..], [], Some(lang))
  {
    assert lines[i..][0] == lines[i] && lines[i..][1..] == lines[i + 1..];
    hide Fence, PySegment;
  }

  method AssistantSegments(text: string) returns (out: seq<TextSegment>)
    ensures out == AssistantSegmentsOf(text)
  {
    if text == "" {
      return [TextSegment(false, "", "")];
    }
    out := [];
    var buf: seq<string> := [];
    var inCode, lang := false, "";
    var lines := SplitLines(StrNewlines, text);
    var i := 0;
    while i < |lines|
      invariant 0 <= i <= |lines|
      invariant !inCode ==> lang == ""
      invariant out + PyScan(lines[i..], buf, if inCode then Some(lang) else None) == AssistantSegmentsOf(text)
    {
      PyScanAt(lines, i, buf, if inCode then Some(lang) else None, out);
      hide PyScan, Fence, Join, SplitLines, AssistantSegmentsOf;
      var line := lines[i];
      var m := Fence(Py, line);
      if m.Some? {
        if inCode {
          out := out + [TextSegment(true, lang, Join(buf))];
          buf, inCode, lang := [], false, "";
        } else {
          if buf != [] {
            out := out + [TextSegment(false, "", Join(buf))];
          }
          buf, inCode, lang := [], true, m.value;
        }
      } else {
        buf := buf + [line];
      }
      i := i + 1;
    }
    if buf != [] {
      out := out + [TextSegment(inCode, lang, Join(buf))];
    }
  }

  /** Three back-ticks and a language, a line that is no fence, three back-ticks: one block. */
  lemma ServerCodeBlock(lang: string, body: string)
    requires LangName(lang) && Fence(Py, body).None?
    requires forall c | c in body :: !LineBreak(StrNewlines, c)
    ensures AssistantSegmentsOf("```" + lang + "\n" + body + "\n" + "```") == [TextSegment(true, lang, body)]
  {
    var open := "```" + lang;
    var text := open + "\n" + body + "\n" + "```";
    TicksAreFence(Py, lang);
    TicksAreFence(Py, "");
    assert "```" + "" == "```";
    SplitThree(open, body, "```");
    BlockLines(open, body);
    hide Fence, Split, LangName, LineBreak, SplitLines;
    var lines := [open, body, "```"];
    assert SplitLines(StrNewlines, text) == lines;
    assert lines[1..] == [body, "```"] && lines[1..][1..] == ["```"] && lines[1..][1..][1..] == [];
    assert PyScan(["```"], [body], Some(lang)) == [PySegment([body], Some(lang))] + PyScan([], [], None);
    assert PyScan([body, "```"], [], Some(lang)) == PyScan(["```"], [] + [body], Some(lang));
  }

  lemma BlockLines(open: string, body: string)
    requires '\n' !in open && (forall c | c in open :: !LineBreak(StrNewlines, c))
    requires forall c | c in body :: !LineBreak(StrNewlines, c)
    ensures '\n' !in body
    ensures var text := open + "\n" + body + "\n" + "```"; SplitLines(StrNewlines, text) == Split(text)
  {
    var text := open + "\n" + body + "\n" + "```";
    assert text[|text| - 1] == '`';
    SplitLinesVsSplit(text);
    hide Split, SplitLines;
  }

  // ---- The projection and its failures ----

  /** Kind, language and body: what the server's splitter keeps of a segment. */
  function Project(segs: seq<Segment>): seq<TextSegment> {
    if segs == [] then []
    else [TextSegment(segs[0].code, segs[0].lang, segs[0].body)] + Project(segs[1..])
  }

  predicate SameFences(lines: seq<string>) {
    forall l | l in lines :: Fence(Js, l) == Fence(Py, l)
  }

  /** The last line opens a block that nothing follows: an odd number of fences, the last one at the end. */
  predicate EndsInOpenFence(lines: seq<string>, inCode: bool) {
    lines != [] && Fence(Js, lines[|lines| - 1]).Some? && !InCodeAfter(lines[..|lines| - 1], inCode)
  }

  predicate InCodeAfter(lines: seq<string>, inCode: bool) {
    if lines == [] then inCode
    else InCodeAfter(lines[1..], if Fence(Js, lines[0]).Some? then !inCode else inCode)
  }

  lemma ProjectCons(s: Segment, rest: seq<Segment>)
    ensures Project([s] + rest) == [TextSegment(s.code, s.lang, s.body)] + Project(rest)
  {
    assert ([s] + rest)[1..] == rest;
  }

  function Lang(b: Block): Option<string> {
    if b.Inside? then Some(b.lang) else None
  }

  /** One line of the editor's scan, seen through the projection. */
  lemma ProjectStep(lines: seq<string>, buf: seq<string>, b: Block)
    requires lines != []
    ensures Project(Scan(lines, buf, b)) ==
            match Fence(Js, lines[0])
            case None => Project(Scan(lines[1..], buf + [lines[0]], b))
            case Some(lang) =>
              if b.Inside? then [PySegment(buf, Lang(b))] + Project(Scan(lines[1..], [], Outside))
              else (if buf != [] then [PySegment(buf, None)] else [])
                   + Project(Scan(lines[1..], [], Inside(lines[0], lang)))
  {
    match Fence(Js, lines[0])
    case None =>
    case Some(lang) =>
      if b.Inside? {
        ProjectCons(Code(b, buf, true, lines[0]), Scan(lines[1..], [], Outside));
      } else {
        var inner := Scan(lines[1..], [], Inside(lines[0], lang));
        if buf == [] {
          assert [] + inner == inner;
        } else {
          ProjectCons(Prose(buf, false), inner);
        }
      }
  }

  /** With the same fences the scans agree, but the editor's also shows a bare opening fence at the end. */
  lemma {:induction false} ScansAgree(lines: seq<string>, buf: seq<string>, b: Block)
    requires SameFences(lines)
    ensures var bare := EndsInOpenFence(lines, b.Inside?) || (lines == [] && b.Inside? && buf == []);
            if bare then |Project(Scan(lines, buf, b))| == |PyScan(lines, buf, Lang(b))| + 1
            else Project(Scan(lines, buf, b)) == PyScan(lines, buf, Lang(b))
    decreases |lines|
  {
    if lines == [] {
      if b.Inside? || buf != [] {
        assert Project(Scan(lines, buf, b)) == [PySegment(buf, Lang(b))];
      }
    } else {
      var line, rest := lines[0], lines[1..];
      ProjectStep(lines, buf, b);
      hide Scan;
      OpenFenceStep(lines, b.Inside?);
      match Fence(Js, line)
      case None => ScansAgree(rest, buf + [line], b);
      case Some(lang) =>
        if b.Inside? { ScansAgree(rest, [], Outside); } else { ScansAgree(rest, [], Inside(line, lang)); }
    }
  }

  lemma OpenFenceStep(lines: seq<string>, inCode: bool)
    requires lines != []
    ensures var inCode' := if Fence(Js, lines[0]).Some? then !inCode else inCode;
            EndsInOpenFence(lines, inCode) <==>
              if |lines| == 1 then inCode' && !inCode else EndsInOpenFence(lines[1..], inCode')
  {
    if |lines| > 1 {
      assert lines[..|lines| - 1][1..] == lines[1..][..|lines| - 2];
    }
  }

  /** A line break at the end gives the editor one more, empty, line: the results always differ. */
  lemma {:induction false} FinalBreakDiffers(lines: seq<string>, buf: seq<string>, b: Block)
    requires SameFences(lines)
    ensures Project(Scan(lines + [""], buf, b)) != PyScan(lines, buf, Lang(b))
    decreases |lines|
  {
    assert Fence(Js, "") == None;
    ProjectStep(lines + [""], buf, b);
    if lines == [] {
      assert (lines + [""])[1..] == [];
      var last := buf + [""];
      assert Project(Scan([], last, b)) == [PySegment(last, Lang(b))];
      if buf != [] {
        JoinConcat(buf, [""]);
      }
    } else {
      var line, rest := lines[0], lines[1..];
      assert (lines + [""])[1..] == rest + [""];
      hide Scan;
      match Fence(Js, line)
      case None => FinalBreakDiffers(rest, buf + [line], b);
      case Some(lang) =>
        if b.Inside? {
          FinalBreakDiffers(rest, [], Outside);
          HeadsDiffer([PySegment(buf, Lang(b))], Project(Scan(rest + [""], [], Outside)), PyScan(rest, [], None));
        } else {
          FinalBreakDiffers(rest, [], Inside(line, lang));
          HeadsDiffer(if buf != [] then [PySegment(buf, None)] else [],
                      Project(Scan(rest + [""], [], Inside(line, lang))), PyScan(rest, [], Some(lang)));
        }
    }
  }

  lemma HeadsDiffer<T>(h: seq<T>, a: seq<T>, b: seq<T>)
    requires a != b
    ensures h + a != h + b
  {
    assert (h + a)[|h|..] == a;
    assert (h + b)[|h|..] == b;
  }

  // ---- Equal results force equal fences ----

  /** `l` is a line of some body. */
  ghost predicate Shows(segs: seq<TextSegment>, l: string) {
    exists i | 0 <= i < |segs| :: l in Split(segs[i].body)
  }

  lemma ShowsConcat(a: seq<TextSegment>, b: seq<TextSegment>, l: string)
    ensures Shows(a + b, l) <==> Shows(a, l) || Shows(b, l)
  {
    if Shows(a, l) {
      var i :| 0 <= i < |a| && l in Split(a[i].body);
      assert (a + b)[i] == a[i];
    }
    if Shows(b, l) {
      var i :| 0 <= i < |b| && l in Split(b[i].body);
      assert (a + b)[|a| + i] == b[i];
    }
  }

  lemma ShowsOne(buf: seq<string>, code: Option<string>, l: string)
    requires forall m | m in buf :: '\n' !in m
    ensures Shows([PySegment(buf, code)], l) <==> if buf == [] then l == "" else l in buf
  {
    if buf != [] { SplitJoin(buf); }
    assert [PySegment(buf, code)][0].body == Join(buf);
  }

  /** The editor's bodies show its non-fence lines, and nothing else but an empty line. */
  lemma {:induction false} JsShows(lines: seq<string>, buf: seq<string>, b: Block, l: string)
    requires forall m | m in lines + buf :: '\n' !in m
    ensures l in buf || (l in lines && Fence(Js, l).None?) ==> Shows(Project(Scan(lines, buf, b)), l)
    ensures Shows(Project(Scan(lines, buf, b)), l) ==> l == "" || l in buf || (l in lines && Fence(Js, l).None?)
    decreases |lines|
  {
    if lines == [] {
      ShowsOne(buf, Lang(b), l);
      if b.Inside? || buf != [] {
        assert Project(Scan(lines, buf, b)) == [PySegment(buf, Lang(b))];
      }
    } else {
      var line, rest := lines[0], lines[1..];
      assert lines == [line] + rest;
      ProjectStep(lines, buf, b);
      hide Scan;
      match Fence(Js, line)
      case None => JsShows(rest, buf + [line], b, l);
      case Some(lang) =>
        var b' := if b.Inside? then Outside else Inside(line, lang);
        JsShows(rest, [], b', l);
        ShowsOne(buf, Lang(b), l);
        ShowsConcat(if b.Inside? || buf != [] then [PySegment(buf, Lang(b))] else [], Project(Scan(rest, [], b')), l);
    }
  }

  lemma {:induction false} PyShows(lines: seq<string>, buf: seq<string>, code: Option<string>, l: string)
    requires forall m | m in lines + buf :: '\n' !in m
    ensures l in buf || (l in lines && Fence(Py, l).None?) ==> Shows(PyScan(lines, buf, code), l)
    ensures Shows(PyScan(lines, buf, code), l) ==> l == "" || l in buf || (l in lines && Fence(Py, l).None?)
    decreases |lines|
  {
    ShowsOne(buf, code, l);
    if lines != [] {
      var line, rest := lines[0], lines[1..];
      assert lines == [line] + rest;
      match Fence(Py, line)
      case None => PyShows(rest, buf + [line], code, l);
      case Some(lang) =>
        var code' := if code.Some? then None else Some(lang);
        PyShows(rest, [], code', l);
        ShowsConcat(if code.Some? || buf != [] then [PySegment(buf, code)] else [], PyScan(rest, [], code'), l);
    }
  }

  lemma EqualForcesFences(jsLines: seq<string>, pyLines: seq<string>)
    requires jsLines == pyLines || jsLines == pyLines + [""]
    requires forall m | m in jsLines :: '\n' !in m
    requires Project(Scan(jsLines, [], Outside)) == PyScan(pyLines, [], None)
    ensures SameFences(jsLines)
  {
    forall l | l in jsLines ensures Fence(Js, l) == Fence(Py, l) {
      if l != "" {
        assert l in pyLines;
        JsShows(jsLines, [], Outside, l);
        PyShows(pyLines, [], None, l);
      }
    }
  }

  // ---- The result ----

  /**
   For text whose only line break is the line feed, the two splitters agree on kind, language
   and body exactly when the text is not empty, does not end in a line break, does not end in
   an opening fence, and no line is a fence to one regular expression and not to the other.
   */
  lemma AgreeExactly(text: string)
    requires OnlyLineFeeds(text)
    ensures AssistantSegmentsOf(text) == Project(SegmentsOf(text)) <==>
            && text != ""
            && !EndsInBreak(text)
            && SameFences(Split(text))
            && !EndsInOpenFence(Split(text), false)
  {
    if text != "" {
      SplitLinesVsSplit(text);
      var js, py := Split(text), SplitLines(StrNewlines, text);
      if SameFences(js) {
        assert SameFences(py);
        if EndsInBreak(text) {
          FinalBreakDiffers(py, [], Outside);
        } else {
          ScansAgree(js, [], Outside);
        }
      } else if AssistantSegmentsOf(text) == Project(SegmentsOf(text)) {
        EqualForcesFences(js, py);
      }
    }
  }

  /** Text free of the unit separator and the byte order mark cannot tell the expressions apart. */
  lemma UsualTextHasSameFences(text: string)
    requires OnlyLineFeeds(text)
    requires '\U{1F}' !in text && '\U{FEFF}' !in text
    ensures SameFences(Split(text))
  {
    forall l | l in Split(text) ensures Fence(Js, l) == Fence(Py, l) {
      forall c | c in l ensures Space(Js, c) <==> Space(Py, c) {
        SplitChars(text, l, c);
      }
    }
  }

  lemma {:induction false} SplitChars(text: string, l: string, c: char)
    requires l in Split(text) && c in l
    ensures c in text && c != '\n'
    decreases |text|
  {
    if text != "" {
      var rest := Split(text[1..]);
      if text[0] == '\n' {
        assert Split(text) == [""] + rest;
        SplitChars(text[1..], l, c);
      } else if l == [text[0]] + rest[0] {
        if c != text[0] { SplitChars(text[1..], rest[0], c); }
      } else {
        assert l in rest[1..];
        SplitChars(text[1..], l, c);
      }
    }
  }

  const BYTE_ORDER_MARK := '\U{FEFF}'

  /** Ticks and a byte order mark are a fence to one expression only. */
  lemma MarkedFence()
    ensures Fence(Js, "```" + [BYTE_ORDER_MARK]).Some? && Fence(Py, "```" + [BYTE_ORDER_MARK]).None?
  {
    var l := "```" + [BYTE_ORDER_MARK];
    assert l[3..] == [BYTE_ORDER_MARK];
    assert LangSpan(l[3..]) == "";
    assert l[3..][0] in l[3..];
  }

  /** Such text exists: a code block to one splitter, prose to the other. */
  lemma ByteOrderMarkDiffers(rest: string)
    requires OnlyLineFeeds(rest)
    ensures var text := "```" + [BYTE_ORDER_MARK] + "\n" + rest;
            AssistantSegmentsOf(text) != Project(SegmentsOf(text))
  {
    var l := "```" + [BYTE_ORDER_MARK];
    MarkedFence();
    hide Fence, AssistantSegmentsOf, SegmentsOf, Project;
    SplitConcat(l, rest);
    assert Split(l + "\n" + rest)[0] == l;
    AgreeExactly(l + "\n" + rest);
  }
}
