/** Lines, white space and fences, as the two languages see them. */
module Text {
  import opened Options

  // ---- Splitting at '\n' and joining ----

  /** `text.split("\n")`. */
  function Split(s: string): (lines: seq<string>)
    ensures |lines| >= 1
    ensures forall l | l in lines :: '\n' !in l
  {
    if s == "" then [""]
    else
      var rest := Split(s[1..]);
      if s[0] == '\n' then [""] + rest else [[s[0]] + rest[0]] + rest[1..]
  }

  /** `lines.join("\n")`. */
  function Join(lines: seq<string>): string {
    if |lines| == 0 then ""
    else if |lines| == 1 then lines[0]
    else lines[0] + "\n" + Join(lines[1..])
  }

  lemma {:induction false} JoinSplit(s: string)
    ensures Join(Split(s)) == s
  {
    if s != "" {
      JoinSplit(s[1..]);
      var rest := Split(s[1..]);
      if s[0] == '\n' {
        assert ([""] + rest)[1..] == rest;
      } else if |rest| > 1 {
        assert ([[s[0]] + rest[0]] + rest[1..])[1..] == rest[1..];
      }
    }
  }

  lemma {:induction false} SplitLine(l: string)
    requires '\n' !in l
    ensures Split(l) == [l]
  {
    if l != "" {
      assert '\n' !in l[1..];
      SplitLine(l[1..]);
      assert l == [l[0]] + l[1..];
    }
  }

  lemma {:induction false} SplitConcat(l: string, s: string)
    requires '\n' !in l
    ensures Split(l + "\n" + s) == [l] + Split(s)
  {
    var t := l + "\n" + s;
    if l == "" {
      assert t[1..] == s;
    } else {
      assert '\n' !in l[1..];
      assert t[1..] == l[1..] + "\n" + s && t[0] == l[0];
      SplitConcat(l[1..], s);
      assert l == [l[0]] + l[1..];
    }
  }

  lemma {:induction false} SplitJoin(lines: seq<string>)
    requires lines != [] && forall l | l in lines :: '\n' !in l
    ensures Split(Join(lines)) == lines
  {
    if |lines| == 1 {
      SplitLine(lines[0]);
    } else {
      SplitJoin(lines[1..]);
      SplitConcat(lines[0], Join(lines[1..]));
    }
  }

  lemma {:induction false} JoinConcat(a: seq<string>, b: seq<string>)
    requires a != [] && b != []
    ensures Join(a + b) == Join(a) + "\n" + Join(b)
  {
    if |a| == 1 {
      assert (a + b)[1..] == b;
    } else {
      JoinConcat(a[1..], b);
      assert (a + b)[1..] == a[1..] + b;
      assert a[0] + "\n" + (Join(a[1..]) + "\n" + Join(b)) == a[0] + "\n" + Join(a[1..]) + "\n" + Join(b);
    }
  }

  // ---- Splitting at the line breaks a language knows ----

  /** Line breaks of a text file read with universal newlines, and of `str.splitlines()`. */
  datatype Newlines = FileNewlines | StrNewlines

  predicate LineBreak(n: Newlines, c: char) {
    || c == '\n' || c == '\r'
    || (n.StrNewlines? && ('\n' <= c <= '\r' || '\U{1C}' <= c <= '\U{1E}' || c == '\U{85}' || c == '\U{2028}' || c == '\U{2029}'))
  }

  function FirstBreak(n: Newlines, s: string): (k: nat)
    ensures k <= |s| && (forall c | c in s[..k] :: !LineBreak(n, c)) && (k < |s| ==> LineBreak(n, s[k]))
  {
    if s == "" || LineBreak(n, s[0]) then 0
    else
      var k := FirstBreak(n, s[1..]);
      assert s[..k + 1] == [s[0]] + s[1..][..k];
      k + 1
  }

  /** The lines of `s` without their breaks; a carriage return and line feed are one break. */
  function SplitLines(n: Newlines, s: string): seq<string>
    decreases |s|
  {
    if s == "" then []
    else
      var k := FirstBreak(n, s);
      if k == |s| then [s]
      else
        var next := if s[k] == '\r' && k + 1 < |s| && s[k + 1] == '\n' then k + 2 else k + 1;
        [s[..k]] + SplitLines(n, s[next..])
  }

  lemma {:induction false} FirstBreakAt(n: Newlines, a: string, t: string)
    requires (forall c | c in a :: !LineBreak(n, c)) && t != "" && LineBreak(n, t[0])
    ensures FirstBreak(n, a + t) == |a|
  {
    hide LineBreak;
    if a == "" {
      assert a + t == t;
    } else {
      assert (a + t)[1..] == a[1..] + t;
      FirstBreakAt(n, a[1..], t);
    }
  }

  /** A line ends at its first break, */
  lemma LineFeedEndsLine(n: Newlines, line: string, rest: string)
    requires forall c | c in line :: !LineBreak(n, c)
    ensures SplitLines(n, line + ("\n" + rest)) == [line] + SplitLines(n, rest)
  {
    var tail := "\n" + rest;
    assert tail[0] == '\n' && LineBreak(n, '\n');
    FirstBreakAt(n, line, tail);
    hide FirstBreak, LineBreak;
    assert (line + tail)[..|line|] == line && (line + tail)[|line| + 1..] == rest;
  }

  /** and a carriage return with a line feed is one break. */
  lemma ReturnAndFeedEndLine(n: Newlines, line: string, rest: string)
    requires forall c | c in line :: !LineBreak(n, c)
    ensures SplitLines(n, line + ("\r\n" + rest)) == [line] + SplitLines(n, rest)
  {
    var tail := "\r\n" + rest;
    assert tail[0] == '\r' && LineBreak(n, '\r') && tail[1] == '\n';
    FirstBreakAt(n, line, tail);
    hide FirstBreak, LineBreak;
    assert (line + tail)[..|line|] == line && (line + tail)[|line| + 2..] == rest;
  }

  // ---- White space ----

  datatype Dialect = Js | Py

  /** Matched by `\s` in both, and trimmed by `trim()` and `strip()`. */
  predicate CommonSpace(c: char) {
    || '\t' <= c <= '\r' || c == ' ' || c == '\U{A0}' || c == '\U{1680}' || '\U{2000}' <= c <= '\U{200A}'
    || c == '\U{2028}' || c == '\U{2029}' || c == '\U{202F}' || c == '\U{205F}' || c == '\U{3000}'
  }

  /** `\s`: JavaScript adds the byte order mark, Python four separators and NEL. */
  predicate Space(d: Dialect, c: char) {
    CommonSpace(c) || (if d.Js? then c == '\U{FEFF}' else '\U{1C}' <= c <= '\U{1F}' || c == '\U{85}')
  }

  /** By code point: what both languages take for white space, and what only one of them does. */
  lemma SpaceByCodePoint(c: char)
    ensures Space(Js, c) && Space(Py, c) <==>
            var n := c as int;
            || n == 9 || n == 10 || n == 11 || n == 12 || n == 13 || n == 32 || n == 160 || n == 0x1680 || 0x2000 <= n <= 0x200A
            || n == 0x2028 || n == 0x2029 || n == 0x202F || n == 0x205F || n == 0x3000
    ensures Space(Js, c) && !Space(Py, c) <==> c as int == 0xFEFF
    ensures Space(Py, c) && !Space(Js, c) <==> 28 <= c as int <= 31 || c as int == 133
  {
  }

  lemma LineBreakByCodePoint(c: char)
    ensures LineBreak(FileNewlines, c) <==> c as int == 10 || c as int == 13
    ensures LineBreak(StrNewlines, c) <==>
            var n := c as int;
            10 <= n <= 13 || 28 <= n <= 30 || n == 133 || n == 0x2028 || n == 0x2029
  {
  }

  function TrimLeft(d: Dialect, s: string): (r: string)
    ensures r == "" || !Space(d, r[0])
    ensures |r| <= |s| && r == s[|s| - |r|..]
  {
    if s != "" && Space(d, s[0]) then TrimLeft(d, s[1..]) else s
  }

  function TrimRight(d: Dialect, s: string): (r: string)
    ensures r == "" || !Space(d, r[|r| - 1])
    ensures r <= s
  {
    if s != "" && Space(d, s[|s| - 1]) then TrimRight(d, s[..|s| - 1]) else s
  }

  /** `s.trim()` and `s.strip()`. */
  function Trim(d: Dialect, s: string): string {
    TrimRight(d, TrimLeft(d, s))
  }

  lemma {:induction false} TrimLeftIs(d: Dialect, s: string)
    ensures forall k | 0 <= k < |s| - |TrimLeft(d, s)| :: Space(d, s[k])
  {
    hide Space;
    if s != "" && Space(d, s[0]) {
      TrimLeftIs(d, s[1..]);
      assert forall k | 0 < k < |s| :: s[k] == s[1..][k - 1];
    }
  }

  lemma {:induction false} TrimRightIs(d: Dialect, s: string)
    ensures forall k | |TrimRight(d, s)| <= k < |s| :: Space(d, s[k])
    decreases |s|
  {
    hide Space;
    if s != "" && Space(d, s[|s| - 1]) {
      TrimRightIs(d, s[..|s| - 1]);
    }
  }

  /** What is trimmed off either end is white space, and what is left has none at its ends. */
  lemma TrimIs(d: Dialect, s: string) returns (i: nat)
    ensures var t := Trim(d, s);
            && i + |t| <= |s| && s[i..i + |t|] == t
            && (forall k | 0 <= k < i || i + |t| <= k < |s| :: Space(d, s[k]))
            && (t != "" ==> !Space(d, t[0]) && !Space(d, t[|t| - 1]))
  {
    hide *;
    var t, rest := Trim(d, s), TrimLeft(d, s);
    TrimEnds(d, s);
    i := |s| - |rest|;
    TrimLeftIs(d, s);
    TrimRightIs(d, rest);
    Within(s, rest, t, i);
  }

  lemma Within(s: string, rest: string, t: string, i: nat)
    requires i <= |s| && rest == s[i..] && t <= rest
    ensures i + |t| <= |s| && s[i..i + |t|] == t
    ensures forall k | i <= k < |s| :: s[k] == rest[k - i]
  {
  }

  lemma TrimEnds(d: Dialect, s: string)
    ensures var t, rest := Trim(d, s), TrimLeft(d, s);
            && |rest| <= |s| && rest == s[|s| - |rest|..]
            && t == TrimRight(d, rest) && t <= rest
            && (t != "" ==> !Space(d, t[0]) && !Space(d, t[|t| - 1]))
  {
    hide Space;
    var t, rest := Trim(d, s), TrimLeft(d, s);
    if t != "" { assert t[0] == rest[0]; }
  }

  // ---- Fence lines ----

  predicate LangChar(c: char) {
    'A' <= c <= 'Z' || 'a' <= c <= 'z' || '0' <= c <= '9' || c in "_+-."
  }

  function LangSpan(s: string): (r: string)
    ensures r <= s && (forall c | c in r :: LangChar(c))
    ensures |r| < |s| ==> !LangChar(s[|r|])
  {
    if s != "" && LangChar(s[0]) then [s[0]] + LangSpan(s[1..]) else ""
  }

  predicate AllSpace(d: Dialect, s: string) {
    forall c | c in s :: Space(d, c)
  }

  const TICKS := "```"

  /** The language of a fence line; `None` when the line is not one. */
  function Fence(d: Dialect, line: string): Option<string> {
    if TICKS <= line then
      var lang := LangSpan(line[3..]);
      if AllSpace(d, line[3 + |lang|..]) then Some(lang) else None
    else None
  }

  lemma SpaceNotLang(d: Dialect, c: char)
    ensures !(Space(d, c) && LangChar(c))
  {
  }

  lemma {:induction false} LangSpanIs(s: string, lang: string, d: Dialect)
    requires lang <= s && (forall c | c in lang :: LangChar(c)) && AllSpace(d, s[|lang|..])
    ensures LangSpan(s) == lang
  {
    if lang != "" {
      assert s[1..][|lang| - 1..] == s[|lang|..];
      LangSpanIs(s[1..], lang[1..], d);
    } else if s != "" {
      SpaceNotLang(d, s[0]);
    }
  }

  /** It is the match of the regular expression: three back-ticks, language characters, white space. */
  lemma FenceIsMatch(d: Dialect, line: string, lang: string)
    ensures Fence(d, line) == Some(lang) <==>
            && (forall c | c in lang ::
                  'A' <= c <= 'Z' || 'a' <= c <= 'z' || '0' <= c <= '9' || c == '_' || c == '+' || c == '-' || c == '.')
            && 3 + |lang| <= |line|
            && line[0] == line[1] == line[2] == '`'
            && line[3..3 + |lang|] == lang
            && forall k | 3 + |lang| <= k < |line| :: Space(d, line[k])
  {
    LangCharsAre(lang);
    var n := 3 + |lang|;
    if Fence(d, line) == Some(lang) {
      FenceGives(d, line, lang);
    }
    hide LangChar, Fence, LangSpan, Space;
    if && (forall c | c in lang :: LangChar(c)) && n <= |line| && line[0] == line[1] == line[2] == '`'
       && line[3..n] == lang && (forall k | n <= k < |line| :: Space(d, line[k]))
    {
      GivesFence(d, line, lang);
    }
  }

  lemma FenceGives(d: Dialect, line: string, lang: string)
    requires Fence(d, line) == Some(lang)
    ensures (forall c | c in lang :: LangChar(c)) && 3 + |lang| <= |line| && line[0] == line[1] == line[2] == '`'
    ensures line[3..3 + |lang|] == lang && forall k | 3 + |lang| <= k < |line| :: Space(d, line[k])
  {
    assert line[..3] == TICKS;
    var n := 3 + |lang|;
    assert line[3..n] == line[3..][..|lang|];
    hide LangChar, Space;
    forall k | n <= k < |line| ensures Space(d, line[k]) {
      assert line[n..][k - n] == line[k] && line[k] in line[n..];
    }
  }

  lemma GivesFence(d: Dialect, line: string, lang: string)
    requires (forall c | c in lang :: LangChar(c)) && 3 + |lang| <= |line| && line[0] == line[1] == line[2] == '`'
    requires line[3..3 + |lang|] == lang && forall k | 3 + |lang| <= k < |line| :: Space(d, line[k])
    ensures Fence(d, line) == Some(lang)
  {
    assert line[..3] == TICKS;
    var rest := line[3..];
    hide LangChar, Space, LangSpan;
    assert rest[..|lang|] == line[3..3 + |lang|];
    assert rest[|lang|..] == line[3 + |lang|..];
    assert AllSpace(d, rest[|lang|..]);
    LangSpanIs(rest, lang, d);
  }

  lemma LangCharsAre(s: string)
    ensures (forall c | c in s :: LangChar(c)) <==>
            forall c | c in s ::
              'A' <= c <= 'Z' || 'a' <= c <= 'z' || '0' <= c <= '9' || c == '_' || c == '+' || c == '-' || c == '.'
  {
    forall c | c in s ensures LangChar(c) <==>
              'A' <= c <= 'Z' || 'a' <= c <= 'z' || '0' <= c <= '9' || c == '_' || c == '+' || c == '-' || c == '.'
    {
      assert c in "_+-." <==> c == '_' || c == '+' || c == '-' || c == '.';
    }
  }
}
