/** The transcript file: one JSON object a line, and one sequence space across all its writers. */
module TranscriptFile {
  import opened Options
  import opened Text

  /** The `seq` of an event; Python counts a boolean as an integer. */
  datatype SeqField = NoSeq | IntSeq(n: int) | OtherSeq

  datatype Record = Record(seqNo: SeqField, ts: Option<string>, payload: string)

  /** The JSON library: `None` for text that does not parse, or is no object. */
  type Encoder = Record -> string
  type Decoder = string -> Option<Record>

  /** What is used of it: an object prints on one line, between braces, and parses back (RFC 8259, section 7). */
  ghost predicate Codec(enc: Encoder, dec: Decoder) {
    forall r :: OneLine(enc(r)) && dec(enc(r)) == Some(r)
  }

  predicate OneLine(l: string) {
    |l| >= 2 && l[0] == '{' && l[|l| - 1] == '}' && '\n' !in l && '\r' !in l
  }

  // ---- Reading ----

  function Parse(dec: Decoder, line: string): Option<Record> {
    var t := Trim(Py, line);
    if t == "" then None else dec(t)
  }

  function ParseAll(dec: Decoder, lines: seq<string>): seq<Record> {
    if lines == [] then []
    else
      var rest := ParseAll(dec, lines[1..]);
      match Parse(dec, lines[0]) case None => rest case Some(r) => [r] + rest
  }

  /** What line `i` adds to the records read so far. */
  lemma ParseAt(dec: Decoder, lines: seq<string>, i: nat, rs: seq<Record>)
    requires i < |lines|
    ensures rs + ParseAll(dec, lines[i..]) ==
            match Parse(dec, lines[i])
            case None => rs + ParseAll(dec, lines[i + 1..])
            case Some(r) => rs + [r] + ParseAll(dec, lines[i + 1..])
  {
    assert lines[i..][0] == lines[i] && lines[i..][1..] == lines[i + 1..];
    hide Parse;
  }

  /** The events of a file: lines that do not parse are skipped. */
  function Read(dec: Decoder, file: string): seq<Record> {
    ParseAll(dec, SplitLines(FileNewlines, file))
  }

  /** The highest integer `seq`, at least -1. */
  function Highest(rs: seq<Record>): (h: int)
    ensures h >= -1
  {
    if rs == [] then -1
    else
      var before, last := Highest(rs[..|rs| - 1]), rs[|rs| - 1];
      if last.seqNo.IntSeq? && last.seqNo.n > before then last.seqNo.n else before
  }

  /** It bounds every number, and is one of them unless there is none above -1. */
  lemma {:induction false} HighestIs(rs: seq<Record>)
    ensures forall r | r in rs && r.seqNo.IntSeq? :: r.seqNo.n <= Highest(rs)
    ensures Highest(rs) == -1 || exists r | r in rs :: r.seqNo == IntSeq(Highest(rs))
    decreases |rs|
  {
    if rs != [] {
      var front, last := rs[..|rs| - 1], rs[|rs| - 1];
      HighestIs(front);
      assert rs == front + [last];
      if Highest(rs) != -1 && Highest(rs) == Highest(front) {
        var r :| r in front && r.seqNo == IntSeq(Highest(front));
        assert r in rs;
      }
    }
  }

  function NextSeq(rs: seq<Record>): nat {
    Highest(rs) + 1
  }

  // ---- Writing ----

  function Stamp(r: Record, n: nat, now: string): Record {
    r.(seqNo := IntSeq(n), ts := if r.ts.Some? then r.ts else Some(now))
  }

  function AppendRecord(enc: Encoder, file: string, r: Record): string {
    file + enc(r) + "\n"
  }

  /** An entry to append, with the time at which it is; `None` is not an object and is skipped. */
  datatype Entry = Entry(event: Option<Record>, now: string)

  function AppendOne(enc: Encoder, dec: Decoder, file: string, e: Record, now: string): string {
    AppendRecord(enc, file, Stamp(e, NextSeq(Read(dec, file)), now))
  }

  /** A batch: the numbers run on from `n` without looking at the file again. */
  function AppendBatch(enc: Encoder, file: string, entries: seq<Entry>, n: nat): string
    decreases |entries|
  {
    if entries == [] then file
    else match entries[0].event
      case None => AppendBatch(enc, file, entries[1..], n)
      case Some(e) => AppendBatch(enc, AppendRecord(enc, file, Stamp(e, n, entries[0].now)), entries[1..], n + 1)
  }

  /** The file, its JSON library, and the operations on it. */
  class Transcript {
    const enc: Encoder
    const dec: Decoder
    var file: string

    constructor (enc: Encoder, dec: Decoder)
      ensures this.enc == enc && this.dec == dec && file == ""
    {
      this.enc, this.dec, file := enc, dec, "";
    }

    method ReadEvents() returns (rs: seq<Record>)
      ensures rs == Read(dec, file)
    {
      rs := [];
      var lines := SplitLines(FileNewlines, file);
      var i := 0;
      while i < |lines|
        invariant 0 <= i <= |lines|
        invariant rs + ParseAll(dec, lines[i..]) == Read(dec, file)
      {
        ParseAt(dec, lines, i, rs);
        hide Trim, ParseAll, Read, SplitLines;
        var line := Trim(Py, lines[i]);
        if line != "" {
          var r := dec(line);
          if r.Some? { rs := rs + [r.value]; }
        }
        i := i + 1;
      }
    }

    method NextTranscriptSeq() returns (n: nat)
      ensures n == NextSeq(Read(dec, file))
    {
      var rs := ReadEvents();
      var highest := -1;
      var i := 0;
      while i < |rs|
        invariant 0 <= i <= |rs|
        invariant highest == Highest(rs[..i])
      {
        assert rs[..i + 1][..i] == rs[..i];
        if rs[i].seqNo.IntSeq? && rs[i].seqNo.n > highest { highest := rs[i].seqNo.n; }
        i := i + 1;
      }
      assert rs[..i] == rs;
      n := highest + 1;
    }

    /** `append_event`: its own scan keeps the next number rather than the highest. */
    method AppendEvent(event: Record, now: string)
      modifies this`file
      ensures file == AppendOne(enc, dec, old(file), event, now)
    {
      var rs := ReadEvents();
      var next: nat := 0;
      var i := 0;
      while i < |rs|
        invariant 0 <= i <= |rs|
        invariant next == NextSeq(rs[..i])
      {
        assert rs[..i + 1][..i] == rs[..i];
        if rs[i].seqNo.IntSeq? && rs[i].seqNo.n >= next { next := rs[i].seqNo.n + 1; }
        i := i + 1;
      }
      assert rs[..i] == rs;
      var out := event;
      if out.ts.None? { out := out.(ts := Some(now)); }
      out := out.(seqNo := IntSeq(next));
      file := file + enc(out) + "\n";
    }

    method AppendEvents(entries: seq<Entry>) returns (written: nat)
      modifies this`file
      ensures file == AppendBatch(enc, old(file), entries, NextSeq(Read(dec, old(file))))
      ensures written == |Objects(entries)|
    {
      var n := NextTranscriptSeq();
      hide Read, NextSeq;
      written := 0;
      var i := 0;
      while i < |entries|
        invariant 0 <= i <= |entries|
        invariant AppendBatch(enc, file, entries[i..], n) ==
                  AppendBatch(enc, old(file), entries, NextSeq(Read(dec, old(file))))
        invariant written + |Objects(entries[i..])| == |Objects(entries)|
      {
        assert entries[i..][1..] == entries[i + 1..];
        var event := entries[i].event;
        if event.Some? {
          var out := event.value;
          if out.ts.None? { out := out.(ts := Some(entries[i].now)); }
          out := out.(seqNo := IntSeq(n));
          assert out == Stamp(event.value, n, entries[i].now);
          file := file + enc(out) + "\n";
          n := n + 1;
          written := written + 1;
        }
        i := i + 1;
      }
    }
  }

  function Objects(entries: seq<Entry>): seq<Entry> {
    if entries == [] then []
    else (if entries[0].event.Some? then [entries[0]] else []) + Objects(entries[1..])
  }

  // ---- One appended line is one event read ----

  predicate WholeLines(file: string) {
    file == "" || file[|file| - 1] == '\n'
  }

  lemma {:induction false} FirstBreakStays(n: Newlines, s: string, t: string)
    requires FirstBreak(n, s) < |s|
    ensures FirstBreak(n, s + t) == FirstBreak(n, s)
  {
    if !LineBreak(n, s[0]) {
      assert (s + t)[1..] == s[1..] + t;
      FirstBreakStays(n, s[1..], t);
    }
  }

  lemma {:induction false} FirstBreakAfter(s: string, t: string)
    requires '\n' !in s && '\r' !in s
    ensures FirstBreak(FileNewlines, s + "\n" + t) == |s|
  {
    if s == "" {
      assert s + "\n" + t == "\n" + t;
    } else {
      assert (s + "\n" + t)[1..] == s[1..] + "\n" + t;
      FirstBreakAfter(s[1..], t);
    }
  }

  /** The rest of a text after its first line. */
  function AfterBreak(s: string, k: nat): (r: string)
    requires k < |s|
    ensures |r| < |s|
  {
    s[if s[k] == '\r' && k + 1 < |s| && s[k + 1] == '\n' then k + 2 else k + 1..]
  }

  lemma AfterBreakStays(file: string, t: string, k: nat)
    requires k < |file| && WholeLines(file)
    ensures |AfterBreak(file, k)| < |file|
    ensures WholeLines(AfterBreak(file, k)) && AfterBreak(file + t, k) == AfterBreak(file, k) + t
  {
  }

  lemma SplitStep(s: string)
    ensures var k := FirstBreak(FileNewlines, s);
            k < |s| ==> SplitLines(FileNewlines, s) == [s[..k]] + SplitLines(FileNewlines, AfterBreak(s, k))
  {
  }

  lemma SplitAppendStep(file: string, t: string, k: nat)
    requires WholeLines(file) && k == FirstBreak(FileNewlines, file) && k < |file|
    requires var rest := AfterBreak(file, k);
             SplitLines(FileNewlines, rest + t) == SplitLines(FileNewlines, rest) + SplitLines(FileNewlines, t)
    ensures SplitLines(FileNewlines, file + t) == SplitLines(FileNewlines, file) + SplitLines(FileNewlines, t)
  {
    hide *;
    FirstBreakStays(FileNewlines, file, t);
    SplitStep(file);
    SplitStep(file + t);
    AfterBreakStays(file, t, k);
    TakeStays(file, t, k);
  }

  /** Text appended after whole lines does not touch them. */
  lemma {:induction false} SplitAppend(file: string, t: string)
    requires WholeLines(file)
    ensures SplitLines(FileNewlines, file + t) == SplitLines(FileNewlines, file) + SplitLines(FileNewlines, t)
    decreases |file|
  {
    if |file| == 0 {
      NothingBefore(file, t);
    } else {
      hide *;
      var k := FirstBreak(FileNewlines, file);
      EndsInLine(file);
      AfterBreakStays(file, t, k);
      SplitAppend(AfterBreak(file, k), t);
      SplitAppendStep(file, t, k);
    }
  }

  lemma NothingBefore(file: string, t: string)
    requires |file| == 0
    ensures SplitLines(FileNewlines, file + t) == SplitLines(FileNewlines, file) + SplitLines(FileNewlines, t)
  {
    assert file + t == t;
    assert SplitLines(FileNewlines, file) == [];
    hide *;
  }

  lemma TakeStays(s: string, t: string, k: nat)
    requires k <= |s|
    ensures (s + t)[..k] == s[..k]
  {
  }

  lemma SplitOne(l: string)
    requires '\n' !in l && '\r' !in l
    ensures SplitLines(FileNewlines, l + "\n") == [l]
  {
    var t := l + "\n";
    FirstBreakAfter(l, "");
    assert t == l + "\n" + "" && t[..|l|] == l;
    SplitStep(t);
    hide FirstBreak;
    assert AfterBreak(t, |l|) == "";
  }

  lemma EndsInLine(file: string)
    requires WholeLines(file) && file != ""
    ensures FirstBreak(FileNewlines, file) < |file|
  {
    assert file[..|file|] == file;
  }

  lemma {:induction false} ParseConcat(dec: Decoder, a: seq<string>, b: seq<string>)
    ensures ParseAll(dec, a + b) == ParseAll(dec, a) + ParseAll(dec, b)
  {
    if a == [] {
      assert a + b == b;
    } else {
      assert (a + b)[1..] == a[1..] + b;
      ParseConcat(dec, a[1..], b);
    }
  }

  lemma TrimNothing(l: string)
    requires OneLine(l)
    ensures Trim(Py, l) == l
  {
    assert !Space(Py, '{') && !Space(Py, '}');
    assert TrimLeft(Py, l) == l;
  }

  lemma ParseSingle(dec: Decoder, l: string)
    ensures ParseAll(dec, [l]) == match Parse(dec, l) case None => [] case Some(r) => [r]
  {
    hide Parse;
    assert [l][1..] == [];
  }

  lemma ParseTrimmed(dec: Decoder, l: string)
    requires Trim(Py, l) == l && |l| > 0
    ensures Parse(dec, l) == dec(l)
  {
    hide Trim;
  }

  /** A line that is blank, or that does not decode to an object, is skipped. */
  lemma JunkIsSkipped(dec: Decoder, file: string, l: string)
    requires WholeLines(file) && '\n' !in l && '\r' !in l
    requires Trim(Py, l) == "" || dec(Trim(Py, l)) == None
    ensures Read(dec, file + (l + "\n")) == Read(dec, file)
  {
    SplitAppend(file, l + "\n");
    SplitOne(l);
    ParseSingle(dec, l);
    hide SplitLines, ParseAll, Trim;
    ParseConcat(dec, SplitLines(FileNewlines, file), [l]);
    assert Read(dec, file) + [] == Read(dec, file);
  }

  lemma ParseOne(dec: Decoder, l: string)
    requires OneLine(l) && dec(l).Some?
    ensures ParseAll(dec, [l]) == [dec(l).value]
  {
    TrimNothing(l);
    ParseTrimmed(dec, l);
    ParseSingle(dec, l);
    hide *;
  }

  /** Reading back after an append yields what was there, then the event: nothing is torn or merged. */
  lemma ReadAppend(enc: Encoder, dec: Decoder, file: string, r: Record)
    requires Codec(enc, dec) && WholeLines(file)
    ensures Read(dec, AppendRecord(enc, file, r)) == Read(dec, file) + [r]
    ensures WholeLines(AppendRecord(enc, file, r))
  {
    var l := enc(r);
    assert OneLine(l) && dec(l) == Some(r);
    hide Codec;
    ParseOne(dec, l);
    assert AppendRecord(enc, file, r) == file + (l + "\n");
    SplitAppend(file, l + "\n");
    SplitOne(l);
    hide SplitLines, ParseAll, OneLine;
    ParseConcat(dec, SplitLines(FileNewlines, file), [l]);
  }

  // ---- Any mix of appends ----

  /** Appending the entries one by one, each looking at the file afresh. */
  function AppendAll(enc: Encoder, dec: Decoder, file: string, entries: seq<Entry>): string
    decreases |entries|
  {
    if entries == [] then file
    else match entries[0].event
      case None => AppendAll(enc, dec, file, entries[1..])
      case Some(e) => AppendAll(enc, dec, AppendOne(enc, dec, file, e, entries[0].now), entries[1..])
  }

  lemma NextAfter(rs: seq<Record>, r: Record, n: nat, now: string)
    requires n == NextSeq(rs)
    ensures NextSeq(rs + [Stamp(r, n, now)]) == n + 1
  {
    assert (rs + [Stamp(r, n, now)])[..|rs|] == rs;
  }

  /** A batch leaves the file that one-by-one appends would have left. */
  lemma {:induction false} BatchIsSingles(enc: Encoder, dec: Decoder, file: string, entries: seq<Entry>)
    requires Codec(enc, dec) && WholeLines(file)
    ensures AppendBatch(enc, file, entries, NextSeq(Read(dec, file))) == AppendAll(enc, dec, file, entries)
    decreases |entries|
  {
    hide Codec, Read, NextSeq, Stamp, WholeLines, AppendRecord;
    if entries != [] {
      var n := NextSeq(Read(dec, file));
      match entries[0].event
      case None => BatchIsSingles(enc, dec, file, entries[1..]);
      case Some(e) =>
        var r := Stamp(e, n, entries[0].now);
        ReadAppend(enc, dec, file, r);
        NextAfter(Read(dec, file), e, n, entries[0].now);
        BatchIsSingles(enc, dec, AppendRecord(enc, file, r), entries[1..]);
    }
  }

  /** The events as they should read: stamped with consecutive numbers from `n`. */
  function Stamped(entries: seq<Entry>, n: nat): seq<Record>
    decreases |entries|
  {
    if entries == [] then []
    else match entries[0].event
      case None => Stamped(entries[1..], n)
      case Some(e) => [Stamp(e, n, entries[0].now)] + Stamped(entries[1..], n + 1)
  }

  lemma {:induction false} AppendAllReads(enc: Encoder, dec: Decoder, file: string, entries: seq<Entry>)
    requires Codec(enc, dec) && WholeLines(file)
    ensures Read(dec, AppendAll(enc, dec, file, entries)) == Read(dec, file) + Stamped(entries, NextSeq(Read(dec, file)))
    ensures WholeLines(AppendAll(enc, dec, file, entries))
    decreases |entries|
  {
    hide Codec, Read, NextSeq, Stamp, WholeLines, AppendRecord;
    if entries != [] {
      var n := NextSeq(Read(dec, file));
      match entries[0].event
      case None => AppendAllReads(enc, dec, file, entries[1..]);
      case Some(e) =>
        var r := Stamp(e, n, entries[0].now);
        ReadAppend(enc, dec, file, r);
        NextAfter(Read(dec, file), e, n, entries[0].now);
        AppendAllReads(enc, dec, AppendRecord(enc, file, r), entries[1..]);
    }
  }

  lemma {:induction false} StampedNumbers(entries: seq<Entry>, n: nat)
    ensures var out, objects := Stamped(entries, n), Objects(entries);
            && |out| == |objects|
            && forall k | 0 <= k < |out| :: objects[k].event.Some? && out[k] == Stamp(objects[k].event.value, n + k, objects[k].now)
    decreases |entries|
  {
    hide Stamp;
    if entries != [] {
      if entries[0].event.Some? {
        StampedNumbers(entries[1..], n + 1);
        assert Objects(entries) == [entries[0]] + Objects(entries[1..]);
      } else {
        StampedNumbers(entries[1..], n);
      }
    }
  }

  /** One call by a writer of the file. */
  datatype Call = Single(event: Record, now: string) | Batch(entries: seq<Entry>)

  function Perform(enc: Encoder, dec: Decoder, file: string, calls: seq<Call>): string
    decreases |calls|
  {
    if calls == [] then file
    else
      var next := match calls[0]
        case Single(e, now) => AppendOne(enc, dec, file, e, now)
        case Batch(entries) => AppendBatch(enc, file, entries, NextSeq(Read(dec, file)));
      Perform(enc, dec, next, calls[1..])
  }

  function EntriesOf(calls: seq<Call>): seq<Entry> {
    if calls == [] then []
    else (match calls[0] case Single(e, now) => [Entry(Some(e), now)] case Batch(entries) => entries) + EntriesOf(calls[1..])
  }

  lemma {:induction false} AppendAllConcat(enc: Encoder, dec: Decoder, file: string, a: seq<Entry>, b: seq<Entry>)
    ensures AppendAll(enc, dec, file, a + b) == AppendAll(enc, dec, AppendAll(enc, dec, file, a), b)
    decreases |a|
  {
    if a == [] {
      assert a + b == b;
    } else {
      assert (a + b)[1..] == a[1..] + b;
      match a[0].event
      case None => AppendAllConcat(enc, dec, file, a[1..], b);
      case Some(e) => AppendAllConcat(enc, dec, AppendOne(enc, dec, file, e, a[0].now), a[1..], b);
    }
  }

  lemma {:induction false} CallsAreSingles(enc: Encoder, dec: Decoder, file: string, calls: seq<Call>)
    requires Codec(enc, dec) && WholeLines(file)
    ensures Perform(enc, dec, file, calls) == AppendAll(enc, dec, file, EntriesOf(calls))
    decreases |calls|
  {
    if calls != [] {
      var head := match calls[0] case Single(e, now) => [Entry(Some(e), now)] case Batch(entries) => entries;
      AppendAllConcat(enc, dec, file, head, EntriesOf(calls[1..]));
      if calls[0].Batch? {
        BatchIsSingles(enc, dec, file, head);
      } else {
        assert head[1..] == [];
      }
      AppendAllReads(enc, dec, file, head);
      CallsAreSingles(enc, dec, AppendAll(enc, dec, file, head), calls[1..]);
    }
  }

  /**
   After any mix of single and batch appends to a file of whole lines, reading it back gives
   the events that were there and then every object appended, in order, numbered without gaps
   from above every number the file had.
   */
  lemma OneSequenceSpace(enc: Encoder, dec: Decoder, file: string, calls: seq<Call>)
    requires Codec(enc, dec) && WholeLines(file)
    ensures var before, after := Read(dec, file), Read(dec, Perform(enc, dec, file, calls));
            var objects := Objects(EntriesOf(calls));
            var base := NextSeq(before);
            && |after| == |before| + |objects| && after[..|before|] == before
            && (forall k | 0 <= k < |objects| ::
                  && objects[k].event.Some?
                  && var given, written := objects[k].event.value, after[|before| + k];
                     && written.payload == given.payload && written.seqNo == IntSeq(base + k)
                     && written.ts == if given.ts.Some? then given.ts else Some(objects[k].now))
            && (forall r | r in before && r.seqNo.IntSeq? :: r.seqNo.n < base)
  {
    StampsAre(EntriesOf(calls), NextSeq(Read(dec, file)));
    hide *;
    CallsAreSingles(enc, dec, file, calls);
    AppendAllReads(enc, dec, file, EntriesOf(calls));
    StampedNumbers(EntriesOf(calls), NextSeq(Read(dec, file)));
    NextIsAbove(Read(dec, file));
  }

  /** A stamp sets the number, gives a time where there is none, and changes nothing else. */
  lemma StampsAre(entries: seq<Entry>, n: nat)
    ensures forall k | 0 <= k < |Objects(entries)| && Objects(entries)[k].event.Some? ::
              var given, now := Objects(entries)[k].event.value, Objects(entries)[k].now;
              var written := Stamp(given, n + k, now);
              && written.payload == given.payload && written.seqNo == IntSeq(n + k)
              && written.ts == if given.ts.Some? then given.ts else Some(now)
  {
  }

  lemma NextIsAbove(rs: seq<Record>)
    ensures forall r | r in rs && r.seqNo.IntSeq? :: r.seqNo.n < NextSeq(rs)
  {
    HighestIs(rs);
  }
}
