/** The rows of a rendered diff, from the edit script of a sequence matcher. */
module DiffRows {
  datatype Tag = Equal | Delete | Insert | Replace

  datatype Opcode = Opcode(tag: Tag, i1: nat, i2: nat, j1: nat, j2: nat)

  datatype Kind = Ctx | Del | Ins

  datatype Row = Row(kind: Kind, lineNo: nat, text: string)

  /** What the matcher documents: the opcodes run from the start to the end of both sides, without gaps. */
  predicate Script(ops: seq<Opcode>, i: nat, j: nat, before: seq<string>, after: seq<string>)
    decreases |ops|
  {
    if ops == [] then i == |before| && j == |after|
    else
      var op := ops[0];
      && op.i1 == i <= op.i2 <= |before| && op.j1 == j <= op.j2 <= |after|
      && (op.tag.Equal? ==> before[op.i1..op.i2] == after[op.j1..op.j2])
      && (op.tag.Delete? ==> op.j1 == op.j2)
      && (op.tag.Insert? ==> op.i1 == op.i2)
      && Script(ops[1..], op.i2, op.j2, before, after)
  }

  /** Rows of one kind for `lines[lo..hi]`, numbered from one. */
  function Block(kind: Kind, lines: seq<string>, lo: nat, hi: nat): (rows: seq<Row>)
    requires lo <= hi <= |lines|
    ensures |rows| == hi - lo
    ensures forall k | 0 <= k < |rows| :: rows[k] == Row(kind, lo + k + 1, lines[lo + k])
    decreases hi
  {
    if lo == hi then [] else Block(kind, lines, lo, hi - 1) + [Row(kind, hi, lines[hi - 1])]
  }

  function OpRows(op: Opcode, before: seq<string>, after: seq<string>): seq<Row>
    requires op.i1 <= op.i2 <= |before| && op.j1 <= op.j2 <= |after|
    requires op.tag.Equal? ==> op.i2 - op.i1 == op.j2 - op.j1
  {
    match op.tag
    case Equal => Block(Ctx, after, op.j1, op.j2)
    case Delete => Block(Del, before, op.i1, op.i2)
    case Insert => Block(Ins, after, op.j1, op.j2)
    case Replace => Block(Del, before, op.i1, op.i2) + Block(Ins, after, op.j1, op.j2)
  }

  function RowsOf(ops: seq<Opcode>, i: nat, j: nat, before: seq<string>, after: seq<string>): seq<Row>
    requires Script(ops, i, j, before, after)
    decreases |ops|
  {
    if ops == [] then []
    else
      assert ops[0].tag.Equal? ==> |before[ops[0].i1..ops[0].i2]| == |after[ops[0].j1..ops[0].j2]|;
      OpRows(ops[0], before, after) + RowsOf(ops[1..], ops[0].i2, ops[0].j2, before, after)
  }

  /** One inner loop: a row for each line of the range. */
  method AppendBlock(rows: seq<Row>, kind: Kind, lines: seq<string>, lo: nat, hi: nat) returns (out: seq<Row>)
    requires lo <= hi <= |lines|
    ensures out == rows + Block(kind, lines, lo, hi)
  {
    out := rows;
    var k := 0;
    while k < hi - lo
      invariant 0 <= k <= hi - lo
      invariant out == rows + Block(kind, lines, lo, lo + k)
    {
      out := out + [Row(kind, lo + k + 1, lines[lo + k])];
      k := k + 1;
    }
  }

  /** One opcode: its deleted rows come before its inserted ones. */
  method AppendOp(rows: seq<Row>, op: Opcode, before: seq<string>, after: seq<string>) returns (out: seq<Row>)
    requires op.i1 <= op.i2 <= |before| && op.j1 <= op.j2 <= |after|
    requires op.tag.Equal? ==> op.i2 - op.i1 == op.j2 - op.j1
    ensures out == rows + OpRows(op, before, after)
  {
    match op.tag {
      case Equal =>
        out := AppendBlock(rows, Ctx, after, op.j1, op.j1 + (op.i2 - op.i1));
      case Delete =>
        out := AppendBlock(rows, Del, before, op.i1, op.i2);
      case Insert =>
        out := AppendBlock(rows, Ins, after, op.j1, op.j2);
      case Replace =>
        out := AppendBlock(rows, Del, before, op.i1, op.i2);
        out := AppendBlock(out, Ins, after, op.j1, op.j2);
    }
  }

  /** The rows of an equal, a deleted and an inserted range, one by one. */
  lemma OneBlockRows(op: Opcode, before: seq<string>, after: seq<string>)
    requires op.i1 <= op.i2 <= |before| && op.j1 <= op.j2 <= |after|
    requires op.tag.Equal? ==> op.i2 - op.i1 == op.j2 - op.j1
    ensures op.tag == Equal || op.tag == Insert ==> |OpRows(op, before, after)| == op.j2 - op.j1
    ensures op.tag == Delete ==> |OpRows(op, before, after)| == op.i2 - op.i1
    ensures op.tag == Equal ==>
              forall k | 0 <= k < op.j2 - op.j1 :: OpRows(op, before, after)[k] == Row(Ctx, op.j1 + k + 1, after[op.j1 + k])
    ensures op.tag == Insert ==>
              forall k | 0 <= k < op.j2 - op.j1 :: OpRows(op, before, after)[k] == Row(Ins, op.j1 + k + 1, after[op.j1 + k])
    ensures op.tag == Delete ==>
              forall k | 0 <= k < op.i2 - op.i1 :: OpRows(op, before, after)[k] == Row(Del, op.i1 + k + 1, before[op.i1 + k])
  {
  }

  /** The rows of a replaced range: all deleted lines before all inserted ones. */
  lemma ReplaceRows(op: Opcode, before: seq<string>, after: seq<string>)
    requires op.tag == Replace && op.i1 <= op.i2 <= |before| && op.j1 <= op.j2 <= |after|
    ensures var rows, gone := OpRows(op, before, after), op.i2 - op.i1;
            && |rows| == gone + (op.j2 - op.j1)
            && (forall k | 0 <= k < gone :: rows[k] == Row(Del, op.i1 + k + 1, before[op.i1 + k]))
            && (forall k | gone <= k < |rows| :: rows[k] == Row(Ins, op.j1 + (k - gone) + 1, after[op.j1 + (k - gone)]))
  {
    BlockIs(Del, before, op.i1, op.i2);
    BlockIs(Ins, after, op.j1, op.j2);
    hide Block;
  }

  lemma BlockIs(kind: Kind, lines: seq<string>, lo: nat, hi: nat)
    requires lo <= hi <= |lines|
    ensures |Block(kind, lines, lo, hi)| == hi - lo
    ensures forall k | 0 <= k < hi - lo :: Block(kind, lines, lo, hi)[k] == Row(kind, lo + k + 1, lines[lo + k])
  {
  }

  /** A text replaced as a whole: its lines deleted, then the new lines inserted. */
  lemma WholeReplaced(before: seq<string>, after: seq<string>, k: nat)
    requires k < |before| + |after|
    ensures var op := Opcode(Replace, 0, |before|, 0, |after|);
            var rows := RowsOf([op], 0, 0, before, after);
            |rows| == |before| + |after| && rows[k] == if k < |before| then Row(Del, k + 1, before[k])
                                                       else Row(Ins, k - |before| + 1, after[k - |before|])
  {
    var op := Opcode(Replace, 0, |before|, 0, |after|);
    assert [op][1..] == [];
    ReplaceRows(op, before, after);
    assert RowsOf([op], 0, 0, before, after) == OpRows(op, before, after) + [];
  }

  method UnifiedDiffRows(before: seq<string>, after: seq<string>, ops: seq<Opcode>) returns (rows: seq<Row>)
    requires Script(ops, 0, 0, before, after)
    ensures rows == RowsOf(ops, 0, 0, before, after)
  {
    hide OpRows;
    rows := [];
    var n := 0;
    ghost var i: nat, j: nat := 0, 0;
    while n < |ops|
      invariant 0 <= n <= |ops|
      invariant Script(ops[n..], i, j, before, after)
      invariant rows + RowsOf(ops[n..], i, j, before, after) == RowsOf(ops, 0, 0, before, after)
    {
      var op := ops[n];
      assert ops[n..][0] == op && ops[n..][1..] == ops[n + 1..];
      assert op.tag.Equal? ==> |before[op.i1..op.i2]| == |after[op.j1..op.j2]|;
      ghost var rest := RowsOf(ops[n + 1..], op.i2, op.j2, before, after);
      assert rows + (OpRows(op, before, after) + rest) == (rows + OpRows(op, before, after)) + rest;
      rows := AppendOp(rows, op, before, after);
      i, j := op.i2, op.j2;
      n := n + 1;
    }
  }

  function CountOf(rows: seq<Row>, kind: Kind): nat {
    if rows == [] then 0 else (if rows[0].kind == kind then 1 else 0) + CountOf(rows[1..], kind)
  }

  lemma {:induction false} CountConcat(a: seq<Row>, b: seq<Row>, kind: Kind)
    ensures CountOf(a + b, kind) == CountOf(a, kind) + CountOf(b, kind)
  {
    if a == [] {
      assert a + b == b;
    } else {
      assert (a + b)[1..] == a[1..] + b;
      CountConcat(a[1..], b, kind);
    }
  }

  lemma {:induction false} CountBlock(kind: Kind, lines: seq<string>, lo: nat, hi: nat, k: Kind)
    requires lo <= hi <= |lines|
    ensures CountOf(Block(kind, lines, lo, hi), k) == if k == kind then hi - lo else 0
    decreases hi
  {
    if lo < hi {
      CountBlock(kind, lines, lo, hi - 1, k);
      CountConcat(Block(kind, lines, lo, hi - 1), [Row(kind, hi, lines[hi - 1])], k);
    }
  }

  lemma CountOp(op: Opcode, before: seq<string>, after: seq<string>)
    requires op.i1 <= op.i2 <= |before| && op.j1 <= op.j2 <= |after|
    requires op.tag.Equal? ==> op.i2 - op.i1 == op.j2 - op.j1
    ensures CountOf(OpRows(op, before, after), Del) == if op.tag.Delete? || op.tag.Replace? then op.i2 - op.i1 else 0
    ensures CountOf(OpRows(op, before, after), Ins) == if op.tag.Insert? || op.tag.Replace? then op.j2 - op.j1 else 0
  {
    CountOfKind(op, before, after, Del);
    CountOfKind(op, before, after, Ins);
  }

  lemma CountOfKind(op: Opcode, before: seq<string>, after: seq<string>, k: Kind)
    requires op.i1 <= op.i2 <= |before| && op.j1 <= op.j2 <= |after|
    requires op.tag.Equal? ==> op.i2 - op.i1 == op.j2 - op.j1
    requires !k.Ctx?
    ensures CountOf(OpRows(op, before, after), k) ==
            (if k.Del? && (op.tag.Delete? || op.tag.Replace?) then op.i2 - op.i1 else 0)
            + (if k.Ins? && (op.tag.Insert? || op.tag.Replace?) then op.j2 - op.j1 else 0)
  {
    CountBlock(Ctx, after, op.j1, op.j2, k);
    CountBlock(Del, before, op.i1, op.i2, k);
    CountBlock(Ins, after, op.j1, op.j2, k);
    CountConcat(Block(Del, before, op.i1, op.i2), Block(Ins, after, op.j1, op.j2), k);
  }

  /** The counts beside a diff are the numbers of its inserted and deleted rows. */
  method DiffCounts(before: seq<string>, after: seq<string>, ops: seq<Opcode>) returns (ins: nat, dels: nat)
    requires Script(ops, 0, 0, before, after)
    ensures ins == CountOf(RowsOf(ops, 0, 0, before, after), Ins)
    ensures dels == CountOf(RowsOf(ops, 0, 0, before, after), Del)
    ensures |before| + ins == |after| + dels
  {
    hide RowsOf, CountOf, Script;
    ins, dels := 0, 0;
    var n := 0;
    ghost var i: nat, j: nat := 0, 0;
    assert ops[0..] == ops;
    while n < |ops|
      invariant 0 <= n <= |ops|
      invariant Script(ops[n..], i, j, before, after)
      invariant i + ins == j + dels
      invariant ins + CountOf(RowsOf(ops[n..], i, j, before, after), Ins) == CountOf(RowsOf(ops, 0, 0, before, after), Ins)
      invariant dels + CountOf(RowsOf(ops[n..], i, j, before, after), Del) == CountOf(RowsOf(ops, 0, 0, before, after), Del)
    {
      var op := ops[n];
      CountStep(ops, n, i, j, before, after);
      match op.tag {
        case Delete => dels := dels + (op.i2 - op.i1);
        case Insert => ins := ins + (op.j2 - op.j1);
        case Replace =>
          dels := dels + (op.i2 - op.i1);
          ins := ins + (op.j2 - op.j1);
        case Equal =>
      }
      i, j := op.i2, op.j2;
      n := n + 1;
    }
    assert ops[n..] == [];
    CountNothing(i, j, before, after);
  }

  lemma CountNothing(i: nat, j: nat, before: seq<string>, after: seq<string>)
    requires Script([], i, j, before, after)
    ensures i == |before| && j == |after|
    ensures CountOf(RowsOf([], i, j, before, after), Ins) == 0 && CountOf(RowsOf([], i, j, before, after), Del) == 0
  {
  }

  lemma CountStep(ops: seq<Opcode>, n: nat, i: nat, j: nat, before: seq<string>, after: seq<string>)
    requires n < |ops| && Script(ops[n..], i, j, before, after)
    ensures var op := ops[n];
            && op.i1 == i <= op.i2 && op.j1 == j <= op.j2
            && (op.tag.Equal? ==> op.i2 - op.i1 == op.j2 - op.j1)
            && (op.tag.Delete? ==> op.j1 == op.j2)
            && (op.tag.Insert? ==> op.i1 == op.i2)
            && Script(ops[n + 1..], op.i2, op.j2, before, after)
            && CountOf(RowsOf(ops[n..], i, j, before, after), Del) ==
                 (if op.tag.Delete? || op.tag.Replace? then op.i2 - op.i1 else 0)
                 + CountOf(RowsOf(ops[n + 1..], op.i2, op.j2, before, after), Del)
            && CountOf(RowsOf(ops[n..], i, j, before, after), Ins) ==
                 (if op.tag.Insert? || op.tag.Replace? then op.j2 - op.j1 else 0)
                 + CountOf(RowsOf(ops[n + 1..], op.i2, op.j2, before, after), Ins)
  {
    var op := ops[n];
    assert ops[n..][0] == op && ops[n..][1..] == ops[n + 1..];
    assert op.tag.Equal? ==> |before[op.i1..op.i2]| == |after[op.j1..op.j2]|;
    CountOp(op, before, after);
    hide CountOf, OpRows;
    CountConcat(OpRows(op, before, after), RowsOf(ops[n + 1..], op.i2, op.j2, before, after), Del);
    CountConcat(OpRows(op, before, after), RowsOf(ops[n + 1..], op.i2, op.j2, before, after), Ins);
  }

  // ---- What the rows spell ----

  /** The rows of one side: context rows belong to both. */
  function Side(rows: seq<Row>, without: Kind): seq<Row> {
    if rows == [] then []
    else (if rows[0].kind == without then [] else [rows[0]]) + Side(rows[1..], without)
  }

  lemma {:induction false} SideConcat(a: seq<Row>, b: seq<Row>, without: Kind)
    ensures Side(a + b, without) == Side(a, without) + Side(b, without)
  {
    if a == [] {
      assert a + b == b;
    } else {
      assert (a + b)[1..] == a[1..] + b;
      SideConcat(a[1..], b, without);
    }
  }

  lemma {:induction false} SideBlock(kind: Kind, lines: seq<string>, lo: nat, hi: nat, without: Kind)
    requires lo <= hi <= |lines|
    ensures Side(Block(kind, lines, lo, hi), without) == if kind == without then [] else Block(kind, lines, lo, hi)
    decreases hi
  {
    if lo < hi {
      SideBlock(kind, lines, lo, hi - 1, without);
      SideConcat(Block(kind, lines, lo, hi - 1), [Row(kind, hi, lines[hi - 1])], without);
    }
  }

  /** The new side: row `k` shows line `j + k` of the new text under its number. */
  ghost predicate SpellsNew(rows: seq<Row>, j: nat, after: seq<string>) {
    j + |rows| == |after| && forall k | 0 <= k < |rows| :: rows[k].lineNo == j + k + 1 && rows[k].text == after[j + k]
  }

  /** The old side: row `k` shows line `i + k` of the old text, under its number if it was deleted. */
  ghost predicate SpellsOld(rows: seq<Row>, i: nat, before: seq<string>) {
    i + |rows| == |before|
    && forall k | 0 <= k < |rows| :: rows[k].text == before[i + k] && (rows[k].kind.Del? ==> rows[k].lineNo == i + k + 1)
  }

  lemma NewThen(kind: Kind, after: seq<string>, j1: nat, j2: nat, rest: seq<Row>)
    requires j1 <= j2 <= |after| && SpellsNew(rest, j2, after)
    ensures SpellsNew(Block(kind, after, j1, j2) + rest, j1, after)
  {
  }

  lemma OldThen(before: seq<string>, i1: nat, i2: nat, rest: seq<Row>)
    requires i1 <= i2 <= |before| && SpellsOld(rest, i2, before)
    ensures SpellsOld(Block(Del, before, i1, i2) + rest, i1, before)
  {
  }

  /** Context rows show the new text, which is the old one. */
  lemma ContextThen(before: seq<string>, after: seq<string>, i1: nat, i2: nat, j1: nat, j2: nat, rest: seq<Row>)
    requires i1 <= i2 <= |before| && j1 <= j2 <= |after| && before[i1..i2] == after[j1..j2]
    requires SpellsOld(rest, i2, before)
    ensures SpellsOld(Block(Ctx, after, j1, j2) + rest, i1, before)
  {
    assert |before[i1..i2]| == |after[j1..j2]|;
    assert forall k | 0 <= k < i2 - i1 :: before[i1 + k] == before[i1..i2][k] == after[j1..j2][k] == after[j1 + k];
  }

  lemma {:induction false} RowsSpell(ops: seq<Opcode>, i: nat, j: nat, before: seq<string>, after: seq<string>)
    requires Script(ops, i, j, before, after)
    ensures SpellsNew(Side(RowsOf(ops, i, j, before, after), Del), j, after)
    ensures SpellsOld(Side(RowsOf(ops, i, j, before, after), Ins), i, before)
    decreases |ops|
  {
    if ops != [] {
      var op := ops[0];
      assert op.tag.Equal? ==> |before[op.i1..op.i2]| == |after[op.j1..op.j2]|;
      RowsSpell(ops[1..], op.i2, op.j2, before, after);
      var rest := RowsOf(ops[1..], op.i2, op.j2, before, after);
      OpSpells(op, before, after, Del);
      OpSpells(op, before, after, Ins);
      SideConcat(OpRows(op, before, after), rest, Del);
      SideConcat(OpRows(op, before, after), rest, Ins);
      hide OpRows, Side, SpellsNew, SpellsOld, Block;
      if op.tag.Equal? {
        NewThen(Ctx, after, op.j1, op.j2, Side(rest, Del));
        ContextThen(before, after, op.i1, op.i2, op.j1, op.j2, Side(rest, Ins));
      } else {
        NewThen(Ins, after, op.j1, op.j2, Side(rest, Del));
        OldThen(before, op.i1, op.i2, Side(rest, Ins));
      }
    }
  }

  lemma OpSpells(op: Opcode, before: seq<string>, after: seq<string>, without: Kind)
    requires op.i1 <= op.i2 <= |before| && op.j1 <= op.j2 <= |after|
    requires op.tag.Equal? ==> op.i2 - op.i1 == op.j2 - op.j1
    requires op.tag.Delete? ==> op.j1 == op.j2
    requires op.tag.Insert? ==> op.i1 == op.i2
    requires !without.Ctx?
    ensures Side(OpRows(op, before, after), without) ==
            if op.tag.Equal? then Block(Ctx, after, op.j1, op.j2)
            else if without.Del? then Block(Ins, after, op.j1, op.j2)
            else Block(Del, before, op.i1, op.i2)
  {
    SideBlock(Ctx, after, op.j1, op.j2, without);
    SideBlock(Del, before, op.i1, op.i2, without);
    SideBlock(Ins, after, op.j1, op.j2, without);
    SideConcat(Block(Del, before, op.i1, op.i2), Block(Ins, after, op.j1, op.j2), without);
  }

  /** Both texts can be read off a rendered diff, line by line and number by number. */
  lemma DiffSpellsBothTexts(before: seq<string>, after: seq<string>, ops: seq<Opcode>)
    requires Script(ops, 0, 0, before, after)
    ensures var rows := RowsOf(ops, 0, 0, before, after);
            && SpellsNew(Side(rows, Del), 0, after)
            && SpellsOld(Side(rows, Ins), 0, before)
  {
    RowsSpell(ops, 0, 0, before, after);
  }
}
