/** The full-text index of tickets: kept by triggers, rebuilt after a table rewrite. */
module TicketIndex {
  datatype Ticket = Ticket(id: string, title: string, prompt: string)

  /** A row of the index: it copies the ticket and carries the table's row id. */
  datatype Row = Row(rowid: int, title: string, prompt: string, id: string)

  function RowOf(rowid: int, t: Ticket): Row {
    Row(rowid, t.title, t.prompt, t.id)
  }

  /** The rows of a table, by row id. */
  type Table = map<int, Ticket>

  /** The index rows that carry this row id. */
  function Having(fts: seq<Row>, rowid: int): seq<Row> {
    if fts == [] then []
    else (if fts[0].rowid == rowid then [fts[0]] else []) + Having(fts[1..], rowid)
  }

  /** Exactly one index row per ticket, with that ticket's row id, title, prompt and id, and no other. */
  ghost predicate InStep(table: Table, fts: seq<Row>) {
    forall rowid :: Having(fts, rowid) == if rowid in table then [RowOf(rowid, table[rowid])] else []
  }

  /** In step, each ticket has one index row, with its own id, title and prompt, and no row is without a ticket. */
  lemma InStepMeans(table: Table, fts: seq<Row>, rowid: int)
    requires InStep(table, fts)
    ensures rowid in table ==>
              && |Having(fts, rowid)| == 1 && Having(fts, rowid)[0].rowid == rowid
              && Having(fts, rowid)[0].id == table[rowid].id
              && Having(fts, rowid)[0].title == table[rowid].title
              && Having(fts, rowid)[0].prompt == table[rowid].prompt
    ensures rowid !in table ==> forall k | 0 <= k < |fts| :: fts[k].rowid != rowid
  {
    if rowid !in table { NoneHaving(fts, rowid); }
  }

  lemma {:induction false} NoneHaving(fts: seq<Row>, rowid: int)
    requires Having(fts, rowid) == []
    ensures forall k | 0 <= k < |fts| :: fts[k].rowid != rowid
  {
    if fts != [] {
      NoneHaving(fts[1..], rowid);
      assert forall k | 0 < k < |fts| :: fts[k] == fts[1..][k - 1];
    }
  }

  /** `DELETE FROM tickets_fts WHERE rowid = ?`. */
  function DeleteRowid(fts: seq<Row>, rowid: int): seq<Row> {
    if fts == [] then []
    else (if fts[0].rowid == rowid then [] else [fts[0]]) + DeleteRowid(fts[1..], rowid)
  }

  lemma {:induction false} HavingSnoc(fts: seq<Row>, row: Row, rowid: int)
    ensures Having(fts + [row], rowid) == Having(fts, rowid) + if row.rowid == rowid then [row] else []
  {
    var last := if row.rowid == rowid then [row] else [];
    if fts == [] {
      assert fts + [row] == [row] && [row][1..] == [];
      assert Having([row], rowid) == last + [] == last;
    } else {
      var first := if fts[0].rowid == rowid then [fts[0]] else [];
      assert (fts + [row])[1..] == fts[1..] + [row];
      HavingSnoc(fts[1..], row, rowid);
      assert first + (Having(fts[1..], rowid) + last) == first + Having(fts[1..], rowid) + last;
    }
  }

  lemma {:induction false} HavingDeleted(fts: seq<Row>, gone: int, rowid: int)
    ensures Having(DeleteRowid(fts, gone), rowid) == if rowid == gone then [] else Having(fts, rowid)
  {
    if fts != [] {
      HavingDeleted(fts[1..], gone, rowid);
      var rest := DeleteRowid(fts[1..], gone);
      assert ([fts[0]] + rest)[1..] == rest && [] + rest == rest;
    }
  }

  /** The insert trigger keeps the index in step. */
  lemma InsertKeeps(table: Table, fts: seq<Row>, rowid: int, t: Ticket)
    requires InStep(table, fts) && rowid !in table
    ensures InStep(table[rowid := t], fts + [RowOf(rowid, t)])
  {
    forall r ensures Having(fts + [RowOf(rowid, t)], r) == if r in table[rowid := t] then [RowOf(r, table[rowid := t][r])] else [] {
      HavingSnoc(fts, RowOf(rowid, t), r);
    }
  }

  /** So does the delete trigger. */
  lemma DeleteKeeps(table: Table, fts: seq<Row>, rowid: int)
    requires InStep(table, fts)
    ensures InStep(table - {rowid}, DeleteRowid(fts, rowid))
  {
    forall r ensures Having(DeleteRowid(fts, rowid), r) == if r in table - {rowid} then [RowOf(r, (table - {rowid})[r])] else [] {
      HavingDeleted(fts, rowid, r);
    }
  }

  /** The part of a table a scan has visited. */
  function Visited(table: Table, scan: seq<int>): Table {
    map r | r in table && r in scan :: table[r]
  }

  lemma VisitOne(table: Table, scan: seq<int>, rowid: int)
    requires rowid in table && rowid !in scan
    ensures rowid !in Visited(table, scan)
    ensures Visited(table, scan + [rowid]) == Visited(table, scan)[rowid := table[rowid]]
  {
  }

  lemma NothingVisited(table: Table, scan: seq<int>)
    ensures InStep(Visited(table, scan[..0]), [])
  {
  }

  /** The select reaches the next row, and the insert copies it. */
  lemma VisitNext(table: Table, scan: seq<int>, i: nat, fts: seq<Row>)
    requires i < |scan| && scan[i] in table && forall j, k | 0 <= j < k < |scan| :: scan[j] != scan[k]
    requires InStep(Visited(table, scan[..i]), fts)
    ensures InStep(Visited(table, scan[..i + 1]), fts + [RowOf(scan[i], table[scan[i]])])
  {
    assert scan[i] !in scan[..i];
    assert scan[..i + 1] == scan[..i] + [scan[i]];
    VisitOne(table, scan[..i], scan[i]);
    hide InStep, Visited;
    InsertKeeps(Visited(table, scan[..i]), fts, scan[i], table[scan[i]]);
  }

  lemma VisitAll(table: Table, scan: seq<int>)
    requires forall r :: r in table ==> r in scan
    ensures Visited(table, scan) == table
  {
    assert forall r :: r in table ==> r in Visited(table, scan);
    assert Visited(table, scan).Keys == table.Keys;
  }

  class Database {
    var tickets: Table
    var fts: seq<Row>
    var triggers: bool

    /** While the triggers stand, the index is in step with the table. */
    ghost predicate Valid()
      reads this
    {
      triggers ==> InStep(tickets, fts)
    }

    constructor ()
      ensures Valid() && tickets == map[] && triggers
    {
      tickets, fts, triggers := map[], [], true;
    }

    method Insert(rowid: int, t: Ticket)
      requires Valid() && rowid !in tickets
      modifies this`tickets, this`fts
      ensures Valid() && tickets == old(tickets)[rowid := t]
      ensures !triggers ==> fts == old(fts)
    {
      if triggers { InsertKeeps(tickets, fts, rowid, t); }
      tickets := tickets[rowid := t];
      if triggers {
        fts := fts + [RowOf(rowid, t)];
      }
    }

    method Delete(rowid: int)
      requires Valid() && rowid in tickets
      modifies this`tickets, this`fts
      ensures Valid() && tickets == old(tickets) - {rowid}
      ensures !triggers ==> fts == old(fts)
    {
      if triggers { DeleteKeeps(tickets, fts, rowid); }
      tickets := tickets - {rowid};
      if triggers {
        fts := DeleteRowid(fts, rowid);
      }
    }

    /** An update may move a ticket to another row id: the trigger drops the old row and adds the new. */
    method Update(rowid: int, newRowid: int, t: Ticket)
      requires Valid() && rowid in tickets && (newRowid == rowid || newRowid !in tickets)
      modifies this`tickets, this`fts
      ensures Valid() && tickets == (old(tickets) - {rowid})[newRowid := t]
      ensures !triggers ==> fts == old(fts)
    {
      if triggers {
        DeleteKeeps(tickets, fts, rowid);
        InsertKeeps(tickets - {rowid}, DeleteRowid(fts, rowid), newRowid, t);
      }
      tickets := (tickets - {rowid})[newRowid := t];
      if triggers {
        fts := DeleteRowid(fts, rowid);
        fts := fts + [RowOf(newRowid, t)];
      }
    }

    /** A batch alteration: a new table, perhaps with other row ids, and no triggers. */
    method RewriteTable(table: Table)
      modifies this`tickets, this`triggers
      ensures Valid() && tickets == table && !triggers
    {
      tickets := table;
      triggers := false;
    }

    /**
     `_recreate_ticket_fts`: whatever the index held, it is in step again, and the triggers
     stand.  `scan` is the order in which the select visits the table.
     */
    method RecreateIndex(scan: seq<int>)
      requires (forall j, k | 0 <= j < k < |scan| :: scan[j] != scan[k]) && forall r :: r in scan <==> r in tickets
      modifies this`fts, this`triggers
      ensures Valid() && triggers
    {
      triggers := false;
      fts := [];
      NothingVisited(tickets, scan);
      hide InStep, Visited;
      var i := 0;
      while i < |scan|
        invariant 0 <= i <= |scan|
        invariant InStep(Visited(tickets, scan[..i]), fts)
      {
        var rowid := scan[i];
        assert rowid in scan;
        VisitNext(tickets, scan, i, fts);
        fts := fts + [RowOf(rowid, tickets[rowid])];
        i := i + 1;
      }
      assert scan[..i] == scan;
      VisitAll(tickets, scan);
      triggers := true;
    }
  }
}
