/** The batch importer: buffering, batch upserts with a row-by-row fallback, and its counters. */
module Import {
  import opened Text

  datatype Tally<Table> = Tally(table: Table, migrated: nat, errored: nat)

  /** An upsert in its own savepoint: None is an error, after which the table is as before. */
  type Upsert<!Table, !Row> = (Table, seq<Row>) -> Option<Table>

  function AddRow<Table, Row>(upsert: Upsert<Table, Row>, t: Tally<Table>, row: Row): Tally<Table> {
    match upsert(t.table, [row])
    case Some(table) => Tally(table, t.migrated + 1, t.errored)
    case None => t.(errored := t.errored + 1)
  }

  function AddRows<Table, Row>(upsert: Upsert<Table, Row>, t: Tally<Table>, rows: seq<Row>): Tally<Table> {
    if rows == [] then t else AddRow(upsert, AddRows(upsert, t, rows[..|rows| - 1]), rows[|rows| - 1])
  }

  /** The simple form: every document on its own, the failing ones skipped. */
  function OneByOne<Doc, Table, Row>(
    transform: Doc -> Option<Row>, upsert: Upsert<Table, Row>, t: Tally<Table>, docs: seq<Doc>): Tally<Table>
  {
    if docs == [] then t
    else AddDocument(upsert, OneByOne(transform, upsert, t, docs[..|docs| - 1]), transform(docs[|docs| - 1]))
  }

  function AddDocument<Table, Row>(upsert: Upsert<Table, Row>, t: Tally<Table>, row: Option<Row>): Tally<Table> {
    if row.Some? then AddRow(upsert, t, row.value) else t.(errored := t.errored + 1)
  }

  /** A batch upsert that succeeds does what its rows do one after the other; it may fail for any reason. */
  ghost predicate BatchActsLikeRows<Table(!new), Row(!new)>(upsert: Upsert<Table, Row>) {
    forall table, rows {:trigger upsert(table, rows)} :: upsert(table, rows).Some? ==>
      AddRows(upsert, Tally(table, 0, 0), rows) == Tally(upsert(table, rows).value, |rows|, 0)
  }

  /** A dry run accepts every row and writes nothing. */
  function Effective<Table, Row>(upsert: Upsert<Table, Row>, dryRun: bool): Upsert<Table, Row> {
    if dryRun then (table: Table, rows: seq<Row>) => Some(table) else upsert
  }

  // ---------------------------------------------------------------- what counts as an error

  /** Whether a document cannot be transformed, or the database refuses its row on the table it finds. */
  predicate Lost<Doc, Table, Row>(transform: Doc -> Option<Row>, upsert: Upsert<Table, Row>, table: Table, doc: Doc) {
    transform(doc).None? || upsert(table, [transform(doc).value]).None?
  }

  /** The table after the documents, each on its own: the lost ones leave it as it is. */
  function TableAfter<Doc, Table, Row>(
    transform: Doc -> Option<Row>, upsert: Upsert<Table, Row>, table: Table, docs: seq<Doc>): Table
  {
    if docs == [] then table
    else
      var before, doc := TableAfter(transform, upsert, table, docs[..|docs| - 1]), docs[|docs| - 1];
      if Lost(transform, upsert, before, doc) then before else upsert(before, [transform(doc).value]).value
  }

  /** How many of the documents are lost, each on the table the ones before it left. */
  function LostCount<Doc, Table, Row>(
    transform: Doc -> Option<Row>, upsert: Upsert<Table, Row>, table: Table, docs: seq<Doc>): nat
  {
    if docs == [] then 0
    else
      var before := docs[..|docs| - 1];
      LostCount(transform, upsert, table, before)
      + if Lost(transform, upsert, TableAfter(transform, upsert, table, before), docs[|docs| - 1]) then 1 else 0
  }

  /** The simple form counts a document as errored exactly if it is lost, and as migrated otherwise. */
  lemma {:induction false} LostAreErrors<Doc, Table, Row>(
    transform: Doc -> Option<Row>, upsert: Upsert<Table, Row>, t: Tally<Table>, docs: seq<Doc>)
    ensures var lost := LostCount(transform, upsert, t.table, docs);
      && lost <= |docs|
      && OneByOne(transform, upsert, t, docs)
        == Tally(TableAfter(transform, upsert, t.table, docs), t.migrated + |docs| - lost, t.errored + lost)
  {
    if docs != [] {
      LostAreErrors(transform, upsert, t, docs[..|docs| - 1]);
    }
  }

  lemma {:induction false} RowsAreDocuments<Table, Row>(upsert: Upsert<Table, Row>, t: Tally<Table>, rows: seq<Row>)
    ensures AddRows(upsert, t, rows) == OneByOne(row => Some(row), upsert, t, rows)
  {
    if rows != [] {
      RowsAreDocuments(upsert, t, rows[..|rows| - 1]);
    }
  }

  lemma NotDry<Table, Row>(upsert: Upsert<Table, Row>)
    ensures Effective(upsert, false) == upsert
  {
  }

  lemma {:induction false} DryLoss<Doc, Table, Row>(
    transform: Doc -> Option<Row>, upsert: Upsert<Table, Row>, table: Table, docs: seq<Doc>)
    ensures LostCount(transform, Effective(upsert, true), table, docs) == |Filter(d => transform(d).None?, docs)|
    ensures TableAfter(transform, Effective(upsert, true), table, docs) == table
  {
    if docs != [] {
      var front, last := docs[..|docs| - 1], docs[|docs| - 1];
      DryLoss(transform, upsert, table, front);
      FilterSnoc(d => transform(d).None?, front, last);
      assert docs == front + [last];
    }
  }

  class Importer<Doc, Row(!new), Table(!new)> {
    const transform: Doc -> Option<Row>
    const upsert: Upsert<Table, Row>
    var table: Table
    var migrated: nat
    var errored: nat

    constructor (transform: Doc -> Option<Row>, upsert: Upsert<Table, Row>, table: Table)
      ensures this.transform == transform && this.upsert == upsert && View() == Tally(table, 0, 0)
    {
      this.transform, this.upsert, this.table := transform, upsert, table;
      migrated, errored := 0, 0;
    }

    function View(): Tally<Table>
      reads this
    {
      Tally(table, migrated, errored)
    }

    method FlushBatch(batch: seq<Row>, dryRun: bool) returns (ok: nat, bad: nat)
      requires BatchActsLikeRows(upsert)
      modifies this`table
      ensures Tally(table, ok, bad) == AddRows(Effective(upsert, dryRun), Tally(old(table), 0, 0), batch)
      ensures ok + bad == |batch|
      ensures dryRun ==> table == old(table) && bad == 0
      ensures !dryRun ==> table == TableAfter(row => Some(row), upsert, old(table), batch)
      ensures !dryRun ==> bad == LostCount(row => Some(row), upsert, old(table), batch)
    {
      ok, bad := 0, 0;
      RowsAreDocuments(upsert, Tally(table, 0, 0), batch);
      LostAreErrors(row => Some(row), upsert, Tally(table, 0, 0), batch);
      if batch == [] {
        return;
      }
      if dryRun {
        DryRows(upsert, Tally(table, 0, 0), batch);
        return |batch|, 0;
      }
      var all := upsert(table, batch);
      if all.Some? {
        table := all.value;
        return |batch|, 0;
      }
      for i := 0 to |batch|
        invariant Tally(table, ok, bad) == AddRows(upsert, Tally(old(table), 0, 0), batch[..i])
      {
        assert batch[..i + 1][..i] == batch[..i];
        var one := upsert(table, [batch[i]]);
        if one.Some? {
          table := one.value;
          ok := ok + 1;
        } else {
          bad := bad + 1;
        }
      }
      assert batch[..|batch|] == batch;
    }

    /** For any batch size, even below one, the table and the counters are those of the simple form. */
    method MigrateCollection(docs: seq<Doc>, batchSize: int, dryRun: bool)
      requires BatchActsLikeRows(upsert)
      modifies this
      ensures View() == OneByOne(transform, Effective(upsert, dryRun), old(View()), docs)
      ensures migrated + errored == old(migrated) + old(errored) + |docs|
      ensures dryRun ==> table == old(table) && errored == old(errored) + |Filter(d => transform(d).None?, docs)|
      ensures !dryRun ==> table == TableAfter(transform, upsert, old(table), docs)
      ensures !dryRun ==> errored == old(errored) + LostCount(transform, upsert, old(table), docs)
    {
      hide Effective, BatchActsLikeRows, AddRows, AddRow, OneByOne;
      ghost var put := Effective(upsert, dryRun);
      var buffer: seq<Row> := [];
      NothingRead(transform, put, View(), docs);
      for i := 0 to |docs|
        invariant AddRows(put, View(), buffer) == OneByOne(transform, put, old(View()), docs[..i])
      {
        NextDocument(transform, put, old(View()), docs, i);
        match transform(docs[i]) {
          case Some(row) =>
            NextRow(put, View(), buffer, row);
            buffer := buffer + [row];
            if |buffer| >= batchSize {
              Shift(put, Tally(table, 0, 0), migrated, errored, buffer);
              var ok, bad := FlushBatch(buffer, dryRun);
              migrated, errored := migrated + ok, errored + bad;
              buffer := [];
              NothingRead(transform, put, View(), docs);
            }
          case None =>
            Shift(put, View(), 0, 1, buffer);
            errored := errored + 1;
        }
      }
      assert docs[..|docs|] == docs;
      if buffer != [] {
        Shift(put, Tally(table, 0, 0), migrated, errored, buffer);
        var ok, bad := FlushBatch(buffer, dryRun);
        migrated, errored := migrated + ok, errored + bad;
      } else {
        NothingRead(transform, put, View(), docs);
      }
      LostAreErrors(transform, put, old(View()), docs);
      DryLoss(transform, upsert, old(table), docs);
      NotDry(upsert);
    }
  }

  lemma NothingRead<Doc, Table, Row>(
    transform: Doc -> Option<Row>, upsert: Upsert<Table, Row>, t: Tally<Table>, docs: seq<Doc>)
    ensures AddRows(upsert, t, []) == t && OneByOne(transform, upsert, t, docs[..0]) == t
  {
  }

  lemma NextRow<Table, Row>(upsert: Upsert<Table, Row>, t: Tally<Table>, rows: seq<Row>, row: Row)
    ensures AddRows(upsert, t, rows + [row]) == AddRow(upsert, AddRows(upsert, t, rows), row)
  {
    assert (rows + [row])[..|rows|] == rows;
  }

  lemma NextDocument<Doc, Table, Row>(
    transform: Doc -> Option<Row>, upsert: Upsert<Table, Row>, t: Tally<Table>, docs: seq<Doc>, i: nat)
    requires i < |docs|
    ensures OneByOne(transform, upsert, t, docs[..i + 1])
      == AddDocument(upsert, OneByOne(transform, upsert, t, docs[..i]), transform(docs[i]))
  {
    assert docs[..i + 1][..i] == docs[..i];
  }

  /** Counters add up whatever they start from. */
  lemma {:induction false} Shift<Table, Row>(
    upsert: Upsert<Table, Row>, t: Tally<Table>, ok: nat, bad: nat, rows: seq<Row>)
    ensures var r := AddRows(upsert, t, rows);
      AddRows(upsert, Tally(t.table, t.migrated + ok, t.errored + bad), rows)
        == Tally(r.table, r.migrated + ok, r.errored + bad)
  {
    if rows != [] {
      Shift(upsert, t, ok, bad, rows[..|rows| - 1]);
    }
  }

  lemma {:induction false} DryRows<Table, Row>(upsert: Upsert<Table, Row>, t: Tally<Table>, rows: seq<Row>)
    ensures AddRows(Effective(upsert, true), t, rows) == t.(migrated := t.migrated + |rows|)
  {
    if rows != [] {
      DryRows(upsert, t, rows[..|rows| - 1]);
    }
  }

  lemma {:induction false} DryTable<Doc, Table, Row>(
    transform: Doc -> Option<Row>, upsert: Upsert<Table, Row>, t: Tally<Table>, docs: seq<Doc>)
    ensures OneByOne(transform, Effective(upsert, true), t, docs).table == t.table
  {
    if docs != [] {
      DryTable(transform, upsert, t, docs[..|docs| - 1]);
    }
  }

  /** A dry run counts as migrated the documents that can be transformed, and no others. */
  lemma {:induction false} DryRunCounts<Doc, Table, Row>(
    transform: Doc -> Option<Row>, upsert: Upsert<Table, Row>, table: Table, docs: seq<Doc>)
    ensures OneByOne(transform, Effective(upsert, true), Tally(table, 0, 0), docs).migrated
      == |Filter(d => transform(d).Some?, docs)|
  {
    if docs != [] {
      var front, last := docs[..|docs| - 1], docs[|docs| - 1];
      DryRunCounts(transform, upsert, table, front);
      DryTable(transform, upsert, Tally(table, 0, 0), front);
      FilterSnoc(d => transform(d).Some?, front, last);
      assert docs == front + [last];
    }
  }
}
