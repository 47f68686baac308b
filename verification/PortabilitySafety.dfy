/** When an import reproduces its bundle, what it leaves alone, and what a failed reconciliation leaves behind. */
module PortabilitySafety {
  import opened Prelude
  import opened Portability

  // ----- sorting and selecting -----

  lemma {:induction false} InsertRowKeeps(less: (JsonRow, JsonRow) -> bool, r: JsonRow, sorted: seq<JsonRow>)
    ensures multiset(InsertRow(less, r, sorted)) == multiset{r} + multiset(sorted)
    decreases |sorted|
  {
    if sorted != [] && less(sorted[0], r) {
      InsertRowKeeps(less, r, sorted[1..]);
      assert sorted == [sorted[0]] + sorted[1..];
    }
  }

  lemma {:induction false} SortKeeps(less: (JsonRow, JsonRow) -> bool, rows: seq<JsonRow>)
    ensures multiset(SortRows(less, rows)) == multiset(rows) && |SortRows(less, rows)| == |rows|
    decreases |rows|
  {
    if rows != [] {
      SortKeeps(less, rows[1..]);
      InsertRowKeeps(less, rows[0], SortRows(less, rows[1..]));
      assert rows == [rows[0]] + rows[1..];
    }
    assert |multiset(SortRows(less, rows))| == |SortRows(less, rows)|;
  }

  predicate InOrder(less: (JsonRow, JsonRow) -> bool, rows: seq<JsonRow>) {
    forall i :: 0 <= i < |rows| - 1 ==> !less(rows[i + 1], rows[i])
  }

  ghost predicate Asymmetric(less: (JsonRow, JsonRow) -> bool) {
    forall a, b :: less(a, b) ==> !less(b, a)
  }

  lemma {:induction false} InsertRowOrders(less: (JsonRow, JsonRow) -> bool, r: JsonRow, sorted: seq<JsonRow>)
    requires Asymmetric(less) && InOrder(less, sorted)
    ensures InOrder(less, InsertRow(less, r, sorted))
    decreases |sorted|
  {
    if sorted != [] && less(sorted[0], r) {
      InsertRowOrders(less, r, sorted[1..]);
    }
  }

  lemma {:induction false} SortOrders(less: (JsonRow, JsonRow) -> bool, rows: seq<JsonRow>)
    requires Asymmetric(less)
    ensures InOrder(less, SortRows(less, rows))
    decreases |rows|
  {
    if rows != [] {
      SortOrders(less, rows[1..]);
      InsertRowOrders(less, rows[0], SortRows(less, rows[1..]));
    }
  }

  lemma {:induction false} SortOfOrdered(less: (JsonRow, JsonRow) -> bool, rows: seq<JsonRow>)
    requires InOrder(less, rows)
    ensures SortRows(less, rows) == rows
    decreases |rows|
  {
    if rows != [] {
      SortOfOrdered(less, rows[1..]);
    }
  }

  lemma {:induction false} AllSelected(def: Definition, b: seq<DbRow>, workspace: string)
    requires forall i :: 0 <= i < |b| ==> Visible(def, b[i], workspace)
    ensures Selected(def, b, workspace) == b
    decreases |b|
  {
    hide Visible;
    if b != [] {
      AllSelected(def, b[1..], workspace);
    }
  }

  lemma {:induction false} SelectedAppends(def: Definition, a: seq<DbRow>, b: seq<DbRow>, workspace: string)
    requires forall i :: 0 <= i < |b| ==> Visible(def, b[i], workspace)
    ensures Selected(def, a + b, workspace) == Selected(def, a, workspace) + b
    decreases |a|
  {
    hide Visible;
    if a == [] {
      assert a + b == b;
      AllSelected(def, b, workspace);
    } else {
      assert (a + b)[1..] == a[1..] + b;
      SelectedAppends(def, a[1..], b, workspace);
    }
  }

  // ----- what an import inserts -----

  /** The stored rows, and after them the decoded rows of the bundle, in its order. */
  predicate Inserted(d: Dialect, def: Definition, before: seq<DbRow>, rows: seq<JsonRow>, after: seq<DbRow>, workspace: string) {
    && (forall i :: 0 <= i < |rows| ==> |rows[i]| == |def.columns|)
    && |after| == |before| + |rows| && after[..|before|] == before
    && forall j :: 0 <= j < |rows| ==>
         DecodeRow(d, def, rows[j], workspace).Ok? && after[|before| + j] == DecodeRow(d, def, rows[j], workspace).value
  }

  /** The decoded rows of a table, as an import stores them. */
  function Decoded(d: Dialect, def: Definition, t: TableData, workspace: string): seq<DbRow>
    requires ValidTable(def, t, workspace) && Decodes(d, def, t, workspace)
  {
    seq(|t.rows|, j requires 0 <= j < |t.rows| => DecodeRow(d, def, t.rows[j], workspace).value)
  }

  predicate Fitting(d: Dialect, def: Definition, rows: seq<DbRow>) {
    forall i :: 0 <= i < |rows| ==> RowFits(d, def, rows[i])
  }

  predicate DistinctKeys(def: Definition, rows: seq<DbRow>) {
    forall i, j :: 0 <= i < j < |rows| ==> !Clash(def, rows[i], rows[j])
  }

  predicate FreeKeys(def: Definition, stored: seq<DbRow>, rows: seq<DbRow>) {
    forall j :: 0 <= j < |rows| ==> !Taken(def, stored, rows[j])
  }

  /** A table's constraints let these rows in, after the stored ones. */
  predicate Admitted(d: Dialect, def: Definition, stored: seq<DbRow>, rows: seq<DbRow>) {
    Fitting(d, def, rows) && DistinctKeys(def, rows) && FreeKeys(def, stored, rows)
  }

  lemma TakenAppends(def: Definition, stored: seq<DbRow>, rows: seq<DbRow>, r: DbRow)
    ensures Taken(def, stored + rows, r) <==> Taken(def, stored, r) || Taken(def, rows, r)
  {
    hide Clash;
    var all := stored + rows;
    if Taken(def, rows, r) {
      var i :| 0 <= i < |rows| && Clash(def, rows[i], r);
      assert all[|stored| + i] == rows[i];
    }
    if Taken(def, stored, r) {
      var i :| 0 <= i < |stored| && Clash(def, stored[i], r);
      assert all[i] == stored[i];
    }
    if Taken(def, all, r) {
      var i :| 0 <= i < |all| && Clash(def, all[i], r);
      if i < |stored| { assert stored[i] == all[i]; } else { assert rows[i - |stored|] == all[i]; }
    }
  }

  lemma AdmittedOneMore(d: Dialect, def: Definition, stored: seq<DbRow>, rows: seq<DbRow>, r: DbRow)
    ensures Admitted(d, def, stored, rows + [r]) <==> Admitted(d, def, stored, rows) && InsertOne(d, def, stored + rows, r).Ok?
  {
    hide Clash, RowFits;
    TakenAppends(def, stored, rows, r);
    var more := rows + [r];
    hide Taken;
    assert more[|rows|] == r && forall i :: 0 <= i < |rows| ==> more[i] == rows[i];
    LastClashes(def, rows, r);
    assert DistinctKeys(def, more) <==> DistinctKeys(def, rows) && !Taken(def, rows, r);
  }

  lemma LastClashes(def: Definition, rows: seq<DbRow>, r: DbRow)
    ensures DistinctKeys(def, rows + [r]) <==> DistinctKeys(def, rows) && !Taken(def, rows, r)
  {
    hide Clash;
    var more := rows + [r];
    assert more[|rows|] == r && forall i :: 0 <= i < |rows| ==> more[i] == rows[i];
    if DistinctKeys(def, more) {
      assert forall i, j :: 0 <= i < j < |rows| ==> more[i] == rows[i] && more[j] == rows[j];
    }
  }

  /** The rows of a prefix as an import stores them, when they all decode. */
  predicate StoresAs(d: Dialect, def: Definition, rows: seq<JsonRow>, decoded: seq<DbRow>, workspace: string) {
    && (forall i :: 0 <= i < |rows| ==> |rows[i]| == |def.columns|) && |decoded| == |rows|
    && forall j :: 0 <= j < |rows| ==> DecodeRow(d, def, rows[j], workspace) == Ok(decoded[j])
  }

  lemma {:induction false} InsertsAdmitted(d: Dialect, def: Definition, stored: seq<DbRow>, rows: seq<JsonRow>, decoded: seq<DbRow>, workspace: string)
    requires StoresAs(d, def, rows, decoded, workspace)
    ensures InsertAll(d, def, stored, rows, workspace).Ok? <==> Admitted(d, def, stored, decoded)
    ensures Admitted(d, def, stored, decoded) ==> InsertAll(d, def, stored, rows, workspace) == Ok(stored + decoded)
    decreases |rows|
  {
    hide DecodeRow, Admitted, InsertOne;
    if rows == [] {
      NothingToAdmit(d, def, stored);
      assert stored + decoded == stored;
    } else {
      var n := |rows| - 1;
      InsertsAdmitted(d, def, stored, rows[..n], decoded[..n], workspace);
      AdmittedOneMore(d, def, stored, decoded[..n], decoded[n]);
      assert decoded[..n] + [decoded[n]] == decoded;
      InsertOneAppends(d, def, stored + decoded[..n], decoded[n]);
      assert (stored + decoded[..n]) + [decoded[n]] == stored + decoded;
    }
  }

  lemma NothingToAdmit(d: Dialect, def: Definition, stored: seq<DbRow>)
    ensures Admitted(d, def, stored, [])
  {
  }

  lemma InsertOneAppends(d: Dialect, def: Definition, stored: seq<DbRow>, r: DbRow)
    ensures InsertOne(d, def, stored, r).Ok? ==> InsertOne(d, def, stored, r) == Ok(stored + [r])
  {
  }

  lemma {:induction false} UndecodableStops(d: Dialect, def: Definition, stored: seq<DbRow>, rows: seq<JsonRow>, j: nat, workspace: string)
    requires (forall i :: 0 <= i < |rows| ==> |rows[i]| == |def.columns|) && j < |rows| && DecodeRow(d, def, rows[j], workspace).Err?
    ensures InsertAll(d, def, stored, rows, workspace).Err?
    decreases |rows|
  {
    hide DecodeRow, InsertOne;
    if j < |rows| - 1 {
      UndecodableStops(d, def, stored, rows[..|rows| - 1], j, workspace);
    }
  }

  predicate Accepts(d: Dialect, def: Definition, stored: seq<DbRow>, t: TableData, workspace: string)
    requires ValidTable(def, t, workspace)
  {
    Decodes(d, def, t, workspace) && Admitted(d, def, stored, Decoded(d, def, t, workspace))
  }

  lemma InsertAllFacts(d: Dialect, def: Definition, stored: seq<DbRow>, t: TableData, workspace: string)
    requires ValidTable(def, t, workspace) && forall i :: 0 <= i < |t.rows| ==> |t.rows[i]| == |def.columns|
    ensures var r := InsertAll(d, def, stored, t.rows, workspace);
      && (r.Ok? <==> Accepts(d, def, stored, t, workspace))
      && (r.Ok? ==> Inserted(d, def, stored, t.rows, r.value, workspace))
  {
    hide DecodeRow, Admitted, InsertAll;
    if Decodes(d, def, t, workspace) {
      var rows := Decoded(d, def, t, workspace);
      assert StoresAs(d, def, t.rows, rows, workspace);
      InsertsAdmitted(d, def, stored, t.rows, rows, workspace);
      assert (stored + rows)[..|stored|] == stored;
    } else {
      var j :| 0 <= j < |t.rows| && DecodeRow(d, def, t.rows[j], workspace).Err?;
      UndecodableStops(d, def, stored, t.rows, j, workspace);
    }
  }

  predicate Decodes(d: Dialect, def: Definition, t: TableData, workspace: string)
    requires ValidTable(def, t, workspace)
  {
    forall j :: 0 <= j < |t.rows| ==> DecodeRow(d, def, t.rows[j], workspace).Ok?
  }

  ghost predicate AllInserted(db: Db, db': Db, d: Dialect, schema: seq<Definition>, tables: seq<TableData>, workspace: string)
    requires |tables| == |schema| && forall i :: 0 <= i < |schema| ==> ValidTable(schema[i], tables[i], workspace)
  {
    && (forall i :: 0 <= i < |schema| ==>
          Inserted(d, schema[i], RowsOf(db, schema[i].name), tables[i].rows, RowsOf(db', schema[i].name), workspace))
    && (forall name :: (forall i :: 0 <= i < |schema| ==> schema[i].name != name) ==> RowsOf(db', name) == RowsOf(db, name))
  }

  lemma {:induction false} InsertTablesFacts(db: Db, d: Dialect, schema: seq<Definition>, tables: seq<TableData>, workspace: string)
    requires |tables| == |schema| && forall i :: 0 <= i < |schema| ==> ValidTable(schema[i], tables[i], workspace)
    requires ValidSchema(schema)
    ensures var r := InsertTables(db, d, schema, tables, workspace);
      && (r.Ok? <==> forall i :: 0 <= i < |schema| ==> Accepts(d, schema[i], RowsOf(db, schema[i].name), tables[i], workspace))
      && (r.Ok? ==> AllInserted(db, r.value, d, schema, tables, workspace))
    decreases |tables|
  {
    hide DecodeRow, ValidTable, Inserted, InsertAll, AllInserted, Accepts;
    if tables == [] {
      NothingInserted(db, d, schema, tables, workspace);
    } else {
      var last := |tables| - 1;
      assert forall i :: 0 <= i < last ==> schema[..last][i] == schema[i] && tables[..last][i] == tables[i];
      InsertTablesFacts(db, d, schema[..last], tables[..last], workspace);
      var before := InsertTables(db, d, schema[..last], tables[..last], workspace);
      ValidRows(schema[last], tables[last], workspace);
      if before.Ok? {
        LastTable(db, before.value, d, schema, tables, workspace);
        forall i | 0 <= i < last ensures Accepts(d, schema[i], RowsOf(db, schema[i].name), tables[i], workspace) {
          assert Accepts(d, schema[..last][i], RowsOf(db, schema[..last][i].name), tables[..last][i], workspace);
        }
      } else {
        var i :| 0 <= i < last && !Accepts(d, schema[..last][i], RowsOf(db, schema[..last][i].name), tables[..last][i], workspace);
        assert !Accepts(d, schema[i], RowsOf(db, schema[i].name), tables[i], workspace);
      }
    }
  }

  lemma NothingInserted(db: Db, d: Dialect, schema: seq<Definition>, tables: seq<TableData>, workspace: string)
    requires schema == [] && tables == []
    ensures AllInserted(db, db, d, schema, tables, workspace)
  {
  }

  /** The last table of a bundle, after all the others. */
  lemma LastTable(db: Db, mid: Db, d: Dialect, schema: seq<Definition>, tables: seq<TableData>, workspace: string)
    requires tables != [] && |tables| == |schema| && ValidSchema(schema)
    requires forall i :: 0 <= i < |schema| ==> ValidTable(schema[i], tables[i], workspace)
    requires AllInserted(db, mid, d, schema[..|tables| - 1], tables[..|tables| - 1], workspace)
    requires var last := |tables| - 1; forall j :: 0 <= j < |tables[last].rows| ==> |tables[last].rows[j]| == |schema[last].columns|
    ensures var last := |tables| - 1;
      var r := InsertAll(d, schema[last], RowsOf(mid, schema[last].name), tables[last].rows, workspace);
      && (r.Ok? <==> Accepts(d, schema[last], RowsOf(db, schema[last].name), tables[last], workspace))
      && (r.Ok? ==> AllInserted(db, mid[schema[last].name := r.value], d, schema, tables, workspace))
  {
    hide DecodeRow, ValidTable, Inserted, InsertAll, Accepts;
    var last := |tables| - 1;
    var name := schema[last].name;
    assert RowsOf(mid, name) == RowsOf(db, name);
    InsertAllFacts(d, schema[last], RowsOf(db, name), tables[last], workspace);
    var r := InsertAll(d, schema[last], RowsOf(mid, name), tables[last].rows, workspace);
    if r.Ok? {
      var after := mid[name := r.value];
      forall i | 0 <= i < |schema|
        ensures Inserted(d, schema[i], RowsOf(db, schema[i].name), tables[i].rows, RowsOf(after, schema[i].name), workspace)
      {
        if i < last {
          assert schema[..last][i] == schema[i] && tables[..last][i] == tables[i];
          assert RowsOf(after, schema[i].name) == RowsOf(mid, schema[i].name);
        }
      }
      forall other | forall i :: 0 <= i < |schema| ==> schema[i].name != other ensures RowsOf(after, other) == RowsOf(db, other) {
        assert schema[last].name != other;
      }
    }
  }

  lemma ValidRows(def: Definition, t: TableData, workspace: string)
    requires ValidTable(def, t, workspace)
    ensures forall i :: 0 <= i < |t.rows| ==> |t.rows[i]| == |def.columns| && InWorkspace(def, t.rows[i], workspace)
  {
  }

  // ----- one table's reconciliation -----

  predicate CanonicalTable(d: Dialect, def: Definition, t: TableData) {
    InOrder(d.less, t.rows) && forall j :: 0 <= j < |t.rows| ==> CanonicalRow(d, def, t.rows[j])
  }

  /** Re-encoding is the identity on canonical rows and always canonical, so sorting it gives back the rows only if they were all canonical. */
  lemma SortedIsSameIff(d: Dialect, def: Definition, encoded: seq<JsonRow>, t: TableData)
    requires Asymmetric(d.less) && |encoded| == |t.rows|
    requires forall j :: 0 <= j < |encoded| ==> (encoded[j] == t.rows[j] <==> CanonicalRow(d, def, t.rows[j])) && CanonicalRow(d, def, encoded[j])
    ensures SortRows(d.less, encoded) == t.rows <==> CanonicalTable(d, def, t)
  {
    hide CanonicalRow;
    SortKeeps(d.less, encoded);
    SortOrders(d.less, encoded);
    if CanonicalTable(d, def, t) {
      assert encoded == t.rows;
      SortOfOrdered(d.less, t.rows);
    }
    if SortRows(d.less, encoded) == t.rows {
      forall j | 0 <= j < |t.rows| ensures CanonicalRow(d, def, t.rows[j]) {
        assert t.rows[j] in multiset(t.rows);
        assert t.rows[j] in multiset(encoded);
        var k :| 0 <= k < |encoded| && encoded[k] == t.rows[j];
      }
    }
  }

  lemma AddedRows(d: Dialect, def: Definition, before: seq<DbRow>, t: TableData, after: seq<DbRow>, workspace: string, j: nat)
    requires ValidTable(def, t, workspace) && Inserted(d, def, before, t.rows, after, workspace) && j < |t.rows|
    requires forall i :: 0 <= i < |def.columns| && def.columns[i].name == WORKSPACE ==> def.columns[i].kind.TextColumn?
    ensures var added := after[|before|..];
      && |added| == |t.rows| && Visible(def, added[j], workspace)
      && (EncodeRow(added[j]) == t.rows[j] <==> CanonicalRow(d, def, t.rows[j]))
      && CanonicalRow(d, def, EncodeRow(added[j]))
  {
    hide Visible, InWorkspace, CanonicalRow, DecodeRow, EncodeRow;
    ValidRows(def, t, workspace);
    assert after[|before|..][j] == after[|before| + j];
    RowRoundTrip(d, def, t.rows[j], workspace);
  }

  lemma TableReconcilesIff(db: Db, db': Db, d: Dialect, def: Definition, t: TableData, workspace: string)
    requires Asymmetric(d.less) && ValidTable(def, t, workspace)
    requires forall i :: 0 <= i < |def.columns| && def.columns[i].name == WORKSPACE ==> def.columns[i].kind.TextColumn?
    requires Inserted(d, def, RowsOf(db, def.name), t.rows, RowsOf(db', def.name), workspace)
    requires Selected(def, RowsOf(db, def.name), workspace) == []
    ensures ExportTable(db', d, def, workspace) == t <==> CanonicalTable(d, def, t)
    ensures |ExportTable(db', d, def, workspace).rows| == |t.rows|
    ensures forall r :: r in RowsOf(db', def.name)[|RowsOf(db, def.name)|..] ==> Visible(def, r, workspace)
  {
    var before, after := RowsOf(db, def.name), RowsOf(db', def.name);
    InsertedExtends(d, def, before, t, after, workspace);
    var added := after[|before|..];
    assert after == before + added && |added| == |t.rows|;
    hide Visible, CanonicalRow, CanonicalTable, EncodeRow, RowsOf, Inserted, InWorkspace, Selected, SortRows;
    forall j | 0 <= j < |t.rows|
      ensures Visible(def, added[j], workspace)
      ensures EncodeRow(added[j]) == t.rows[j] <==> CanonicalRow(d, def, t.rows[j])
      ensures CanonicalRow(d, def, EncodeRow(added[j]))
    {
      AddedRows(d, def, before, t, after, workspace, j);
    }
    SelectedAppends(def, before, added, workspace);
    assert [] + added == added;
    SortKeeps(d.less, EncodeRows(added));
    SortedIsSameIff(d, def, EncodeRows(added), t);
  }

  lemma {:induction false} EmptyTables(db: Db, d: Dialect, schema: seq<Definition>, workspace: string, n: nat, i: nat)
    requires i < n <= |schema| && RowCount(ExportTables(db, d, schema, workspace)[..n]) == 0
    ensures Selected(schema[i], RowsOf(db, schema[i].name), workspace) == []
    decreases n
  {
    var all := ExportTables(db, d, schema, workspace);
    assert all[..n][..n - 1] == all[..n - 1];
    if i < n - 1 {
      EmptyTables(db, d, schema, workspace, n - 1, i);
    } else {
      SortKeeps(d.less, EncodeRows(Selected(schema[i], RowsOf(db, schema[i].name), workspace)));
    }
  }

  lemma {:induction false} SameCounts(a: seq<TableData>, b: seq<TableData>)
    requires |a| == |b| && forall i :: 0 <= i < |a| ==> |a[i].rows| == |b[i].rows|
    ensures RowCount(a) == RowCount(b)
    decreases |a|
  {
    if a != [] {
      SameCounts(a[..|a| - 1], b[..|b| - 1]);
    }
  }

  // ----- main results -----

  predicate CanonicalBundle(d: Dialect, schema: seq<Definition>, b: Bundle) {
    |b.tables| == |schema| && forall i :: 0 <= i < |schema| ==> CanonicalTable(d, schema[i], b.tables[i])
  }

  predicate EmptyFor(db: Db, d: Dialect, schema: seq<Definition>, workspace: string) {
    RowCount(ExportTables(db, d, schema, workspace)) == 0
  }

  /**
   * Every cell of the bundle decodes, no required cell is null and none outgrows its column, and no two rows
   * of a table share a key with each other or with a row that the target stores, of whatever workspace.
   */
  predicate Storable(db: Db, d: Dialect, schema: seq<Definition>, b: Bundle, target: Scope)
    requires ValidBundle(schema, b, target)
  {
    forall i :: 0 <= i < |schema| ==> Accepts(d, schema[i], RowsOf(db, schema[i].name), b.tables[i], target.workspace)
  }

  /** After the inserts have been committed, the re-exported tables are the bundle's exactly when the bundle is canonical. */
  lemma CommittedReconcilesIff(db: Db, db': Db, d: Dialect, schema: seq<Definition>, target: Scope, b: Bundle)
    requires Asymmetric(d.less) && ValidSchema(schema) && ValidBundle(schema, b, target) && EmptyFor(db, d, schema, target.workspace)
    requires AllInserted(db, db', d, schema, b.tables, target.workspace)
    ensures ExportTables(db', d, schema, target.workspace) == b.tables <==> CanonicalBundle(d, schema, b)
    ensures RowCount(ExportTables(db', d, schema, target.workspace)) == RowCount(b.tables)
  {
    hide ValidTable, Inserted, CanonicalTable, ExportTable, Selected, RowCount;
    var all := ExportTables(db', d, schema, target.workspace);
    forall i | 0 <= i < |schema|
      ensures all[i] == b.tables[i] <==> CanonicalTable(d, schema[i], b.tables[i])
      ensures |all[i].rows| == |b.tables[i].rows|
    {
      assert ExportTables(db, d, schema, target.workspace)[..|schema|] == ExportTables(db, d, schema, target.workspace);
      EmptyTables(db, d, schema, target.workspace, |schema|, i);
      TableReconcilesIff(db, db', d, schema[i], b.tables[i], target.workspace);
    }
    SameCounts(all, b.tables);
    if CanonicalBundle(d, schema, b) {
      assert all == b.tables;
    }
  }

  /** A table fits its definition, column by column, and its workspace cells carry the target workspace. */
  predicate Fits(def: Definition, t: TableData, workspace: string) {
    && t.name == def.name && |t.columns| == |def.columns| && (forall c :: 0 <= c < |def.columns| ==> t.columns[c] == def.columns[c].name)
    && forall row :: row in t.rows ==>
         && |row| == |def.columns|
         && (def.owned ==>
               && "workspace_id" in t.columns
               && forall c :: 0 <= c < |row| && def.columns[c].name == "workspace_id" ==> row[c] == JString(workspace))
  }

  lemma FitsIff(def: Definition, t: TableData, workspace: string)
    ensures ValidTable(def, t, workspace) <==> Fits(def, t, workspace)
  {
    assert t.columns == ColumnNames(def) <==> |t.columns| == |def.columns| && forall c :: 0 <= c < |def.columns| ==> t.columns[c] == def.columns[c].name;
    if t.columns == ColumnNames(def) {
      NamedIff(def, t);
      if Fits(def, t, workspace) {
        forall i | 0 <= i < |t.rows| ensures InWorkspace(def, t.rows[i], workspace) {
          assert t.rows[i] in t.rows;
        }
      }
      if ValidTable(def, t, workspace) {
        forall row | row in t.rows ensures InWorkspace(def, row, workspace) {
          var i :| 0 <= i < |t.rows| && t.rows[i] == row;
        }
      }
    }
  }

  lemma NamedIff(def: Definition, t: TableData)
    requires |t.columns| == |def.columns| && forall c :: 0 <= c < |def.columns| ==> t.columns[c] == def.columns[c].name
    ensures "workspace_id" in t.columns <==> exists c :: 0 <= c < |def.columns| && def.columns[c].name == WORKSPACE
  {
    if c :| 0 <= c < |def.columns| && def.columns[c].name == WORKSPACE { assert t.columns[c] == "workspace_id"; }
    if "workspace_id" in t.columns {
      var c :| 0 <= c < |t.columns| && t.columns[c] == "workspace_id";
      assert def.columns[c].name == WORKSPACE;
    }
  }

  /** What an import refuses before it looks at the database: another format, a blank or foreign scope, another schema, another fingerprint. */
  lemma InvalidIsRefusedIff(db: Db, d: Dialect, schema: seq<Definition>, target: Scope, b: Bundle)
    ensures ValidBundle(schema, b, target) <==>
              && b.format == "domainry-notification-portable-v1" && b.source.workspace != "" && b.source.application != "" && b.source == target
              && |b.tables| == |schema| && (forall i :: 0 <= i < |schema| ==> Fits(schema[i], b.tables[i], target.workspace))
              && b.fingerprint == Digest(b.format, b.migration, b.source, b.tables)
    ensures !ValidBundle(schema, b, target) ==> Import(db, d, schema, target, b) == (db, Err(Invalid))
  {
    hide ValidTable, Fits, Export, InsertTables, RowCount;
    if |b.tables| == |schema| {
      forall i | 0 <= i < |schema| { FitsIff(schema[i], b.tables[i], target.workspace); }
    }
  }

  /**
   * A valid bundle imported into an empty target succeeds exactly when it is canonical for the target's
   * dialect and the target's constraints let all its rows in. Then the target exports the very same bundle.
   * If the constraints refuse a row, nothing is stored; if the bundle is only not canonical, the import
   * reports a conflict, but its rows are already committed.
   */
  lemma ImportSucceedsIff(db: Db, d: Dialect, schema: seq<Definition>, target: Scope, b: Bundle)
    requires Asymmetric(d.less) && ValidSchema(schema) && ValidBundle(schema, b, target) && EmptyFor(db, d, schema, target.workspace)
    ensures var done := Import(db, d, schema, target, b);
      && (done.1.Ok? <==> CanonicalBundle(d, schema, b) && Storable(db, d, schema, b, target))
      && (done.1.Ok? ==> Export(done.0, d, schema, target, b.migration) == b && done.1.value == Receipt(RowCount(b.tables), false))
      && (done.1.Err? && Storable(db, d, schema, b, target) ==>
            done.1 == Err(Conflict) && AllInserted(db, done.0, d, schema, b.tables, target.workspace))
      && (!Storable(db, d, schema, b, target) ==> done.0 == db)
  {
    hide ValidTable, AllInserted, CanonicalTable, InsertTables, ExportTables, RowCount, Accepts;
    InsertTablesFacts(db, d, schema, b.tables, target.workspace);
    var inserted := InsertTables(db, d, schema, b.tables, target.workspace);
    if inserted.Ok? {
      CommittedReconcilesIff(db, inserted.value, d, schema, target, b);
    }
  }

  /** A canonical bundle decodes, so only the constraints can refuse it. */
  lemma CanonicalDecodes(d: Dialect, schema: seq<Definition>, target: Scope, b: Bundle, i: nat)
    requires ValidBundle(schema, b, target) && CanonicalBundle(d, schema, b) && i < |schema|
    ensures Decodes(d, schema[i], b.tables[i], target.workspace)
  {
    assert ValidTable(schema[i], b.tables[i], target.workspace) && CanonicalTable(d, schema[i], b.tables[i]);
    forall j | 0 <= j < |b.tables[i].rows| ensures DecodeRow(d, schema[i], b.tables[i].rows[j], target.workspace).Ok? {
      CanonicalRowDecodes(d, schema[i], b.tables[i].rows[j], target.workspace);
    }
  }

  lemma CanonicalRowDecodes(d: Dialect, def: Definition, raw: JsonRow, workspace: string)
    requires CanonicalRow(d, def, raw)
    ensures DecodeRow(d, def, raw, workspace).Ok?
  {
    forall k | 0 <= k < |raw| ensures Decode(raw[k], def.columns[k].kind).Ok? {
      CellRoundTrip(d, def.columns[k].kind, raw[k]);
    }
  }

  /** Importing the same bundle again reports it as present and changes nothing. */
  lemma SecondImportIsPresent(db: Db, d: Dialect, schema: seq<Definition>, target: Scope, b: Bundle)
    requires Asymmetric(d.less) && ValidSchema(schema) && ValidBundle(schema, b, target) && EmptyFor(db, d, schema, target.workspace)
    requires Import(db, d, schema, target, b).1.Ok? && RowCount(b.tables) > 0
    ensures var db' := Import(db, d, schema, target, b).0;
      Import(db', d, schema, target, b) == (db', Ok(Receipt(RowCount(b.tables), true)))
  {
    hide InsertTables, ExportTables, RowCount, ValidTable, CanonicalTable;
    ImportSucceedsIff(db, d, schema, target, b);
  }

  /** Rows of other workspaces, and of tables outside the schema, stay; every added row carries the target's workspace. */
  lemma ImportTouchesOnlyTarget(db: Db, d: Dialect, schema: seq<Definition>, target: Scope, b: Bundle, i: nat)
    requires Asymmetric(d.less) && ValidSchema(schema) && ValidBundle(schema, b, target) && EmptyFor(db, d, schema, target.workspace)
    requires i < |schema|
    ensures var db' := Import(db, d, schema, target, b).0; var before, after := RowsOf(db, schema[i].name), RowsOf(db', schema[i].name);
      before <= after && forall r :: r in after[|before|..] ==> Visible(schema[i], r, target.workspace)
  {
    hide ValidTable, CanonicalTable, InsertTables, ExportTables, ExportTable, RowCount, Accepts, RowsOf, Inserted, Visible, Selected;
    InsertTablesFacts(db, d, schema, b.tables, target.workspace);
    var inserted := InsertTables(db, d, schema, b.tables, target.workspace);
    if inserted.Ok? {
      EmptyAt(db, d, schema, target.workspace, i);
      TableReconcilesIff(db, inserted.value, d, schema[i], b.tables[i], target.workspace);
      InsertedExtends(d, schema[i], RowsOf(db, schema[i].name), b.tables[i], RowsOf(inserted.value, schema[i].name), target.workspace);
    }
  }

  lemma EmptyAt(db: Db, d: Dialect, schema: seq<Definition>, workspace: string, i: nat)
    requires EmptyFor(db, d, schema, workspace) && i < |schema|
    ensures Selected(schema[i], RowsOf(db, schema[i].name), workspace) == []
  {
    assert ExportTables(db, d, schema, workspace)[..|schema|] == ExportTables(db, d, schema, workspace);
    EmptyTables(db, d, schema, workspace, |schema|, i);
  }

  lemma InsertedExtends(d: Dialect, def: Definition, before: seq<DbRow>, t: TableData, after: seq<DbRow>, workspace: string)
    requires Inserted(d, def, before, t.rows, after, workspace)
    ensures before <= after && |after| == |before| + |t.rows|
  {
  }

  // ----- from one database to another -----

  /** A stored row as this dialect scans it: full width, every cell canonical for its column. */
  predicate CanonicalDbRow(d: Dialect, def: Definition, r: DbRow) {
    |r| == |def.columns| && CanonicalRow(d, def, EncodeRow(r))
  }

  predicate CanonicalDb(db: Db, d: Dialect, schema: seq<Definition>) {
    forall i :: 0 <= i < |schema| ==> forall r :: r in RowsOf(db, schema[i].name) ==> CanonicalDbRow(d, schema[i], r)
  }

  lemma {:induction false} SelectedAreVisible(def: Definition, rows: seq<DbRow>, workspace: string)
    ensures forall r :: r in Selected(def, rows, workspace) ==> r in rows && Visible(def, r, workspace)
    decreases |rows|
  {
    hide Visible;
    if rows != [] {
      SelectedAreVisible(def, rows[1..], workspace);
      assert rows == [rows[0]] + rows[1..];
    }
  }

  lemma VisibleRowIsInWorkspace(d: Dialect, def: Definition, r: DbRow, workspace: string)
    requires CanonicalDbRow(d, def, r) && Visible(def, r, workspace)
    requires forall j, k :: 0 <= j < k < |def.columns| ==> def.columns[j].name != def.columns[k].name
    ensures InWorkspace(def, EncodeRow(r), workspace)
  {
    hide CanonicalRow;
  }

  lemma ExportedTable(db: Db, d: Dialect, def: Definition, workspace: string)
    requires Asymmetric(d.less) && forall r :: r in RowsOf(db, def.name) ==> CanonicalDbRow(d, def, r)
    requires forall j, k :: 0 <= j < k < |def.columns| ==> def.columns[j].name != def.columns[k].name
    ensures ValidTable(def, ExportTable(db, d, def, workspace), workspace) && CanonicalTable(d, def, ExportTable(db, d, def, workspace))
  {
    var rows := Selected(def, RowsOf(db, def.name), workspace);
    var encoded, t := EncodeRows(rows), ExportTable(db, d, def, workspace);
    SelectedAreVisible(def, RowsOf(db, def.name), workspace);
    SortKeeps(d.less, encoded);
    SortOrders(d.less, encoded);
    hide SortRows, Visible, InWorkspace, CanonicalRow, RowsOf, Selected;
    forall j | 0 <= j < |t.rows| ensures InWorkspace(def, t.rows[j], workspace) && CanonicalRow(d, def, t.rows[j]) {
      assert t.rows[j] in multiset(t.rows);
      assert t.rows[j] in multiset(encoded);
      var k :| 0 <= k < |encoded| && encoded[k] == t.rows[j];
      assert rows[k] in rows && rows[k] in RowsOf(db, def.name);
      VisibleRowIsInWorkspace(d, def, rows[k], workspace);
    }
  }

  // ----- constraints across an export -----

  lemma EncodeInjective(r: DbRow, s: DbRow)
    requires EncodeRow(r) == EncodeRow(s)
    ensures r == s
  {
    assert |EncodeRow(r)| == |r| && |EncodeRow(s)| == |s|;
    forall i | 0 <= i < |r| ensures r[i] == s[i] {
      assert EncodeRow(r)[i] == Encode(r[i]) && EncodeRow(s)[i] == Encode(s[i]);
    }
  }

  /** An exported row is decoded to the row it was. */
  lemma BackAgain(d: Dialect, def: Definition, r: DbRow, workspace: string)
    requires CanonicalDbRow(d, def, r) && Visible(def, r, workspace)
    requires forall j, k :: 0 <= j < k < |def.columns| ==> def.columns[j].name != def.columns[k].name
    requires forall i :: 0 <= i < |def.columns| && def.columns[i].name == WORKSPACE ==> def.columns[i].kind.TextColumn?
    ensures |EncodeRow(r)| == |def.columns| && DecodeRow(d, def, EncodeRow(r), workspace) == Ok(r)
  {
    hide DecodeRow, Visible, InWorkspace;
    VisibleRowIsInWorkspace(d, def, r, workspace);
    CanonicalRowDecodes(d, def, EncodeRow(r), workspace);
    RowRoundTrip(d, def, EncodeRow(r), workspace);
    EncodeInjective(r, DecodeRow(d, def, EncodeRow(r), workspace).value);
  }

  function Back(d: Dialect, def: Definition, raw: JsonRow, workspace: string): DbRow {
    if |raw| == |def.columns| && DecodeRow(d, def, raw, workspace).Ok? then DecodeRow(d, def, raw, workspace).value else []
  }

  predicate Pairwise(apart: (JsonRow, JsonRow) -> bool, rows: seq<JsonRow>) {
    forall i, j :: 0 <= i < j < |rows| ==> apart(rows[i], rows[j])
  }

  ghost predicate Symmetric(apart: (JsonRow, JsonRow) -> bool) {
    forall a, b :: apart(a, b) ==> apart(b, a)
  }

  lemma {:induction false} InsertRowStaysPairwise(apart: (JsonRow, JsonRow) -> bool, less: (JsonRow, JsonRow) -> bool, r: JsonRow, sorted: seq<JsonRow>)
    requires Symmetric(apart) && Pairwise(apart, sorted) && forall s :: s in sorted ==> apart(r, s)
    ensures Pairwise(apart, InsertRow(less, r, sorted))
    decreases |sorted|
  {
    if sorted != [] && less(sorted[0], r) {
      var rest := InsertRow(less, r, sorted[1..]);
      InsertRowStaysPairwise(apart, less, r, sorted[1..]);
      InsertRowKeeps(less, r, sorted[1..]);
      forall j | 0 <= j < |rest| ensures apart(sorted[0], rest[j]) {
        assert rest[j] in multiset(rest);
        assert rest[j] == r || rest[j] in sorted[1..];
      }
    }
  }

  lemma {:induction false} SortStaysPairwise(apart: (JsonRow, JsonRow) -> bool, less: (JsonRow, JsonRow) -> bool, rows: seq<JsonRow>)
    requires Symmetric(apart) && Pairwise(apart, rows)
    ensures Pairwise(apart, SortRows(less, rows))
    decreases |rows|
  {
    if rows != [] {
      SortStaysPairwise(apart, less, rows[1..]);
      var sorted := SortRows(less, rows[1..]);
      SortKeeps(less, rows[1..]);
      forall s | s in sorted ensures apart(rows[0], s) {
        assert s in multiset(sorted) && s in multiset(rows[1..]);
        var j :| 0 <= j < |rows[1..]| && rows[1..][j] == s;
        assert rows[j + 1] == s;
      }
      InsertRowStaysPairwise(apart, less, rows[0], sorted);
    }
  }

  lemma ClashIsSymmetric(def: Definition, r: DbRow, s: DbRow)
    requires Clash(def, r, s)
    ensures Clash(def, s, r)
  {
    var k :| 0 <= k < |def.keys| && SameKey(def, def.keys[k], r, s);
    assert SameKey(def, def.keys[k], s, r);
  }

  lemma {:induction false} SelectedStayDistinct(def: Definition, rows: seq<DbRow>, workspace: string)
    requires DistinctKeys(def, rows)
    ensures DistinctKeys(def, Selected(def, rows, workspace))
    decreases |rows|
  {
    hide Clash, Visible;
    if rows != [] {
      SelectedStayDistinct(def, rows[1..], workspace);
      var rest := Selected(def, rows[1..], workspace);
      SelectedAreVisible(def, rows[1..], workspace);
      forall j | 0 <= j < |rest| ensures !Clash(def, rows[0], rest[j]) {
        assert rest[j] in rest && rest[j] in rows[1..];
        var i :| 0 <= i < |rows[1..]| && rows[1..][i] == rest[j];
        assert rows[i + 1] == rest[j];
      }
    }
  }

  /** Each encoded row and the row it came from, at the same place. */
  predicate Encodes(d: Dialect, def: Definition, rows: seq<DbRow>, encoded: seq<JsonRow>, workspace: string) {
    |encoded| == |rows| && forall k :: 0 <= k < |rows| ==> |encoded[k]| == |def.columns| && DecodeRow(d, def, encoded[k], workspace) == Ok(rows[k])
  }

  lemma SelectedEncode(db: Db, d: Dialect, def: Definition, workspace: string)
    requires forall r :: r in RowsOf(db, def.name) ==> CanonicalDbRow(d, def, r)
    requires forall j, k :: 0 <= j < k < |def.columns| ==> def.columns[j].name != def.columns[k].name
    requires forall i :: 0 <= i < |def.columns| && def.columns[i].name == WORKSPACE ==> def.columns[i].kind.TextColumn?
    ensures var rows := Selected(def, RowsOf(db, def.name), workspace); Encodes(d, def, rows, EncodeRows(rows), workspace)
  {
    var rows := Selected(def, RowsOf(db, def.name), workspace);
    SelectedAreVisible(def, RowsOf(db, def.name), workspace);
    hide Visible, CanonicalDbRow, RowsOf, Selected, DecodeRow, EncodeRow;
    forall k | 0 <= k < |rows|
      ensures |EncodeRows(rows)[k]| == |def.columns| && DecodeRow(d, def, EncodeRows(rows)[k], workspace) == Ok(rows[k])
    {
      assert rows[k] in rows;
      BackAgain(d, def, rows[k], workspace);
    }
  }

  /** What an import of an exported table would store: the selected rows, in another order and as distinct as they were. */
  lemma ExportedRows(db: Db, d: Dialect, def: Definition, workspace: string)
    requires Asymmetric(d.less) && forall r :: r in RowsOf(db, def.name) ==> CanonicalDbRow(d, def, r)
    requires forall j, k :: 0 <= j < k < |def.columns| ==> def.columns[j].name != def.columns[k].name
    requires forall i :: 0 <= i < |def.columns| && def.columns[i].name == WORKSPACE ==> def.columns[i].kind.TextColumn?
    ensures var t := ExportTable(db, d, def, workspace); var rows := Selected(def, RowsOf(db, def.name), workspace);
      && ValidTable(def, t, workspace) && Decodes(d, def, t, workspace)
      && (forall r :: r in Decoded(d, def, t, workspace) <==> r in rows)
      && (DistinctKeys(def, rows) ==> DistinctKeys(def, Decoded(d, def, t, workspace)))
  {
    ExportedTable(db, d, def, workspace);
    SelectedEncode(db, d, def, workspace);
    var rows := Selected(def, RowsOf(db, def.name), workspace);
    assert ExportTable(db, d, def, workspace).rows == SortRows(d.less, EncodeRows(rows));
    hide ExportTable, ValidTable, Selected, RowsOf, EncodeRows, CanonicalDbRow, Encodes;
    SortedDecode(d, def, rows, EncodeRows(rows), ExportTable(db, d, def, workspace), workspace);
  }

  lemma SortedDecode(d: Dialect, def: Definition, rows: seq<DbRow>, encoded: seq<JsonRow>, t: TableData, workspace: string)
    requires ValidTable(def, t, workspace) && t.rows == SortRows(d.less, encoded) && Encodes(d, def, rows, encoded, workspace)
    ensures Decodes(d, def, t, workspace)
    ensures forall r :: r in Decoded(d, def, t, workspace) <==> r in rows
    ensures DistinctKeys(def, rows) ==> DistinctKeys(def, Decoded(d, def, t, workspace))
  {
    hide SortRows, DecodeRow, Clash, InWorkspace;
    SortKeeps(d.less, encoded);
    ValidRows(def, t, workspace);
    forall j | 0 <= j < |t.rows|
      ensures DecodeRow(d, def, t.rows[j], workspace).Ok? && DecodeRow(d, def, t.rows[j], workspace).value in rows
    {
      assert t.rows[j] in multiset(t.rows) && t.rows[j] in multiset(encoded);
      var k :| 0 <= k < |encoded| && encoded[k] == t.rows[j];
    }
    var decoded := Decoded(d, def, t, workspace);
    forall r | r in rows ensures r in decoded {
      var k :| 0 <= k < |rows| && rows[k] == r;
      assert encoded[k] in multiset(encoded) && encoded[k] in multiset(t.rows);
      var j :| 0 <= j < |t.rows| && t.rows[j] == encoded[k];
      assert decoded[j] == r;
    }
    if DistinctKeys(def, rows) {
      SortedStayDistinct(d, def, rows, encoded, workspace);
      assert forall j :: 0 <= j < |t.rows| ==> Back(d, def, t.rows[j], workspace) == decoded[j];
    }
  }

  lemma SortedStayDistinct(d: Dialect, def: Definition, rows: seq<DbRow>, encoded: seq<JsonRow>, workspace: string)
    requires DistinctKeys(def, rows) && Encodes(d, def, rows, encoded, workspace)
    ensures var sorted := SortRows(d.less, encoded);
      forall i, j :: 0 <= i < j < |sorted| ==> !Clash(def, Back(d, def, sorted[i], workspace), Back(d, def, sorted[j], workspace))
  {
    hide Clash, DecodeRow;
    var apart := (a: JsonRow, b: JsonRow) => !Clash(def, Back(d, def, a, workspace), Back(d, def, b, workspace));
    forall a, b | apart(a, b) ensures apart(b, a) {
      if Clash(def, Back(d, def, b, workspace), Back(d, def, a, workspace)) {
        ClashIsSymmetric(def, Back(d, def, b, workspace), Back(d, def, a, workspace));
      }
    }
    assert forall k :: 0 <= k < |rows| ==> Back(d, def, encoded[k], workspace) == rows[k];
    SortStaysPairwise(apart, d.less, encoded);
  }

  /** A key that does not name the workspace, shared with a stored row. */
  predicate TakenElsewhere(def: Definition, stored: seq<DbRow>, r: DbRow) {
    exists i, k :: 0 <= i < |stored| && 0 <= k < |def.keys| && WORKSPACE !in def.keys[k] && SameKey(def, def.keys[k], stored[i], r)
  }

  lemma ScopedKeySharesWorkspace(def: Definition, key: set<string>, r: DbRow, s: DbRow, workspace: string)
    requires WORKSPACE in key && SameKey(def, key, r, s) && Visible(def, s, workspace)
    ensures Visible(def, r, workspace)
  {
    if def.owned {
      var c :| 0 <= c < |def.columns| && c < |s| && def.columns[c].name == WORKSPACE && s[c] == Text(workspace);
      assert r[c] == Text(workspace);
    }
  }

  /** In a table without rows of the workspace, only a key that does not name the workspace can be taken from it. */
  lemma OnlyOtherKeysAreTaken(def: Definition, stored: seq<DbRow>, r: DbRow, workspace: string)
    requires Visible(def, r, workspace) && forall s :: s in stored ==> !Visible(def, s, workspace)
    requires forall j, k :: 0 <= j < k < |def.columns| ==> def.columns[j].name != def.columns[k].name
    ensures Taken(def, stored, r) <==> TakenElsewhere(def, stored, r)
  {
    if Taken(def, stored, r) {
      var i :| 0 <= i < |stored| && Clash(def, stored[i], r);
      var k :| 0 <= k < |def.keys| && SameKey(def, def.keys[k], stored[i], r);
      assert stored[i] in stored;
      if WORKSPACE in def.keys[k] { ScopedKeySharesWorkspace(def, def.keys[k], stored[i], r, workspace); }
    }
    if TakenElsewhere(def, stored, r) {
      var i, k :| 0 <= i < |stored| && 0 <= k < |def.keys| && WORKSPACE !in def.keys[k] && SameKey(def, def.keys[k], stored[i], r);
      assert Clash(def, stored[i], r);
    }
  }

  lemma {:induction false} NoneSelected(def: Definition, rows: seq<DbRow>, workspace: string)
    requires Selected(def, rows, workspace) == []
    ensures forall r :: r in rows ==> !Visible(def, r, workspace)
    decreases |rows|
  {
    hide Visible;
    if rows != [] {
      assert !Visible(def, rows[0], workspace);
      NoneSelected(def, rows[1..], workspace);
    }
  }

  /** Every row meets the constraints of its table, as the database sees to. */
  predicate ConstrainedDb(db: Db, d: Dialect, schema: seq<Definition>) {
    forall i :: 0 <= i < |schema| ==> Fitting(d, schema[i], RowsOf(db, schema[i].name)) && DistinctKeys(schema[i], RowsOf(db, schema[i].name))
  }

  /** No row of another workspace in the target holds a key of the exported rows that does not name the workspace. */
  predicate KeysFreeElsewhere(source: Db, db: Db, schema: seq<Definition>, workspace: string) {
    forall i :: 0 <= i < |schema| ==>
      forall r :: r in Selected(schema[i], RowsOf(source, schema[i].name), workspace) ==> !TakenElsewhere(schema[i], RowsOf(db, schema[i].name), r)
  }

  lemma ExportedTableAccepted(source: Db, db: Db, d: Dialect, def: Definition, workspace: string)
    requires Asymmetric(d.less) && forall r :: r in RowsOf(source, def.name) ==> CanonicalDbRow(d, def, r)
    requires Fitting(d, def, RowsOf(source, def.name)) && DistinctKeys(def, RowsOf(source, def.name))
    requires forall j, k :: 0 <= j < k < |def.columns| ==> def.columns[j].name != def.columns[k].name
    requires forall i :: 0 <= i < |def.columns| && def.columns[i].name == WORKSPACE ==> def.columns[i].kind.TextColumn?
    requires Selected(def, RowsOf(db, def.name), workspace) == []
    ensures ValidTable(def, ExportTable(source, d, def, workspace), workspace)
    ensures Accepts(d, def, RowsOf(db, def.name), ExportTable(source, d, def, workspace), workspace) <==>
              forall r :: r in Selected(def, RowsOf(source, def.name), workspace) ==> !TakenElsewhere(def, RowsOf(db, def.name), r)
  {
    var rows, stored := Selected(def, RowsOf(source, def.name), workspace), RowsOf(db, def.name);
    ExportedRows(source, d, def, workspace);
    SelectedStayDistinct(def, RowsOf(source, def.name), workspace);
    SelectedAreVisible(def, RowsOf(source, def.name), workspace);
    NoneSelected(def, stored, workspace);
    hide Visible, CanonicalDbRow, RowsOf, Selected, DecodeRow, ExportTable, ValidTable, Clash, RowFits, Taken, TakenElsewhere, DistinctKeys, Decodes, Decoded;
    var decoded := Decoded(d, def, ExportTable(source, d, def, workspace), workspace);
    forall r | r in rows ensures RowFits(d, def, r) && (Taken(def, stored, r) <==> TakenElsewhere(def, stored, r)) {
      OnlyOtherKeysAreTaken(def, stored, r, workspace);
    }
    assert Fitting(d, def, decoded) by { assert forall i :: 0 <= i < |decoded| ==> decoded[i] in decoded; }
    assert FreeKeys(def, stored, decoded) <==> forall r :: r in rows ==> !Taken(def, stored, r) by {
      assert forall i :: 0 <= i < |decoded| ==> decoded[i] in decoded;
    }
  }

  /**
   * The round trip: what a canonical database exports under its constraints, an empty target of the same
   * dialect imports and exports again, bundle for bundle, exactly when no row of another workspace there
   * holds one of its keys that do not name the workspace. Otherwise the import stores nothing.
   */
  lemma ExportImportExport(source: Db, db: Db, d: Dialect, schema: seq<Definition>, scope: Scope, migration: string)
    requires Asymmetric(d.less) && ValidSchema(schema) && scope.workspace != "" && scope.application != ""
    requires CanonicalDb(source, d, schema) && ConstrainedDb(source, d, schema) && EmptyFor(db, d, schema, scope.workspace)
    ensures var b := Export(source, d, schema, scope, migration); var done := Import(db, d, schema, scope, b);
      && (done.1.Ok? <==> KeysFreeElsewhere(source, db, schema, scope.workspace))
      && (done.1.Ok? ==> done.1.value == Receipt(RowCount(b.tables), false) && Export(done.0, d, schema, scope, migration) == b)
      && (done.1.Err? ==> done.0 == db)
  {
    var b := Export(source, d, schema, scope, migration);
    hide ValidTable, CanonicalTable, CanonicalDbRow, ExportTable, Import, RowCount, RowsOf, Fitting, DistinctKeys, Selected, TakenElsewhere, Accepts, EmptyFor;
    forall i | 0 <= i < |schema|
      ensures ValidTable(schema[i], b.tables[i], scope.workspace) && CanonicalTable(d, schema[i], b.tables[i])
      ensures Accepts(d, schema[i], RowsOf(db, schema[i].name), b.tables[i], scope.workspace) <==>
                forall r :: r in Selected(schema[i], RowsOf(source, schema[i].name), scope.workspace) ==> !TakenElsewhere(schema[i], RowsOf(db, schema[i].name), r)
    {
      ExportedTable(source, d, schema[i], scope.workspace);
      EmptyAt(db, d, schema, scope.workspace, i);
      ExportedTableAccepted(source, db, d, schema[i], scope.workspace);
    }
    ImportSucceedsIff(db, d, schema, scope, b);
  }

  // ----- refused rows -----

  /** Two rows agree in a unique key: equal in each of its columns, and null in none. */
  predicate AgreeIn(def: Definition, key: set<string>, r: DbRow, s: DbRow)
    requires |r| == |s| == |def.columns|
  {
    forall i :: 0 <= i < |r| && def.columns[i].name in key ==> r[i] == s[i] && r[i] != Null
  }

  /** A row goes in exactly when its nulls are allowed, its values fit, and no stored row agrees with it in a key; else nothing changes. */
  lemma RowGoesInIff(d: Dialect, def: Definition, stored: seq<DbRow>, r: DbRow)
    requires |r| == |def.columns| && forall s :: s in stored ==> |s| == |def.columns|
    ensures var done := InsertOne(d, def, stored, r);
      && (done.Ok? <==>
            && (forall i :: 0 <= i < |r| ==> (r[i] == Null ==> def.columns[i].nullable) && (r[i] != Null ==> d.fits(def.columns[i].kind, r[i])))
            && forall s, key :: s in stored && key in def.keys ==> !AgreeIn(def, key, s, r))
      && (done.Ok? ==> done.value == stored + [r])
  {
    hide AgreeIn;
    forall s, key | s in stored ensures SameKey(def, key, s, r) <==> AgreeIn(def, key, s, r) {
      SameKeyIff(def, key, s, r);
    }
    hide SameKey;
    if Taken(def, stored, r) {
      var i :| 0 <= i < |stored| && Clash(def, stored[i], r);
      var k :| 0 <= k < |def.keys| && SameKey(def, def.keys[k], stored[i], r);
      assert stored[i] in stored && def.keys[k] in def.keys;
    }
    if s, key :| s in stored && key in def.keys && AgreeIn(def, key, s, r) {
      var i :| 0 <= i < |stored| && stored[i] == s;
      var k :| 0 <= k < |def.keys| && def.keys[k] == key;
      assert Clash(def, stored[i], r);
    }
  }

  lemma SameKeyIff(def: Definition, key: set<string>, r: DbRow, s: DbRow)
    requires |r| == |s| == |def.columns|
    ensures SameKey(def, key, r, s) <==> AgreeIn(def, key, r, s)
  {
  }

  /** A bundle that holds a row twice, in a table with a key whose columns the row fills, is refused and leaves nothing. */
  lemma RepeatedRowIsRefused(db: Db, d: Dialect, schema: seq<Definition>, target: Scope, b: Bundle, i: nat, m: nat, n: nat, k: nat)
    requires Asymmetric(d.less) && ValidSchema(schema) && ValidBundle(schema, b, target) && EmptyFor(db, d, schema, target.workspace)
    requires i < |schema| && m < n < |b.tables[i].rows| && b.tables[i].rows[m] == b.tables[i].rows[n] && k < |schema[i].keys|
    requires forall c :: 0 <= c < |schema[i].columns| && schema[i].columns[c].name in schema[i].keys[k] ==>
      c < |b.tables[i].rows[m]| && !b.tables[i].rows[m][c].JNull?
    ensures var done := Import(db, d, schema, target, b); done.1.Err? && done.0 == db
  {
    ImportSucceedsIff(db, d, schema, target, b);
    hide CanonicalBundle, Import, ValidBundle;
    BundleTable(schema, b, target, i);
    RepeatedRowNotAccepted(d, schema[i], RowsOf(db, schema[i].name), b.tables[i], target.workspace, m, n, k);
    assert !Storable(db, d, schema, b, target);
  }

  lemma RepeatedRowNotAccepted(d: Dialect, def: Definition, stored: seq<DbRow>, t: TableData, workspace: string, m: nat, n: nat, k: nat)
    requires ValidTable(def, t, workspace) && m < n < |t.rows| && t.rows[m] == t.rows[n] && k < |def.keys|
    requires forall c :: 0 <= c < |def.columns| && def.columns[c].name in def.keys[k] ==> c < |t.rows[m]| && !t.rows[m][c].JNull?
    ensures !Accepts(d, def, stored, t, workspace)
  {
    hide Fitting, FreeKeys, DecodeRow, SameKey;
    if Decodes(d, def, t, workspace) {
      var rows := Decoded(d, def, t, workspace);
      ValidRows(def, t, workspace);
      assert rows[m] == rows[n] == DecodeRow(d, def, t.rows[m], workspace).value;
      DecodedFills(d, def, t.rows[m], workspace, k);
      assert Clash(def, rows[m], rows[n]);
    }
  }

  lemma BundleTable(schema: seq<Definition>, b: Bundle, target: Scope, i: nat)
    requires ValidBundle(schema, b, target) && i < |schema|
    ensures ValidTable(schema[i], b.tables[i], target.workspace)
  {
  }

  lemma DecodedFills(d: Dialect, def: Definition, raw: JsonRow, workspace: string, k: nat)
    requires |raw| == |def.columns| && DecodeRow(d, def, raw, workspace).Ok? && k < |def.keys|
    requires forall c :: 0 <= c < |def.columns| && def.columns[c].name in def.keys[k] ==> !raw[c].JNull?
    ensures var r := DecodeRow(d, def, raw, workspace).value; SameKey(def, def.keys[k], r, r)
  {
  }

  predicate NoBooleans(def: Definition, t: TableData) {
    forall j, k :: 0 <= j < |t.rows| && 0 <= k < |def.columns| && k < |t.rows[j]| ==> def.columns[k].kind.BooleanColumn? ==> t.rows[j][k].JNull?
  }

  /**
   * Between dialects that scan boolean columns differently, a bundle that is canonical at its source
   * reconciles at the target exactly when every boolean cell in it is null.
   */
  lemma CrossDialectNeedsNoBooleans(source: Dialect, d: Dialect, schema: seq<Definition>, b: Bundle)
    requires CanonicalBundle(source, schema, b) && source.less == d.less && source.integerBooleans != d.integerBooleans
    ensures CanonicalBundle(d, schema, b) <==> forall i :: 0 <= i < |schema| ==> NoBooleans(schema[i], b.tables[i])
  {
    hide NoBooleans, CanonicalTable;
    forall i | 0 <= i < |schema| ensures CanonicalTable(d, schema[i], b.tables[i]) <==> NoBooleans(schema[i], b.tables[i]) {
      assert CanonicalTable(source, schema[i], b.tables[i]);
      CrossDialectTable(source, d, schema[i], b.tables[i]);
    }
  }

  lemma CrossDialectTable(source: Dialect, d: Dialect, def: Definition, t: TableData)
    requires CanonicalTable(source, def, t) && source.less == d.less && source.integerBooleans != d.integerBooleans
    ensures CanonicalTable(d, def, t) <==> NoBooleans(def, t)
  {
    forall j | 0 <= j < |t.rows| ensures CanonicalRow(source, def, t.rows[j]) {
    }
    if CanonicalTable(d, def, t) {
      forall j, k | 0 <= j < |t.rows| && 0 <= k < |def.columns| && k < |t.rows[j]| && def.columns[k].kind.BooleanColumn? ensures t.rows[j][k].JNull? {
        assert CanonicalRow(d, def, t.rows[j]) && CanonicalRow(source, def, t.rows[j]);
      }
    }
  }
}
