/** Portable export and import of one workspace: cells, rows, tables, bundles, and the reconciliation after an import. */
module Portability {
  import opened Prelude

  datatype Kind = TextColumn | IntegerColumn | BooleanColumn

  datatype Column = Column(name: string, kind: Kind, nullable: bool)

  /**
   * `owned` tables hold one workspace's rows beside the others'; the rest belong to the whole system. `keys`
   * are the column names of the primary key and of each unique index, which need not name the workspace.
   */
  datatype Definition = Definition(name: string, columns: seq<Column>, keys: seq<set<string>>, owned: bool)

  /** A column value as a driver scans it, and as it is bound on insert. */
  datatype Cell = Null | Text(text: string) | Integer(value: int) | Boolean(flag: bool)

  /** Canonical JSON text of a scalar; `Other` is any JSON that is not one of these. */
  datatype Json = JNull | JString(text: string) | JNumber(value: int) | JBool(flag: bool) | Other(text: string)

  type DbRow = seq<Cell>
  type JsonRow = seq<Json>

  datatype Scope = Scope(workspace: string, application: string)

  datatype TableData = TableData(name: string, columns: seq<string>, rows: seq<JsonRow>)

  /** A hash over the bundle without its fingerprint, kept as its preimage. */
  datatype Digest = Digest(format: string, migration: string, source: Scope, tables: seq<TableData>)

  datatype Bundle = Bundle(format: string, migration: string, source: Scope, tables: seq<TableData>, fingerprint: Digest)

  datatype Receipt = Receipt(rows: nat, alreadyPresent: bool)

  /** What a database and its driver are: does a boolean column scan as an integer, what fits a column, and how are exported rows sorted. */
  datatype Dialect = Dialect(integerBooleans: bool, fits: (Kind, Cell) -> bool, less: (JsonRow, JsonRow) -> bool)

  type Db = map<string, seq<DbRow>>

  const FORMAT := "domainry-notification-portable-v1"
  const WORKSPACE := "workspace_id"

  // ----- cells -----

  function Encode(c: Cell): Json {
    match c
    case Null => JNull
    case Text(s) => JString(s)
    case Integer(n) => JNumber(n)
    case Boolean(b) => JBool(b)
  }

  predicate Int64(n: int) {
    -0x8000_0000_0000_0000 <= n < 0x8000_0000_0000_0000
  }

  function Decode(raw: Json, kind: Kind): Result<Cell> {
    if raw.JNull? then Ok(Null)
    else
      match kind
      case IntegerColumn => if raw.JNumber? && Int64(raw.value) then Ok(Integer(raw.value)) else Err(Invalid)
      case BooleanColumn =>
        if raw.JBool? then Ok(Boolean(raw.flag))
        else if raw.JNumber? && Int64(raw.value) then Ok(Boolean(raw.value != 0))
        else Err(Invalid)
      case TextColumn => if raw.JString? then Ok(Text(raw.text)) else Err(Invalid)
  }

  /** How a bound value comes back from the database. */
  function Store(d: Dialect, c: Cell): Cell {
    if c.Boolean? && d.integerBooleans then Integer(if c.flag then 1 else 0) else c
  }

  /** Cells whose JSON survives decoding, storing and encoding. */
  predicate Canonical(d: Dialect, kind: Kind, raw: Json) {
    || raw.JNull?
    || (kind.TextColumn? && raw.JString?)
    || (kind.IntegerColumn? && raw.JNumber? && Int64(raw.value))
    || (kind.BooleanColumn? && (if d.integerBooleans then raw == JNumber(0) || raw == JNumber(1) else raw.JBool?))
  }

  lemma CellRoundTrip(d: Dialect, kind: Kind, raw: Json)
    ensures Decode(raw, kind).Ok? ==> (Encode(Store(d, Decode(raw, kind).value)) == raw <==> Canonical(d, kind, raw))
    ensures Decode(raw, kind).Ok? ==> Canonical(d, kind, Encode(Store(d, Decode(raw, kind).value)))
    ensures Canonical(d, kind, raw) ==> Decode(raw, kind).Ok?
  {
  }

  // ----- rows -----

  function EncodeRow(r: DbRow): JsonRow {
    seq(|r|, i requires 0 <= i < |r| => Encode(r[i]))
  }

  /** The row an import inserts; the workspace column is written by the store itself. */
  function DecodeRow(d: Dialect, def: Definition, raw: JsonRow, workspace: string): Result<DbRow>
    requires |raw| == |def.columns|
  {
    if exists i :: 0 <= i < |raw| && Decode(raw[i], def.columns[i].kind).Err? then Err(Invalid)
    else
      Ok(seq(|raw|, i requires 0 <= i < |raw| =>
        if def.owned && def.columns[i].name == WORKSPACE then Text(workspace)
        else if Decode(raw[i], def.columns[i].kind).Ok? then Store(d, Decode(raw[i], def.columns[i].kind).value) else Null))
  }

  predicate CanonicalRow(d: Dialect, def: Definition, raw: JsonRow) {
    |raw| == |def.columns| && forall i :: 0 <= i < |raw| ==> Canonical(d, def.columns[i].kind, raw[i])
  }

  /** The workspace column of an owned table is a text column that carries this workspace. */
  predicate InWorkspace(def: Definition, raw: JsonRow, workspace: string) {
    && |raw| == |def.columns|
    && (def.owned ==>
          && (exists i :: 0 <= i < |def.columns| && def.columns[i].name == WORKSPACE)
          && forall i :: 0 <= i < |def.columns| && def.columns[i].name == WORKSPACE ==> raw[i] == JString(workspace))
  }

  predicate Visible(def: Definition, r: DbRow, workspace: string) {
    def.owned ==> exists i :: 0 <= i < |def.columns| && i < |r| && def.columns[i].name == WORKSPACE && r[i] == Text(workspace)
  }

  lemma RowRoundTrip(d: Dialect, def: Definition, raw: JsonRow, workspace: string)
    requires InWorkspace(def, raw, workspace) && DecodeRow(d, def, raw, workspace).Ok?
    requires forall i :: 0 <= i < |def.columns| && def.columns[i].name == WORKSPACE ==> def.columns[i].kind.TextColumn?
    ensures var r := DecodeRow(d, def, raw, workspace).value;
      && (EncodeRow(r) == raw <==> CanonicalRow(d, def, raw))
      && CanonicalRow(d, def, EncodeRow(r)) && Visible(def, r, workspace)
  {
    var r := DecodeRow(d, def, raw, workspace).value;
    forall i | 0 <= i < |raw|
      ensures Canonical(d, def.columns[i].kind, EncodeRow(r)[i])
      ensures EncodeRow(r)[i] == raw[i] <==> Canonical(d, def.columns[i].kind, raw[i])
    {
      CellRoundTrip(d, def.columns[i].kind, raw[i]);
      assert Decode(raw[i], def.columns[i].kind).Ok?;
    }
    if CanonicalRow(d, def, raw) {
      assert EncodeRow(r) == raw;
    }
  }

  // ----- tables -----

  function InsertRow(less: (JsonRow, JsonRow) -> bool, r: JsonRow, sorted: seq<JsonRow>): seq<JsonRow> {
    if sorted == [] || !less(sorted[0], r) then [r] + sorted else [sorted[0]] + InsertRow(less, r, sorted[1..])
  }

  function SortRows(less: (JsonRow, JsonRow) -> bool, rows: seq<JsonRow>): seq<JsonRow> {
    if rows == [] then [] else InsertRow(less, rows[0], SortRows(less, rows[1..]))
  }

  function RowsOf(db: Db, name: string): seq<DbRow> {
    if name in db then db[name] else []
  }

  function Selected(def: Definition, rows: seq<DbRow>, workspace: string): seq<DbRow> {
    if rows == [] then [] else (if Visible(def, rows[0], workspace) then [rows[0]] else []) + Selected(def, rows[1..], workspace)
  }

  function EncodeRows(rows: seq<DbRow>): seq<JsonRow> {
    seq(|rows|, i requires 0 <= i < |rows| => EncodeRow(rows[i]))
  }

  function ColumnNames(def: Definition): seq<string> {
    seq(|def.columns|, i requires 0 <= i < |def.columns| => def.columns[i].name)
  }

  function ExportTable(db: Db, d: Dialect, def: Definition, workspace: string): TableData {
    TableData(def.name, ColumnNames(def), SortRows(d.less, EncodeRows(Selected(def, RowsOf(db, def.name), workspace))))
  }

  function ExportTables(db: Db, d: Dialect, schema: seq<Definition>, workspace: string): seq<TableData> {
    seq(|schema|, i requires 0 <= i < |schema| => ExportTable(db, d, schema[i], workspace))
  }

  function Sealed(format: string, migration: string, source: Scope, tables: seq<TableData>): Bundle {
    Bundle(format, migration, source, tables, Digest(format, migration, source, tables))
  }

  /** A migration export: everything the scope can see, under its fingerprint. */
  function Export(db: Db, d: Dialect, schema: seq<Definition>, scope: Scope, migration: string): Bundle {
    Sealed(FORMAT, migration, scope, ExportTables(db, d, schema, scope.workspace))
  }

  function RowCount(tables: seq<TableData>): nat
    decreases |tables|
  {
    if tables == [] then 0 else RowCount(tables[..|tables| - 1]) + |tables[|tables| - 1].rows|
  }

  // ----- validation -----

  predicate ValidTable(def: Definition, t: TableData, workspace: string) {
    && t.name == def.name && t.columns == ColumnNames(def)
    && forall i :: 0 <= i < |t.rows| ==> InWorkspace(def, t.rows[i], workspace)
  }

  predicate ValidBundle(schema: seq<Definition>, b: Bundle, target: Scope) {
    && b.format == FORMAT && b.source.workspace != "" && b.source.application != "" && b.source == target
    && |b.tables| == |schema| && (forall i :: 0 <= i < |schema| ==> ValidTable(schema[i], b.tables[i], target.workspace))
    && b.fingerprint == Digest(b.format, b.migration, b.source, b.tables)
  }

  /** Table names and each table's column names are distinct, and workspace columns hold text. */
  predicate ValidSchema(schema: seq<Definition>) {
    && (forall i, j :: 0 <= i < j < |schema| ==> schema[i].name != schema[j].name)
    && (forall i, j, k :: 0 <= i < |schema| && 0 <= j < k < |schema[i].columns| ==> schema[i].columns[j].name != schema[i].columns[k].name)
    && (forall i, j :: 0 <= i < |schema| && 0 <= j < |schema[i].columns| && schema[i].columns[j].name == WORKSPACE ==>
          schema[i].columns[j].kind.TextColumn?)
  }

  // ----- constraints -----

  /** NOT NULL, and whatever length or range the dialect gives the column. */
  predicate CellFits(d: Dialect, c: Column, cell: Cell) {
    if cell.Null? then c.nullable else d.fits(c.kind, cell)
  }

  predicate RowFits(d: Dialect, def: Definition, r: DbRow) {
    |r| == |def.columns| && forall i :: 0 <= i < |r| ==> CellFits(d, def.columns[i], r[i])
  }

  /** Equal in every column of a key; nulls equal nothing. */
  predicate SameKey(def: Definition, key: set<string>, r: DbRow, s: DbRow) {
    forall i :: 0 <= i < |def.columns| && def.columns[i].name in key ==> i < |r| && i < |s| && r[i] == s[i] && !r[i].Null?
  }

  /** No unique index lets both rows in. */
  predicate Clash(def: Definition, r: DbRow, s: DbRow) {
    exists k :: 0 <= k < |def.keys| && SameKey(def, def.keys[k], r, s)
  }

  predicate Taken(def: Definition, stored: seq<DbRow>, r: DbRow) {
    exists i :: 0 <= i < |stored| && Clash(def, stored[i], r)
  }

  // ----- import -----

  /** The INSERT of one row: refused by NOT NULL or by a unique index. */
  function InsertOne(d: Dialect, def: Definition, stored: seq<DbRow>, r: DbRow): Result<seq<DbRow>> {
    if !RowFits(d, def, r) then Err(Invalid) else if Taken(def, stored, r) then Err(Duplicate) else Ok(stored + [r])
  }

  /** Appends the rows of one table, or fails on the first cell that does not decode or row that is refused. */
  function InsertAll(d: Dialect, def: Definition, stored: seq<DbRow>, rows: seq<JsonRow>, workspace: string): Result<seq<DbRow>>
    requires forall i :: 0 <= i < |rows| ==> |rows[i]| == |def.columns|
    decreases |rows|
  {
    if rows == [] then Ok(stored)
    else
      match InsertAll(d, def, stored, rows[..|rows| - 1], workspace)
      case Err(e) => Err(e)
      case Ok(more) =>
        match DecodeRow(d, def, rows[|rows| - 1], workspace)
        case Err(e) => Err(e)
        case Ok(row) => InsertOne(d, def, more, row)
  }

  function InsertTables(db: Db, d: Dialect, schema: seq<Definition>, tables: seq<TableData>, workspace: string): Result<Db>
    requires |tables| == |schema| && forall i :: 0 <= i < |schema| ==> ValidTable(schema[i], tables[i], workspace)
    decreases |tables|
  {
    if tables == [] then Ok(db)
    else
      var last := |tables| - 1;
      assert ValidTable(schema[last], tables[last], workspace);
      match InsertTables(db, d, schema[..last], tables[..last], workspace)
      case Err(e) => Err(e)
      case Ok(more) =>
        match InsertAll(d, schema[last], RowsOf(more, schema[last].name), tables[last].rows, workspace)
        case Err(e) => Err(e)
        case Ok(rows) => Ok(more[schema[last].name := rows])
  }

  /** The rows are committed before the reconciliation, which can only report. */
  function Import(db: Db, d: Dialect, schema: seq<Definition>, target: Scope, b: Bundle): (Db, Result<Receipt>) {
    if !ValidBundle(schema, b, target) then (db, Err(Invalid))
    else
      var existing := Export(db, d, schema, target, b.migration);
      if RowCount(existing.tables) > 0 then
        if existing.fingerprint != b.fingerprint then (db, Err(Conflict)) else (db, Ok(Receipt(RowCount(existing.tables), true)))
      else
        match InsertTables(db, d, schema, b.tables, target.workspace)
        case Err(e) => (db, Err(e))
        case Ok(db') =>
          var imported := Export(db', d, schema, target, b.migration);
          if imported.fingerprint != b.fingerprint || RowCount(imported.tables) != RowCount(b.tables) then (db', Err(Conflict))
          else (db', Ok(Receipt(RowCount(b.tables), false)))
  }

  class PortableStore {
    const dialect: Dialect
    const schema: seq<Definition>
    var tables: Db

    constructor (dialect: Dialect, schema: seq<Definition>)
      ensures this.dialect == dialect && this.schema == schema && tables == map[]
    {
      this.dialect, this.schema := dialect, schema;
      tables := map[];
    }

    method ExportPortable(scope: Scope, migration: string) returns (bundle: Bundle, count: nat)
      ensures bundle == Export(tables, dialect, schema, scope, migration) && count == RowCount(bundle.tables)
    {
      var exported: seq<TableData> := [];
      count := 0;
      for i := 0 to |schema|
        invariant exported == ExportTables(tables, dialect, schema, scope.workspace)[..i] && count == RowCount(exported)
      {
        var def := schema[i];
        var rows := Selected(def, RowsOf(tables, def.name), scope.workspace);
        var encoded: seq<JsonRow> := [];
        for j := 0 to |rows|
          invariant encoded == EncodeRows(rows)[..j]
        {
          encoded := encoded + [EncodeRow(rows[j])];
        }
        assert encoded == EncodeRows(rows);
        var t := TableData(def.name, ColumnNames(def), SortRows(dialect.less, encoded));
        assert (exported + [t])[..|exported|] == exported;
        exported := exported + [t];
        count := count + |t.rows|;
      }
      assert exported == ExportTables(tables, dialect, schema, scope.workspace);
      bundle := Sealed(FORMAT, migration, scope, exported);
    }

    /** One transaction over every table of a valid bundle. */
    method InsertBundle(data: seq<TableData>, workspace: string) returns (result: Result<()>)
      requires |data| == |schema| && forall i :: 0 <= i < |schema| ==> ValidTable(schema[i], data[i], workspace)
      modifies this
      ensures match InsertTables(old(tables), dialect, schema, data, workspace)
              case Ok(more) => result == Ok(()) && tables == more
              case Err(e) => result == Err(e) && tables == old(tables)
    {
      hide InsertAll;
      var before := tables;
      for i := 0 to |schema|
        invariant InsertTables(before, dialect, schema[..i], data[..i], workspace) == Ok(tables)
      {
        assert schema[..i + 1][..i] == schema[..i] && data[..i + 1][..i] == data[..i];
        assert ValidTable(schema[i], data[i], workspace);
        var inserted := InsertTableRows(schema[i], data[i].rows, workspace);
        if inserted.Err? {
          InsertStopsAt(before, dialect, schema, data, workspace, i + 1);
          tables := before;
          return Err(inserted.error);
        }
      }
      assert schema[..|schema|] == schema && data[..|schema|] == data;
      return Ok(());
    }

    method ImportPortable(target: Scope, bundle: Bundle) returns (result: Result<Receipt>)
      modifies this
      ensures (tables, result) == Import(old(tables), dialect, schema, target, bundle)
    {
      hide InsertTables, Export, RowCount, ValidTable;
      if !ValidBundle(schema, bundle, target) {
        return Err(Invalid);
      }
      var existing, present := ExportPortable(target, bundle.migration);
      if present > 0 {
        if existing.fingerprint != bundle.fingerprint {
          return Err(Conflict);
        }
        return Ok(Receipt(present, true));
      }
      var inserted := InsertBundle(bundle.tables, target.workspace);
      if inserted.Err? {
        return Err(inserted.error);
      }
      var imported, count := ExportPortable(target, bundle.migration);
      if imported.fingerprint != bundle.fingerprint || count != RowCount(bundle.tables) {
        return Err(Conflict);
      }
      return Ok(Receipt(RowCount(bundle.tables), false));
    }

    method InsertTableRows(def: Definition, rows: seq<JsonRow>, workspace: string) returns (result: Result<()>)
      requires forall i :: 0 <= i < |rows| ==> |rows[i]| == |def.columns|
      modifies this
      ensures match InsertAll(dialect, def, RowsOf(old(tables), def.name), rows, workspace)
              case Ok(more) => result == Ok(()) && tables == old(tables)[def.name := more]
              case Err(e) => result == Err(e)
    {
      hide DecodeRow, RowFits, Taken;
      var stored := RowsOf(tables, def.name);
      for j := 0 to |rows|
        invariant InsertAll(dialect, def, RowsOf(old(tables), def.name), rows[..j], workspace) == Ok(stored)
        invariant tables == old(tables)
      {
        assert rows[..j + 1][..j] == rows[..j];
        var row := DecodeRow(dialect, def, rows[j], workspace);
        if row.Err? {
          RowsStopAt(dialect, def, RowsOf(old(tables), def.name), rows, workspace, j + 1);
          return Err(row.error);
        }
        if !RowFits(dialect, def, row.value) || Taken(def, stored, row.value) {
          RowsStopAt(dialect, def, RowsOf(old(tables), def.name), rows, workspace, j + 1);
          return Err(if RowFits(dialect, def, row.value) then Duplicate else Invalid);
        }
        stored := stored + [row.value];
      }
      assert rows[..|rows|] == rows;
      tables := tables[def.name := stored];
      return Ok(());
    }
  }

  lemma {:induction false} RowsStopAt(d: Dialect, def: Definition, stored: seq<DbRow>, rows: seq<JsonRow>, workspace: string, n: nat)
    requires n <= |rows| && forall i :: 0 <= i < |rows| ==> |rows[i]| == |def.columns|
    requires InsertAll(d, def, stored, rows[..n], workspace).Err?
    ensures InsertAll(d, def, stored, rows, workspace) == InsertAll(d, def, stored, rows[..n], workspace)
    decreases |rows| - n
  {
    if n == |rows| {
      assert rows[..n] == rows;
    } else {
      assert rows[..n + 1][..n] == rows[..n];
      RowsStopAt(d, def, stored, rows, workspace, n + 1);
    }
  }

  lemma {:induction false} InsertStopsAt(db: Db, d: Dialect, schema: seq<Definition>, tables: seq<TableData>, workspace: string, n: nat)
    requires |tables| == |schema| && n <= |tables| && forall i :: 0 <= i < |schema| ==> ValidTable(schema[i], tables[i], workspace)
    requires InsertTables(db, d, schema[..n], tables[..n], workspace).Err?
    ensures InsertTables(db, d, schema, tables, workspace) == InsertTables(db, d, schema[..n], tables[..n], workspace)
    decreases |tables| - n
  {
    if n == |tables| {
      assert tables[..n] == tables && schema[..n] == schema;
    } else {
      assert tables[..n + 1][..n] == tables[..n] && schema[..n + 1][..n] == schema[..n];
      InsertStopsAt(db, d, schema, tables, workspace, n + 1);
    }
  }
}
