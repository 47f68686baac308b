/**
 * Workspace migration on one binding: a read-write lock, a control row, guarded writers, exclusive
 * commands, and an export that takes no lock at all.
 */
module Migration {
  import opened Prelude

  /** How many tables a bundle has; an export reads them one after the other. */
  const TABLES: nat := 15

  type TableIndex = i: nat | i < TABLES witness 0

  datatype Row = Row(table: TableIndex, key: string, leaseOwner: string)

  type Rows = set<Row>

  /** A bundle's fingerprint, kept as what it hashes; `Text` is any other text a caller may send. */
  datatype Fingerprint = Blank | Of(migration: string, rows: Rows) | Text(text: string)

  datatype Role = Source | Target
  datatype State = Active | Frozen | Imported | Cutover
  datatype Control = NoControl | Control(migration: string, role: Role, state: State, fingerprint: Fingerprint)

  function StateOf(c: Control): State {
    if c.NoControl? then Active else c.state
  }

  /** The guarded UPDATE behind fingerprint recording, activation and rollback. */
  function Transition(c: Control, migration: string, role: Role, from: State, to: State, fingerprint: Fingerprint): (Control, Result<()>) {
    if migration == "" || fingerprint.Blank? then (c, Err(Invalid))
    else if c.Control? && c.migration == migration && c.role == role && c.state == from && (c.fingerprint.Blank? || c.fingerprint == fingerprint) then
      (Control(migration, role, to, fingerprint), Ok(()))
    else (c, Err(Conflict))
  }

  function Freeze(c: Control, migration: string): (Control, Result<()>) {
    if migration == "" then (c, Err(Invalid))
    else if c.Control? && c.state == Frozen && c.role == Source && c.migration == migration then (c, Ok(()))
    else if StateOf(c) != Active then (c, Err(Conflict))
    else (Control(migration, Source, Frozen, Blank), Ok(()))
  }

  /** The row is inserted, so it must not exist: an active row left by a rollback refuses it too. */
  function RecordImported(c: Control, migration: string, fingerprint: Fingerprint): (Control, Result<()>) {
    if migration == "" || fingerprint.Blank? then (c, Err(Invalid))
    else if StateOf(c) != Active then (c, Err(Conflict))
    else if c.Control? then (c, Err(Duplicate))
    else (Control(migration, Target, Imported, fingerprint), Ok(()))
  }

  class ControlStore {
    var control: Control

    constructor ()
      ensures control == NoControl
    {
      control := NoControl;
    }

    method FreezeMigration(migration: string) returns (result: Result<()>)
      modifies this
      ensures (control, result) == Freeze(old(control), migration)
      ensures result.Ok? <==>
                && migration != ""
                && var c := old(control);
                   c == NoControl || c.state == Active || (c.state == Frozen && c.role == Source && c.migration == migration)
      ensures result.Ok? ==> control == (if old(control).Control? && old(control).state == Frozen then old(control) else Control(migration, Source, Frozen, Blank))
      ensures result.Err? ==> control == old(control) && result.error == if migration == "" then Invalid else Conflict
    {
      if migration == "" {
        return Err(Invalid);
      }
      if control.Control? && control.state == Frozen && control.role == Source && control.migration == migration {
        return Ok(());
      }
      if control.Control? && control.state != Active {
        return Err(Conflict);
      }
      control := Control(migration, Source, Frozen, Blank);
      return Ok(());
    }

    method RecordImportedMigration(migration: string, fingerprint: Fingerprint) returns (result: Result<()>)
      modifies this
      ensures (control, result) == RecordImported(old(control), migration, fingerprint)
      ensures result.Ok? <==> migration != "" && fingerprint != Blank && old(control) == NoControl
      ensures control == if result.Ok? then Control(migration, Target, Imported, fingerprint) else old(control)
      ensures result.Err? ==>
                result.error == if migration == "" || fingerprint == Blank then Invalid else if old(control).state == Active then Duplicate else Conflict
    {
      if migration == "" || fingerprint.Blank? {
        return Err(Invalid);
      }
      if control.Control? {
        return Err(if control.state == Active then Duplicate else Conflict);
      }
      control := Control(migration, Target, Imported, fingerprint);
      return Ok(());
    }

    method TransitionMigration(migration: string, role: Role, from: State, to: State, fingerprint: Fingerprint) returns (result: Result<()>)
      modifies this
      ensures (control, result) == Transition(old(control), migration, role, from, to, fingerprint)
      ensures result.Ok? <==>
                && migration != "" && fingerprint != Blank
                && var c := old(control);
                   c.Control? && c.migration == migration && c.role == role && c.state == from && (c.fingerprint == Blank || c.fingerprint == fingerprint)
      ensures control == if result.Ok? then Control(migration, role, to, fingerprint) else old(control)
      ensures result.Err? ==> result.error == if migration == "" || fingerprint == Blank then Invalid else Conflict
    {
      if migration == "" || fingerprint.Blank? {
        return Err(Invalid);
      }
      if control.Control? && control.migration == migration && control.role == role && control.state == from
         && (control.fingerprint.Blank? || control.fingerprint == fingerprint) {
        control := control.(state := to, fingerprint := fingerprint);
        return Ok(());
      }
      return Err(Conflict);
    }
  }

  // ----- the binding as a machine -----

  datatype Command =
    | FreezeCommand(migration: string)
    | ActivateCommand(migration: string, fingerprint: Fingerprint)
    | RollbackCommand(migration: string, fingerprint: Fingerprint)
    | ImportCommand(migration: string, rows: Rows)

  /** `Reading` and `Writing` hold the shared lock, `Commanding` and `Importing` the exclusive one, an export none. */
  datatype Local =
    | Idle
    | Reading
    | Writing
    | Commanding(command: Command)
    | Importing(migration: string, rows: Rows)
    | Exporting(migration: string, read: Rows, next: nat)
    | Recording(migration: string, fingerprint: Fingerprint)

  datatype Binding = Binding(control: Control, rows: Rows, workers: map<nat, Local>)

  datatype Action =
    | BeginWrite(worker: nat)
    | CheckStatus(worker: nat)
    | Write(worker: nat, rows: Rows)
    | EndWrite(worker: nat)
    | Lock(worker: nat, command: Command)
    | Execute(worker: nat)
    | FinishImport(worker: nat)
    | StartExport(worker: nat)
    | ReadTable(worker: nat)
    | RecordFingerprint(worker: nat)
    | Abandon(worker: nat)

  const INITIAL := Binding(NoControl, {}, map[])

  function LocalOf(b: Binding, w: nat): Local {
    if w in b.workers then b.workers[w] else Idle
  }

  predicate Shared(l: Local) {
    l.Reading? || l.Writing?
  }

  predicate Exclusive(l: Local) {
    l.Commanding? || l.Importing?
  }

  predicate NoExclusive(b: Binding) {
    forall w :: w in b.workers ==> !Exclusive(b.workers[w])
  }

  predicate NoShared(b: Binding) {
    forall w :: w in b.workers ==> !Shared(b.workers[w])
  }

  function Part(rows: Rows, i: nat): Rows {
    set r | r in rows && r.table == i
  }

  /** The tables from `i` on. */
  function From(rows: Rows, i: nat): Rows {
    set r | r in rows && r.table >= i
  }

  predicate Quiescent(rows: Rows) {
    forall r :: r in rows ==> r.leaseOwner == ""
  }

  function Goes(b: Binding, w: nat, l: Local): Binding {
    b.(workers := b.workers[w := l])
  }

  function ExecuteCommand(b: Binding, w: nat, c: Command): Binding {
    match c
    case FreezeCommand(migration) => Goes(b.(control := Freeze(b.control, migration).0), w, Idle)
    case ActivateCommand(migration, fingerprint) =>
      Goes(b.(control := Transition(b.control, migration, Target, Imported, Cutover, fingerprint).0), w, Idle)
    case RollbackCommand(migration, fingerprint) =>
      Goes(b.(control := Transition(b.control, migration, Source, Frozen, Active, fingerprint).0), w, Idle)
    case ImportCommand(migration, rows) =>
      if b.control == Control(migration, Target, Imported, Of(migration, rows)) then Goes(b, w, Idle)
      else if b.rows != {} && b.rows != rows then Goes(b, w, Idle)
      else Goes(b.(rows := rows), w, Importing(migration, rows))
  }

  function Step(b: Binding, a: Action): Binding {
    var l := LocalOf(b, a.worker);
    match a
    case BeginWrite(w) => if l.Idle? && NoExclusive(b) then Goes(b, w, Reading) else b
    case CheckStatus(w) =>
      if l.Reading? then Goes(b, w, if StateOf(b.control) == Frozen || StateOf(b.control) == Imported then Idle else Writing) else b
    case Write(w, rows) => if l.Writing? then b.(rows := rows) else b
    case EndWrite(w) => if l.Writing? then Goes(b, w, Idle) else b
    case Lock(w, command) => if l.Idle? && NoExclusive(b) && NoShared(b) then Goes(b, w, Commanding(command)) else b
    case Execute(w) => if l.Commanding? then ExecuteCommand(b, w, l.command) else b
    case FinishImport(w) =>
      if l.Importing? then Goes(b.(control := RecordImported(b.control, l.migration, Of(l.migration, l.rows)).0), w, Idle) else b
    case StartExport(w) =>
      if l.Idle? && b.control.Control? && b.control.role == Source && b.control.state == Frozen && Quiescent(b.rows)
      then Goes(b, w, Exporting(b.control.migration, {}, 0)) else b
    case ReadTable(w) =>
      if l.Exporting? then
        var read := l.read + Part(b.rows, l.next);
        Goes(b, w, if l.next + 1 < TABLES then Exporting(l.migration, read, l.next + 1) else Recording(l.migration, Of(l.migration, read)))
      else b
    case RecordFingerprint(w) =>
      if l.Recording? then Goes(b.(control := Transition(b.control, l.migration, Source, Frozen, Frozen, l.fingerprint).0), w, Idle) else b
    case Abandon(w) => Goes(b, w, Idle)
  }

  function Run(b: Binding, actions: seq<Action>): Binding
    decreases |actions|
  {
    if actions == [] then b else Run(Step(b, actions[0]), actions[1..])
  }

  // ----- invariants -----

  /** The lock's discipline, and the freeze: nobody is writing while the workspace is frozen or imported. */
  predicate Inv(b: Binding) {
    && (forall v, w :: v in b.workers && w in b.workers && v != w && Exclusive(b.workers[v]) ==>
          !Exclusive(b.workers[w]) && !Shared(b.workers[w]))
    && (b.control.Control? ==> b.control.migration != "")
    && (StateOf(b.control) == Frozen || StateOf(b.control) == Imported ==> forall w :: w in b.workers ==> !b.workers[w].Writing?)
  }

  lemma ExecuteKeepsInv(b: Binding, w: nat)
    requires Inv(b) && LocalOf(b, w).Commanding?
    ensures Inv(ExecuteCommand(b, w, LocalOf(b, w).command))
  {
  }

  lemma StepKeepsInv(b: Binding, a: Action)
    requires Inv(b)
    ensures Inv(Step(b, a))
  {
    hide ExecuteCommand;
    if a.Execute? && LocalOf(b, a.worker).Commanding? {
      ExecuteKeepsInv(b, a.worker);
    }
  }

  lemma {:induction false} RunKeepsInv(b: Binding, actions: seq<Action>)
    requires Inv(b)
    ensures Inv(Run(b, actions))
    decreases |actions|
  {
    hide Step, Inv;
    if actions != [] {
      StepKeepsInv(b, actions[0]);
      RunKeepsInv(Step(b, actions[0]), actions[1..]);
    }
  }

  // ----- main results -----

  /** No guarded writer is in flight in a frozen or imported workspace, under any interleaving. */
  lemma NoWriterWhileFrozen(actions: seq<Action>, w: nat)
    requires var b := Run(INITIAL, actions); StateOf(b.control) == Frozen || StateOf(b.control) == Imported
    ensures !LocalOf(Run(INITIAL, actions), w).Writing?
  {
    RunKeepsInv(INITIAL, actions);
  }

  /** An import that is about to run on an empty workspace with something to insert. */
  predicate ImportsIntoEmpty(b: Binding, a: Action) {
    && a.Execute? && LocalOf(b, a.worker).Commanding? && LocalOf(b, a.worker).command.ImportCommand?
    && b.rows == {} && LocalOf(b, a.worker).command.rows != {}
    && b.control != Control(LocalOf(b, a.worker).command.migration, Target, Imported,
                            Of(LocalOf(b, a.worker).command.migration, LocalOf(b, a.worker).command.rows))
  }

  /** One step from a frozen or imported workspace changes its tables exactly when it imports into an empty one. */
  lemma FrozenStepChangesIff(b: Binding, a: Action)
    requires Inv(b) && (StateOf(b.control) == Frozen || StateOf(b.control) == Imported)
    ensures Step(b, a).rows != b.rows <==> ImportsIntoEmpty(b, a)
  {
  }

  predicate RollsBack(b: Binding, a: Action) {
    StateOf(b.control) == Frozen && StateOf(Step(b, a).control) == Active
  }

  predicate Stays(b: Binding, actions: seq<Action>)
    decreases |actions|
  {
    actions != [] ==> !RollsBack(b, actions[0]) && !ImportsIntoEmpty(b, actions[0]) && Stays(Step(b, actions[0]), actions[1..])
  }

  lemma FrozenStepStays(b: Binding, a: Action)
    requires Inv(b) && StateOf(b.control) == Frozen && !RollsBack(b, a)
    ensures StateOf(Step(b, a).control) == Frozen
    ensures Step(b, a).control.migration == b.control.migration && Step(b, a).control.role == b.control.role
  {
  }

  /** From a freeze until the next rollback, as long as nothing is imported into an empty workspace, the tables do not change. */
  lemma {:induction false} FrozenTablesStay(b: Binding, actions: seq<Action>)
    requires Inv(b) && StateOf(b.control) == Frozen && Stays(b, actions)
    ensures var b' := Run(b, actions);
      && b'.rows == b.rows && StateOf(b'.control) == Frozen
      && b'.control.migration == b.control.migration && b'.control.role == b.control.role
    decreases |actions|
  {
    hide Step, Inv, RollsBack, ImportsIntoEmpty;
    if actions != [] {
      StepKeepsInv(b, actions[0]);
      FrozenStepChangesIff(b, actions[0]);
      FrozenStepStays(b, actions[0]);
      FrozenTablesStay(Step(b, actions[0]), actions[1..]);
    }
  }

  /** The exception is real: an import command changes the tables of a frozen, empty source and is refused only afterwards. */
  lemma ImportChangesFrozenSource()
    ensures var actions := [Lock(0, FreezeCommand("m")), Execute(0), Lock(0, ImportCommand("n", {Row(0, "r", "")})), Execute(0), FinishImport(0)];
      && StateOf(Run(INITIAL, actions[..2]).control) == Frozen && Run(INITIAL, actions[..2]).rows == {}
      && StateOf(Run(INITIAL, actions).control) == Frozen && Run(INITIAL, actions).rows == {Row(0, "r", "")}
  {
    var rows := {Row(0, "r", "")};
    var b1 := Step(INITIAL, Lock(0, FreezeCommand("m")));
    var b2 := Step(b1, Execute(0));
    var b3 := Step(b2, Lock(0, ImportCommand("n", rows)));
    var b4 := Step(b3, Execute(0));
    var b5 := Step(b4, FinishImport(0));
    assert Row(0, "r", "") in rows;
    RunTwo(INITIAL, Lock(0, FreezeCommand("m")), Execute(0));
    assert [Lock(0, FreezeCommand("m")), Execute(0), Lock(0, ImportCommand("n", rows)), Execute(0), FinishImport(0)][..2]
        == [Lock(0, FreezeCommand("m")), Execute(0)];
    RunFive(INITIAL, Lock(0, FreezeCommand("m")), Execute(0), Lock(0, ImportCommand("n", rows)), Execute(0), FinishImport(0));
  }

  lemma RunTwo(b: Binding, a1: Action, a2: Action)
    ensures Run(b, [a1, a2]) == Step(Step(b, a1), a2)
  {
    hide Step;
    assert [a1, a2][1..] == [a2] && [a2][1..] == [];
    assert Run(Step(b, a1), [a2]) == Run(Step(Step(b, a1), a2), []);
  }

  lemma RunFive(b: Binding, a1: Action, a2: Action, a3: Action, a4: Action, a5: Action)
    ensures Run(b, [a1, a2, a3, a4, a5]) == Step(Step(Step(Step(Step(b, a1), a2), a3), a4), a5)
  {
    hide Step;
    assert [a1, a2, a3, a4, a5][1..] == [a2, a3, a4, a5] && [a2, a3, a4, a5][1..] == [a3, a4, a5] && [a3, a4, a5][1..] == [a4, a5];
    RunTwo(Step(Step(Step(b, a1), a2), a3), a4, a5);
    assert Run(Step(Step(b, a1), a2), [a3, a4, a5]) == Run(Step(Step(Step(b, a1), a2), a3), [a4, a5]);
    assert Run(Step(b, a1), [a2, a3, a4, a5]) == Run(Step(Step(b, a1), a2), [a3, a4, a5]);
  }

  // ----- how the control row may move -----

  /** The worker holds the exclusive lock for this command and is about to run it. */
  predicate Runs(b: Binding, a: Action, c: Command) {
    a.Execute? && a.worker in b.workers && b.workers[a.worker] == Commanding(c)
  }

  /** A caller names the recorded migration, and the recorded fingerprint if there is one. */
  predicate Names(c: Control, migration: string, fingerprint: Fingerprint) {
    c.Control? && migration == c.migration != "" && fingerprint != Blank && (c.fingerprint == Blank || c.fingerprint == fingerprint)
  }

  /** A workspace becomes frozen exactly by a freeze that runs while it is active: as a source, under the named migration, without a fingerprint. */
  lemma FrozenIff(b: Binding, a: Action)
    requires !(b.control.Control? && b.control.state == Frozen)
    ensures var c := Step(b, a).control;
      && (c.Control? && c.state == Frozen <==>
            exists m :: m != "" && Runs(b, a, FreezeCommand(m)) && (b.control == NoControl || b.control.state == Active))
      && (c.Control? && c.state == Frozen ==>
            Runs(b, a, FreezeCommand(c.migration)) && c.role == Source && c.fingerprint == Blank && Step(b, a).rows == b.rows)
  {
    if a.Execute? && a.worker in b.workers && b.workers[a.worker].Commanding? && b.workers[a.worker].command.FreezeCommand? {
      assert Runs(b, a, FreezeCommand(b.workers[a.worker].command.migration));
    }
  }

  /** A workspace becomes imported exactly when an import finishes that names a migration and finds no control row. */
  lemma ImportedIff(b: Binding, a: Action)
    requires !(b.control.Control? && b.control.state == Imported)
    ensures var c := Step(b, a).control;
      && (c.Control? && c.state == Imported <==>
            a.FinishImport? && a.worker in b.workers && b.workers[a.worker].Importing? && b.workers[a.worker].migration != "" && b.control == NoControl)
      && (c.Control? && c.state == Imported ==>
            && c == Control(b.workers[a.worker].migration, Target, Imported, Of(b.workers[a.worker].migration, b.workers[a.worker].rows))
            && Step(b, a).rows == b.rows)
  {
  }

  /**
   * A workspace is cut over exactly when an activation that holds the lock names the migration and the
   * fingerprint of an imported target; then only the state changes.
   */
  lemma CutoverIff(b: Binding, a: Action)
    requires !(b.control.Control? && b.control.state == Cutover)
    ensures var c := Step(b, a).control;
      && (c.Control? && c.state == Cutover <==>
            exists m, f :: Runs(b, a, ActivateCommand(m, f)) && Names(b.control, m, f) && b.control.role == Target && b.control.state == Imported)
      && (c.Control? && c.state == Cutover ==>
            && c.migration == b.control.migration && c.role == Target
            && Runs(b, a, ActivateCommand(c.migration, c.fingerprint)) && (b.control.fingerprint != Blank ==> c.fingerprint == b.control.fingerprint)
            && Step(b, a) == Binding(c, b.rows, b.workers[a.worker := Idle]))
  {
    if a.Execute? && a.worker in b.workers && b.workers[a.worker].Commanding? && b.workers[a.worker].command.ActivateCommand? {
      assert Runs(b, a, ActivateCommand(b.workers[a.worker].command.migration, b.workers[a.worker].command.fingerprint));
    }
  }

  /** A frozen source becomes active again exactly by a rollback that names its migration, and its fingerprint if it has one. */
  lemma RolledBackIff(b: Binding, a: Action)
    requires b.control.Control? && b.control.state != Active
    ensures var c := Step(b, a).control;
      && c.Control?
      && (c.state == Active <==>
            exists m, f :: Runs(b, a, RollbackCommand(m, f)) && Names(b.control, m, f) && b.control.role == Source && b.control.state == Frozen)
      && (c.state == Active ==> c.migration == b.control.migration && c.role == Source && Step(b, a).rows == b.rows)
  {
    if a.Execute? && a.worker in b.workers && b.workers[a.worker].Commanding? && b.workers[a.worker].command.RollbackCommand? {
      assert Runs(b, a, RollbackCommand(b.workers[a.worker].command.migration, b.workers[a.worker].command.fingerprint));
    }
  }

  /** A command gets the lock exactly when nobody reads, writes or commands; a writer when nobody commands, and it then writes unless frozen or imported. */
  lemma LockIff(b: Binding, w: nat, command: Command)
    requires LocalOf(b, w).Idle?
    ensures LocalOf(Step(b, Lock(w, command)), w) == Commanding(command) <==>
              forall v :: v in b.workers ==> !b.workers[v].Reading? && !b.workers[v].Writing? && !b.workers[v].Commanding? && !b.workers[v].Importing?
    ensures LocalOf(Step(b, BeginWrite(w)), w) == Reading <==>
              forall v :: v in b.workers ==> !b.workers[v].Commanding? && !b.workers[v].Importing?
  {
  }

  lemma WritesIff(b: Binding, w: nat)
    requires LocalOf(b, w).Reading?
    ensures LocalOf(Step(b, CheckStatus(w)), w) == Writing <==>
              b.control == NoControl || b.control.state == Active || b.control.state == Cutover
    ensures Step(b, CheckStatus(w)).rows == b.rows && Step(b, CheckStatus(w)).control == b.control
  {
  }

  /** An import that holds the lock stores its rows exactly when the workspace is empty or already holds them, unless it is on record; else nothing changes. */
  lemma ImportStoresIff(b: Binding, w: nat, migration: string, rows: Rows)
    requires LocalOf(b, w) == Commanding(ImportCommand(migration, rows))
    ensures var b' := Step(b, Execute(w)); var onRecord := b.control == Control(migration, Target, Imported, Of(migration, rows));
      && b'.control == b.control
      && (LocalOf(b', w) == Importing(migration, rows) <==> !onRecord && (b.rows == {} || b.rows == rows))
      && b'.rows == (if LocalOf(b', w).Importing? then rows else b.rows)
      && (!LocalOf(b', w).Importing? ==> LocalOf(b', w).Idle?)
  {
  }

  /** Rows move into an empty workspace, which is then activated: imported, cut over, and cut over for good. */
  lemma ImportedAndActivated(rows: Rows, later: seq<Action>)
    ensures var mark := Of("m", rows);
      var imported := Run(INITIAL, [Lock(1, ImportCommand("m", rows)), Execute(1), FinishImport(1)]);
      var active := Run(imported, [Lock(1, ActivateCommand("m", mark)), Execute(1)]);
      && imported.control == Control("m", Target, Imported, mark) && imported.rows == rows
      && active.control == Control("m", Target, Cutover, mark) && active.rows == rows
      && Run(active, later).control == active.control
  {
    var mark := Of("m", rows);
    var a1, a2, a3 := Lock(1, ImportCommand("m", rows)), Execute(1), FinishImport(1);
    var b1 := Step(INITIAL, a1);
    assert b1 == Binding(NoControl, {}, map[1 := Commanding(ImportCommand("m", rows))]);
    var b2 := Step(b1, a2);
    assert b2 == Binding(NoControl, rows, map[1 := Importing("m", rows)]);
    var b3 := Step(b2, a3);
    assert b3 == Binding(Control("m", Target, Imported, mark), rows, map[1 := Idle]);
    assert Run(INITIAL, [a1, a2, a3]) == b3 by {
      assert [a1, a2, a3][1..] == [a2, a3];
      RunTwo(b1, a2, a3);
    }
    var b4 := Step(b3, Lock(1, ActivateCommand("m", mark)));
    assert b4 == Binding(b3.control, rows, map[1 := Commanding(ActivateCommand("m", mark))]);
    var b5 := Step(b4, Execute(1));
    RunTwo(b3, Lock(1, ActivateCommand("m", mark)), Execute(1));
    CutoverIsAbsorbing(b5, later);
  }

  lemma CutoverStep(b: Binding, a: Action)
    requires StateOf(b.control) == Cutover
    ensures Step(b, a).control == b.control
  {
  }

  /** Cutover is final: no command changes the control row again. */
  lemma {:induction false} CutoverIsAbsorbing(b: Binding, actions: seq<Action>)
    requires StateOf(b.control) == Cutover
    ensures Run(b, actions).control == b.control
    decreases |actions|
  {
    hide Step;
    if actions != [] {
      CutoverStep(b, actions[0]);
      CutoverIsAbsorbing(Step(b, actions[0]), actions[1..]);
    }
  }

  predicate Refreezes(b: Binding, a: Action) {
    StateOf(b.control) == Active && StateOf(Step(b, a).control) == Frozen
  }

  predicate NoRefreeze(b: Binding, actions: seq<Action>)
    decreases |actions|
  {
    actions != [] ==> !Refreezes(b, actions[0]) && NoRefreeze(Step(b, actions[0]), actions[1..])
  }

  lemma PrintStep(b: Binding, a: Action)
    requires b.control.Control? && b.control.fingerprint != Blank && !Refreezes(b, a)
    ensures Step(b, a).control.Control? && Step(b, a).control.fingerprint == b.control.fingerprint
  {
  }

  /** A recorded fingerprint stays until the workspace is frozen anew. */
  lemma {:induction false} FingerprintStays(b: Binding, actions: seq<Action>)
    requires b.control.Control? && b.control.fingerprint != Blank && NoRefreeze(b, actions)
    ensures Run(b, actions).control.Control? && Run(b, actions).control.fingerprint == b.control.fingerprint
    decreases |actions|
  {
    hide Step, Refreezes;
    if actions != [] {
      PrintStep(b, actions[0]);
      FingerprintStays(Step(b, actions[0]), actions[1..]);
    }
  }

  // ----- exports -----

  lemma ExportStepStays(b: Binding, a: Action, w: nat)
    requires a.worker != w
    ensures LocalOf(Step(b, a), w) == LocalOf(b, w)
  {
  }

  lemma {:induction false} OthersLeaveLocal(b: Binding, actions: seq<Action>, w: nat)
    requires forall i :: 0 <= i < |actions| ==> actions[i].worker != w
    ensures LocalOf(Run(b, actions), w) == LocalOf(b, w)
    decreases |actions|
  {
    hide Step;
    if actions != [] {
      ExportStepStays(b, actions[0], w);
      OthersLeaveLocal(Step(b, actions[0]), actions[1..], w);
    }
  }

  predicate FrozenUnder(b: Binding, migration: string) {
    b.control.Control? && b.control.migration == migration && b.control.role == Source && b.control.state == Frozen
  }

  /** Before reading each table, others do what the next gap says. */
  function ReadOn(b: Binding, w: nat, gaps: seq<seq<Action>>): Binding
    decreases |gaps|
  {
    if gaps == [] then b else ReadOn(Step(Run(b, gaps[0]), ReadTable(w)), w, gaps[1..])
  }

  /** What such an export puts together: every table as it is when its turn comes. */
  function Composed(b: Binding, w: nat, gaps: seq<seq<Action>>, i: nat): Rows
    decreases |gaps|
  {
    if gaps == [] then {} else Part(Run(b, gaps[0]).rows, i) + Composed(Step(Run(b, gaps[0]), ReadTable(w)), w, gaps[1..], i + 1)
  }

  function Trace(w: nat, gaps: seq<seq<Action>>): seq<Action> {
    if gaps == [] then [] else gaps[0] + ([ReadTable(w)] + Trace(w, gaps[1..]))
  }

  predicate Others(gaps: seq<seq<Action>>, w: nat) {
    forall i, j :: 0 <= i < |gaps| && 0 <= j < |gaps[i]| ==> gaps[i][j].worker != w
  }

  predicate Starts(b: Binding, w: nat) {
    LocalOf(b, w).Idle? && b.control.Control? && b.control.role == Source && b.control.state == Frozen && Quiescent(b.rows)
  }

  lemma {:induction false} ReadFacts(b: Binding, w: nat, gaps: seq<seq<Action>>, m: string, read: Rows, i: nat)
    requires LocalOf(b, w) == Exporting(m, read, i) && |gaps| > 0 && i + |gaps| == TABLES && Others(gaps, w)
    ensures LocalOf(ReadOn(b, w, gaps), w) == Recording(m, Of(m, read + Composed(b, w, gaps, i)))
    decreases |gaps|
  {
    hide Run, Part;
    OthersLeaveLocal(b, gaps[0], w);
    var here := Run(b, gaps[0]);
    var next := Step(here, ReadTable(w));
    if |gaps| == 1 {
      assert gaps[1..] == [];
      assert Composed(b, w, gaps, i) == Part(here.rows, i);
    } else {
      ReadFacts(next, w, gaps[1..], m, read + Part(here.rows, i), i + 1);
      assert read + Part(here.rows, i) + Composed(next, w, gaps[1..], i + 1) == read + Composed(b, w, gaps, i);
    }
  }

  /** Where an export stands before its last step. */
  function Pending(b: Binding, w: nat, gaps: seq<seq<Action>>, later: seq<Action>): Binding {
    Run(ReadOn(Step(b, StartExport(w)), w, gaps), later)
  }

  lemma PendingFacts(b: Binding, w: nat, gaps: seq<seq<Action>>, later: seq<Action>)
    requires Starts(b, w) && |gaps| == TABLES && Others(gaps, w) && forall i :: 0 <= i < |later| ==> later[i].worker != w
    ensures var m := b.control.migration;
      LocalOf(Pending(b, w, gaps, later), w) == Recording(m, Of(m, Composed(Step(b, StartExport(w)), w, gaps, 0)))
  {
    hide Run, Composed, ReadOn;
    var nothing: Rows := {};
    var composed := Composed(Step(b, StartExport(w)), w, gaps, 0);
    ReadFacts(Step(b, StartExport(w)), w, gaps, b.control.migration, nothing, 0);
    assert nothing + composed == composed;
    OthersLeaveLocal(ReadOn(Step(b, StartExport(w)), w, gaps), later, w);
  }

  /** An export starts exactly on a frozen source without leases, and an export that has read its tables records their fingerprint there. */
  lemma ExportStartsIff(b: Binding, w: nat)
    requires LocalOf(b, w).Idle?
    ensures LocalOf(Step(b, StartExport(w)), w).Exporting? <==>
              b.control.Control? && b.control.role == Source && b.control.state == Frozen && forall r :: r in b.rows ==> r.leaseOwner == ""
    ensures LocalOf(Step(b, StartExport(w)), w).Exporting? ==> LocalOf(Step(b, StartExport(w)), w) == Exporting(b.control.migration, {}, 0)
  {
  }

  /**
   * Whatever others do before each table is read and before the fingerprint is recorded, an export records
   * the fingerprint of other rows than the current ones exactly when the source is then frozen under the
   * migration that was read, with no other fingerprint on record, and the bundle put together from the tables
   * as they were is not what is stored.
   */
  lemma ExportRecordsStaleIff(b: Binding, w: nat, gaps: seq<seq<Action>>, later: seq<Action>)
    requires Starts(b, w) && |gaps| == TABLES && Others(gaps, w) && forall i :: 0 <= i < |later| ==> later[i].worker != w
    ensures var m, read, now := b.control.migration, Composed(Step(b, StartExport(w)), w, gaps, 0), Pending(b, w, gaps, later);
      var recorded := Step(now, RecordFingerprint(w)); var done := Transition(now.control, m, Source, Frozen, Frozen, Of(m, read)).1;
      && recorded.rows == now.rows
      && (done.Ok? ==> recorded.control == Control(m, Source, Frozen, Of(m, read))) && (done.Err? ==> recorded.control == now.control)
      && (done.Ok? && recorded.control.fingerprint != Of(m, recorded.rows) <==>
            m != "" && FrozenUnder(now, m) && (now.control.fingerprint == Blank || now.control.fingerprint == Of(m, read)) && now.rows != read)
  {
    PendingFacts(b, w, gaps, later);
    hide Run, ReadOn, Composed, Starts;
  }

  predicate ImportsSomewhere(b: Binding, actions: seq<Action>)
    decreases |actions|
  {
    actions != [] && (ImportsIntoEmpty(b, actions[0]) || ImportsSomewhere(Step(b, actions[0]), actions[1..]))
  }

  predicate RefreezesLater(b: Binding, actions: seq<Action>, migration: string)
    decreases |actions|
  {
    actions != [] && ((Refreezes(b, actions[0]) && FrozenUnder(Step(b, actions[0]), migration)) || RefreezesLater(Step(b, actions[0]), actions[1..], migration))
  }

  /** Somewhere a rollback, and somewhere after it a freeze under this migration. */
  predicate ThawsAndRefreezes(b: Binding, actions: seq<Action>, migration: string)
    decreases |actions|
  {
    actions != [] && ((RollsBack(b, actions[0]) && RefreezesLater(Step(b, actions[0]), actions[1..], migration))
                      || ThawsAndRefreezes(Step(b, actions[0]), actions[1..], migration))
  }

  lemma FreezesOnlyFromActive(b: Binding, a: Action, migration: string)
    requires !FrozenUnder(b, migration) && FrozenUnder(Step(b, a), migration)
    ensures Refreezes(b, a)
  {
  }

  lemma {:induction false} FrozenAgainMeansRefrozen(b: Binding, actions: seq<Action>, migration: string)
    requires !FrozenUnder(b, migration) && FrozenUnder(Run(b, actions), migration)
    ensures RefreezesLater(b, actions, migration)
    decreases |actions|
  {
    hide Step, Refreezes, FrozenUnder;
    if actions != [] {
      if FrozenUnder(Step(b, actions[0]), migration) {
        FreezesOnlyFromActive(b, actions[0], migration);
      } else {
        FrozenAgainMeansRefrozen(Step(b, actions[0]), actions[1..], migration);
      }
    }
  }

  lemma {:induction false} NeverThawed(b: Binding, actions: seq<Action>, migration: string)
    requires Inv(b) && FrozenUnder(b, migration) && FrozenUnder(Run(b, actions), migration)
    requires !ImportsSomewhere(b, actions) && !ThawsAndRefreezes(b, actions, migration)
    ensures Stays(b, actions)
    decreases |actions|
  {
    hide Step, Inv, ImportsIntoEmpty;
    if actions != [] {
      StepKeepsInv(b, actions[0]);
      var next := Step(b, actions[0]);
      if RollsBack(b, actions[0]) {
        FrozenAgainMeansRefrozen(next, actions[1..], migration);
      } else {
        FrozenStepStays(b, actions[0]);
        NeverThawed(next, actions[1..], migration);
      }
    }
  }

  lemma {:induction false} StaysSplits(b: Binding, first: seq<Action>, second: seq<Action>)
    requires Stays(b, first + second)
    ensures Stays(b, first) && Run(b, first + second) == Run(Run(b, first), second) && Stays(Run(b, first), second)
    decreases |first|
  {
    hide Step, RollsBack, ImportsIntoEmpty;
    if first == [] {
      assert first + second == second;
    } else {
      assert (first + second)[1..] == first[1..] + second;
      StaysSplits(Step(b, first[0]), first[1..], second);
    }
  }

  lemma {:induction false} RunAppend(b: Binding, first: seq<Action>, second: seq<Action>)
    ensures Run(b, first + second) == Run(Run(b, first), second)
    decreases |first|
  {
    hide Step;
    if first == [] {
      assert first + second == second;
    } else {
      assert (first + second)[1..] == first[1..] + second;
      RunAppend(Step(b, first[0]), first[1..], second);
    }
  }

  lemma {:induction false} TraceRuns(b: Binding, w: nat, gaps: seq<seq<Action>>)
    ensures Run(b, Trace(w, gaps)) == ReadOn(b, w, gaps)
    decreases |gaps|
  {
    hide Step;
    if gaps != [] {
      var rest := [ReadTable(w)] + Trace(w, gaps[1..]);
      RunAppend(b, gaps[0], rest);
      assert rest[1..] == Trace(w, gaps[1..]);
      TraceRuns(Step(Run(b, gaps[0]), ReadTable(w)), w, gaps[1..]);
    }
  }

  /** While the tables stay, the bundle put together is what is stored. */
  lemma {:induction false} StaysComposed(b: Binding, w: nat, gaps: seq<seq<Action>>, i: nat)
    requires Inv(b) && StateOf(b.control) == Frozen && i + |gaps| == TABLES && Stays(b, Trace(w, gaps))
    ensures Composed(b, w, gaps, i) == From(b.rows, i)
    decreases |gaps|
  {
    hide Step, Inv, RollsBack, ImportsIntoEmpty, Part, From;
    if gaps == [] {
      NothingFrom(b.rows);
    } else {
      var rest := [ReadTable(w)] + Trace(w, gaps[1..]);
      StaysSplits(b, gaps[0], rest);
      FrozenTablesStay(b, gaps[0]);
      RunKeepsInv(b, gaps[0]);
      var here := Run(b, gaps[0]);
      var next := Step(here, ReadTable(w));
      assert rest[1..] == Trace(w, gaps[1..]);
      StepKeepsInv(here, ReadTable(w));
      ReadKeeps(here, w);
      StaysComposed(next, w, gaps[1..], i + 1);
      PartAndRest(b.rows, i);
    }
  }

  lemma NothingFrom(rows: Rows)
    ensures From(rows, TABLES) == {}
  {
  }

  lemma PartAndRest(rows: Rows, i: nat)
    ensures Part(rows, i) + From(rows, i + 1) == From(rows, i)
    ensures From(rows, 0) == rows
  {
  }

  lemma ReadKeeps(b: Binding, w: nat)
    ensures Step(b, ReadTable(w)).control == b.control && Step(b, ReadTable(w)).rows == b.rows
  {
  }

  /**
   * An export that starts on a frozen source, with any steps of others between its own, records the
   * fingerprint of the tables as they then are, provided there is no rollback and no import into an empty
   * workspace meanwhile.
   */
  lemma ExportIsFaithful(b: Binding, w: nat, gaps: seq<seq<Action>>, later: seq<Action>)
    requires Inv(b) && Starts(b, w) && |gaps| == TABLES && Others(gaps, w) && forall i :: 0 <= i < |later| ==> later[i].worker != w
    requires Stays(Step(b, StartExport(w)), Trace(w, gaps) + later)
    ensures var b3 := Pending(b, w, gaps, later); var b4 := Step(b3, RecordFingerprint(w));
      && Composed(Step(b, StartExport(w)), w, gaps, 0) == b.rows && FrozenUnder(b3, b.control.migration)
      && b4.rows == b.rows && Quiescent(b4.rows) && b4.control.Control? && b3.control.Control?
      && (b4.control.fingerprint == Of(b.control.migration, b4.rows) || (b4.control == b3.control && b3.control.fingerprint != Blank))
  {
    var started := Step(b, StartExport(w));
    StepKeepsInv(b, StartExport(w));
    StartKeepsControl(b, w);
    StaysSplits(started, Trace(w, gaps), later);
    TraceRuns(started, w, gaps);
    FrozenTablesStay(started, Trace(w, gaps) + later);
    StaysComposed(started, w, gaps, 0);
    PartAndRest(b.rows, 0);
    ExportRecordsStaleIff(b, w, gaps, later);
    hide Run, Stays, ReadOn, Composed, Trace, From, Step;
  }

  /**
   * For a source that ends up frozen under the same migration, a bundle that is not what is stored takes an
   * import into an empty workspace, or a rollback followed by a freeze under that migration, since the export
   * started. Without either, what the export records is current.
   */
  lemma StaleExportNeedsThawOrImport(b: Binding, w: nat, gaps: seq<seq<Action>>, later: seq<Action>)
    requires Inv(b) && Starts(b, w) && |gaps| == TABLES && Others(gaps, w) && forall i :: 0 <= i < |later| ==> later[i].worker != w
    requires FrozenUnder(Pending(b, w, gaps, later), b.control.migration)
    requires Pending(b, w, gaps, later).rows != Composed(Step(b, StartExport(w)), w, gaps, 0)
    ensures var started, all := Step(b, StartExport(w)), Trace(w, gaps) + later;
      ImportsSomewhere(started, all) || ThawsAndRefreezes(started, all, b.control.migration)
  {
    var started, all, m := Step(b, StartExport(w)), Trace(w, gaps) + later, b.control.migration;
    StepKeepsInv(b, StartExport(w));
    StartKeepsControl(b, w);
    TraceRuns(started, w, gaps);
    RunAppend(started, Trace(w, gaps), later);
    hide Inv, Step, Run, ReadOn, Composed, Trace;
    if !ImportsSomewhere(started, all) && !ThawsAndRefreezes(started, all, m) {
      NeverThawed(started, all, m);
      ExportIsFaithful(b, w, gaps, later);
      StaysSplits(started, Trace(w, gaps), later);
      FrozenTablesStay(started, all);
    }
  }

  lemma StartKeepsControl(b: Binding, w: nat)
    ensures Step(b, StartExport(w)).control == b.control && Step(b, StartExport(w)).rows == b.rows
  {
  }

  /** Nobody else moves while the tables are read. */
  function Quiet(n: nat): seq<seq<Action>> {
    seq(n, _ => [])
  }

  lemma {:induction false} QuietRead(b: Binding, w: nat, m: string, read: Rows, i: nat)
    requires LocalOf(b, w) == Exporting(m, read, i) && i < TABLES
    ensures ReadOn(b, w, Quiet(TABLES - i)) == b.(workers := b.workers[w := Recording(m, Of(m, read + From(b.rows, i)))])
    decreases TABLES - i
  {
    hide Part, From;
    var gaps := Quiet(TABLES - i);
    assert gaps[0] == [] && gaps[1..] == Quiet(TABLES - i - 1) && Run(b, gaps[0]) == b;
    var next := Step(b, ReadTable(w));
    PartAndRest(b.rows, i);
    assert read + Part(b.rows, i) + From(b.rows, i + 1) == read + From(b.rows, i);
    if i + 1 < TABLES {
      QuietRead(next, w, m, read + Part(b.rows, i), i + 1);
      assert next.workers[w := Recording(m, Of(m, read + From(b.rows, i)))] == b.workers[w := Recording(m, Of(m, read + From(b.rows, i)))];
    } else {
      NothingFrom(b.rows);
      assert read + Part(b.rows, i) == read + From(b.rows, i);
      assert gaps[1..] == [] && ReadOn(next, w, []) == next;
    }
  }

  lemma QuietExport(b: Binding, w: nat)
    requires Starts(b, w)
    ensures ReadOn(Step(b, StartExport(w)), w, Quiet(TABLES)) ==
              b.(workers := b.workers[w := Recording(b.control.migration, Of(b.control.migration, b.rows))])
  {
    hide ReadOn, From, Part;
    var nothing: Rows := {};
    QuietRead(Step(b, StartExport(w)), w, b.control.migration, nothing, 0);
    PartAndRest(b.rows, 0);
    assert nothing + b.rows == b.rows;
  }

  /** Rolled back, written to and frozen again behind an export's back, the source gets the old fingerprint. */
  lemma ExportCanRecordStaleFingerprint(b: Binding)
    requires b.control == Control("m", Source, Frozen, Blank) && b.rows == {Row(0, "old", "")} && b.workers == map[]
    ensures var exported := ReadOn(Step(b, StartExport(0)), 0, Quiet(TABLES));
      var recorded := Step(Thawed(exported, {Row(0, "new", "")}), RecordFingerprint(0));
      recorded.control == Control("m", Source, Frozen, Of("m", {Row(0, "old", "")})) && recorded.rows == {Row(0, "new", "")}
  {
    QuietExport(b, 0);
    hide ReadOn;
    Rethawed(Recording("m", Of("m", b.rows)), b.rows, {Row(0, "new", "")});
    StaleRecorded(Of("m", b.rows), {Row(0, "new", "")});
  }

  /** Worker 1 rolls the source back, writes, and freezes it again under the same id. */
  function Thawed(b: Binding, rows: Rows): Binding {
    var back := Step(Step(b, Lock(1, RollbackCommand("m", Text("x")))), Execute(1));
    var written := Step(Step(Step(Step(back, BeginWrite(1)), CheckStatus(1)), Write(1, rows)), EndWrite(1));
    Step(Step(written, Lock(1, FreezeCommand("m"))), Execute(1))
  }

  lemma Rethawed(pending: Local, rows: Rows, rows': Rows)
    requires !Shared(pending) && !Exclusive(pending)
    ensures Thawed(Binding(Control("m", Source, Frozen, Blank), rows, map[0 := pending]), rows')
         == Binding(Control("m", Source, Frozen, Blank), rows', map[0 := pending, 1 := Idle])
  {
    RolledBack(pending, rows);
    Rewritten(pending, Control("m", Source, Active, Text("x")), rows, rows');
    Refrozen(pending, rows');
    hide Step;
  }

  lemma FirstTableRead(b: Binding)
    requires b.control == Control("m", Source, Frozen, Blank) && b.workers == map[] && Quiescent(b.rows)
    ensures var nothing: Rows := {};
      Step(Step(b, StartExport(0)), ReadTable(0)) == Binding(b.control, b.rows, map[0 := Exporting("m", nothing + Part(b.rows, 0), 1)])
  {
    hide Part;
    var nothing: Rows := {};
    assert Step(b, StartExport(0)) == Binding(b.control, b.rows, map[0 := Exporting("m", nothing, 0)]);
  }

  /** The same behind an export that has read its first table. */
  lemma MixtureRecorded(b: Binding, rows: Rows)
    requires b.control == Control("m", Source, Frozen, Blank) && b.workers == map[] && Quiescent(b.rows)
    ensures var half := Step(Step(b, StartExport(0)), ReadTable(0));
      var recorded := Step(ReadOn(Thawed(half, rows), 0, Quiet(TABLES - 1)), RecordFingerprint(0));
      recorded.rows == rows && recorded.control == Control("m", Source, Frozen, Of("m", Part(b.rows, 0) + From(rows, 1)))
  {
    hide Step, ReadOn, Thawed, Part, From, Quiescent;
    var nothing: Rows := {};
    var first := Part(b.rows, 0);
    assert nothing + first == first;
    FirstTableRead(b);
    Rethawed(Exporting("m", first, 1), b.rows, rows);
    var thawed := Binding(b.control, rows, map[0 := Exporting("m", first, 1), 1 := Idle]);
    QuietRead(thawed, 0, "m", first, 1);
    var read := Recording("m", Of("m", first + From(rows, 1)));
    assert thawed.workers[0 := read] == map[0 := read, 1 := Idle];
    StaleRecorded(Of("m", first + From(rows, 1)), rows);
  }

  /** It records a mixture that the workspace never held. */
  lemma ExportCanRecordMixture(b: Binding)
    requires b.control == Control("m", Source, Frozen, Blank) && b.workers == map[] && b.rows == {Row(0, "old", ""), Row(1, "old", "")}
    ensures var half := Step(Step(b, StartExport(0)), ReadTable(0));
      var exported := ReadOn(Thawed(half, {Row(0, "new", ""), Row(1, "new", "")}), 0, Quiet(TABLES - 1));
      var recorded := Step(exported, RecordFingerprint(0));
      && recorded.rows == {Row(0, "new", ""), Row(1, "new", "")}
      && recorded.control == Control("m", Source, Frozen, Of("m", {Row(0, "old", ""), Row(1, "new", "")}))
  {
    hide Step, ReadOn, Thawed;
    var rows: Rows := {Row(0, "new", ""), Row(1, "new", "")};
    MixtureRecorded(b, rows);
    assert Part(b.rows, 0) + From(rows, 1) == {Row(0, "old", ""), Row(1, "new", "")};
  }

  /** Or nobody rolls back: an import into the frozen, still empty source is refused, but only after it has inserted its rows. */
  lemma ImportMakesExportStale()
    ensures var frozen := Step(Step(INITIAL, Lock(1, FreezeCommand("m"))), Execute(1));
      var exported := ReadOn(Step(frozen, StartExport(0)), 0, Quiet(TABLES));
      var imported := Step(Step(Step(exported, Lock(1, ImportCommand("n", {Row(0, "r", "")}))), Execute(1)), FinishImport(1));
      var recorded := Step(imported, RecordFingerprint(0));
      && Starts(frozen, 0) && FrozenUnder(imported, "m")
      && recorded.control == Control("m", Source, Frozen, Of("m", {})) && recorded.rows == {Row(0, "r", "")}
  {
    var rows: Rows := {Row(0, "r", "")};
    var frozen := Step(Step(INITIAL, Lock(1, FreezeCommand("m"))), Execute(1));
    assert frozen == Binding(Control("m", Source, Frozen, Blank), {}, map[1 := Idle]) by {
      assert Step(INITIAL, Lock(1, FreezeCommand("m"))) == Binding(NoControl, {}, map[1 := Commanding(FreezeCommand("m"))]);
    }
    QuietExport(frozen, 0);
    hide ReadOn;
    assert frozen.workers[0 := Recording("m", Of("m", {}))] == map[0 := Recording("m", Of("m", {})), 1 := Idle];
    ImportRefused(Recording("m", Of("m", {})), rows);
    StaleRecorded(Of("m", {}), rows);
  }

  lemma ImportRefused(pending: Local, rows: Rows)
    requires !Shared(pending) && !Exclusive(pending) && rows != {}
    ensures Step(Step(Step(Binding(Control("m", Source, Frozen, Blank), {}, map[0 := pending, 1 := Idle]), Lock(1, ImportCommand("n", rows))), Execute(1)), FinishImport(1))
         == Binding(Control("m", Source, Frozen, Blank), rows, map[0 := pending, 1 := Idle])
  {
    var b := Binding(Control("m", Source, Frozen, Blank), {}, map[0 := pending, 1 := Idle]);
    var locked := Step(b, Lock(1, ImportCommand("n", rows)));
    assert locked == b.(workers := map[0 := pending, 1 := Commanding(ImportCommand("n", rows))]);
    var importing := Step(locked, Execute(1));
    assert importing == Binding(b.control, rows, map[0 := pending, 1 := Importing("n", rows)]);
  }

  /** Worker 1 rolls the frozen source back while worker 0's export is pending. */
  lemma RolledBack(pending: Local, rows: Rows)
    requires !Shared(pending) && !Exclusive(pending)
    ensures Step(Step(Binding(Control("m", Source, Frozen, Blank), rows, map[0 := pending]), Lock(1, RollbackCommand("m", Text("x")))), Execute(1))
         == Binding(Control("m", Source, Active, Text("x")), rows, map[0 := pending, 1 := Idle])
  {
    var b := Binding(Control("m", Source, Frozen, Blank), rows, map[0 := pending]);
    var locked := Step(b, Lock(1, RollbackCommand("m", Text("x"))));
    assert locked == b.(workers := map[0 := pending, 1 := Commanding(RollbackCommand("m", Text("x")))]);
  }

  lemma Rewritten(pending: Local, control: Control, rows: Rows, rows': Rows)
    requires !Shared(pending) && !Exclusive(pending) && StateOf(control) == Active
    ensures Step(Step(Step(Step(Binding(control, rows, map[0 := pending, 1 := Idle]), BeginWrite(1)), CheckStatus(1)), Write(1, rows')), EndWrite(1))
         == Binding(control, rows', map[0 := pending, 1 := Idle])
  {
    var b := Binding(control, rows, map[0 := pending, 1 := Idle]);
    var reading := Step(b, BeginWrite(1));
    assert reading == b.(workers := map[0 := pending, 1 := Reading]);
    var writing := Step(reading, CheckStatus(1));
    assert writing == b.(workers := map[0 := pending, 1 := Writing]);
  }

  lemma Refrozen(pending: Local, rows: Rows)
    requires !Shared(pending) && !Exclusive(pending)
    ensures Step(Step(Binding(Control("m", Source, Active, Text("x")), rows, map[0 := pending, 1 := Idle]), Lock(1, FreezeCommand("m"))), Execute(1))
         == Binding(Control("m", Source, Frozen, Blank), rows, map[0 := pending, 1 := Idle])
  {
    var b := Binding(Control("m", Source, Active, Text("x")), rows, map[0 := pending, 1 := Idle]);
    var locked := Step(b, Lock(1, FreezeCommand("m")));
    assert locked == b.(workers := map[0 := pending, 1 := Commanding(FreezeCommand("m"))]);
  }

  lemma StaleRecorded(fingerprint: Fingerprint, rows: Rows)
    requires fingerprint != Blank
    ensures Step(Binding(Control("m", Source, Frozen, Blank), rows, map[0 := Recording("m", fingerprint), 1 := Idle]), RecordFingerprint(0))
         == Binding(Control("m", Source, Frozen, fingerprint), rows, map[0 := Idle, 1 := Idle])
  {
  }
}
