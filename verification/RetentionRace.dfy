/**
 * Retention beside everybody else. Selecting a candidate, archiving it and deleting it are statements of
 * their own without a transaction around them, and the last two go by the candidate's id alone.
 */
module RetentionRace {
  import opened Prelude
  import opened TextOrder
  import opened Retention

  /** An archive entry's key: policy, table and resource id. */
  type Key = (string, Table, string)

  /** One table. Rows have an identity of their own that is never used again; `id` is the column retention goes by. */
  datatype State = State(rows: map<nat, Row>, used: set<nat>, published: map<string, int>, archive: map<Key, Row>)

  /** What rivals do: update a row, insert one, delete some, publish a newer template version. */
  datatype Rival = Touch(at: nat, row: Row) | Add(at: nat, row: Row) | Remove(gone: set<nat>) | Raise(key: string, version: int)

  /** A row that is written under an id is stamped later than what has been archived under it. */
  predicate NewerThanCopies(archive: map<Key, Row>, row: Row) {
    forall key :: key in archive && key.2 == row.id ==> Less(archive[key].at, row.at)
  }

  /** The clock assumption: whatever is written is stamped later than the row was, than the cutoff, and than copies under its id. */
  predicate Lawful(s: State, r: Rival, cutoff: string) {
    match r
    case Touch(at, row) => at in s.rows && Less(s.rows[at].at, row.at) && !AtMost(row.at, cutoff) && NewerThanCopies(s.archive, row)
    case Add(at, row) => at !in s.used && !AtMost(row.at, cutoff) && NewerThanCopies(s.archive, row)
    case Remove(_) => true
    case Raise(key, version) => key in s.published ==> s.published[key] <= version
  }

  function Move(s: State, r: Rival): State {
    match r
    case Touch(at, row) => s.(rows := s.rows[at := row])
    case Add(at, row) => s.(rows := s.rows[at := row], used := s.used + {at})
    case Remove(gone) => s.(rows := s.rows - gone)
    case Raise(key, version) => s.(published := s.published[key := version])
  }

  function Moves(s: State, rivals: seq<Rival>): State
    decreases |rivals|
  {
    if rivals == [] then s else Moves(Move(s, rivals[0]), rivals[1..])
  }

  predicate AllLawful(s: State, rivals: seq<Rival>, cutoff: string)
    decreases |rivals|
  {
    rivals != [] ==> Lawful(s, rivals[0], cutoff) && AllLawful(Move(s, rivals[0]), rivals[1..], cutoff)
  }

  predicate Touched(rivals: seq<Rival>, at: nat) {
    exists i :: 0 <= i < |rivals| && rivals[i].Touch? && rivals[i].at == at
  }

  // ----- the three statements -----

  /** What the candidate query asks of a row of table `t`. */
  predicate Due(s: State, t: Table, r: Row, cutoff: string) {
    Eligible(Db(map[], s.published, {}, {}), t, r, cutoff)
  }

  /** The lookup of an entry, the lookup of a row under the id, here `found`, and the insert of the row as it then stands. */
  function ArchiveRow(s: State, key: Key, found: nat): State {
    if key in s.archive || found !in s.rows || s.rows[found].id != key.2 then s else s.(archive := s.archive[key := s.rows[found]])
  }

  /** Everything stored under the id, due or not. */
  function DeleteRows(s: State, id: string): State {
    s.(rows := map at | at in s.rows && s.rows[at].id != id :: s.rows[at])
  }

  // ----- what rivals leave alone -----

  predicate Stored(s: State) {
    s.rows.Keys <= s.used
  }

  /** A row is as it was, or has been written since and carries a later time, beyond the cutoff. */
  predicate RowMoves(s: State, s': State, rivals: seq<Rival>, at: nat, cutoff: string) {
    && (at in s'.rows && at in s.rows && !Touched(rivals, at) ==> s'.rows[at] == s.rows[at])
    && (at in s'.rows && (at !in s.rows || Touched(rivals, at)) ==> !AtMost(s'.rows[at].at, cutoff) && NewerThanCopies(s.archive, s'.rows[at]))
    && (at in s'.rows && at in s.rows && Touched(rivals, at) ==> Less(s.rows[at].at, s'.rows[at].at))
    && (at in s.used && at !in s.rows ==> at !in s'.rows)
  }

  predicate Rises(s: State, s': State) {
    s.used <= s'.used && s'.archive == s.archive && forall k :: k in s.published ==> k in s'.published && s.published[k] <= s'.published[k]
  }

  lemma TouchedAt(rivals: seq<Rival>, at: nat)
    requires rivals != []
    ensures Touched(rivals, at) <==> (rivals[0].Touch? && rivals[0].at == at) || Touched(rivals[1..], at)
  {
    if Touched(rivals[1..], at) {
      var i :| 0 <= i < |rivals[1..]| && rivals[1..][i].Touch? && rivals[1..][i].at == at;
      assert rivals[i + 1] == rivals[1..][i];
    }
    if Touched(rivals, at) && !(rivals[0].Touch? && rivals[0].at == at) {
      var i :| 0 <= i < |rivals| && rivals[i].Touch? && rivals[i].at == at;
      assert rivals[1..][i - 1] == rivals[i];
    }
  }

  lemma {:induction false} RivalsMoveRow(s: State, rivals: seq<Rival>, at: nat, cutoff: string)
    requires Stored(s) && AllLawful(s, rivals, cutoff)
    ensures RowMoves(s, Moves(s, rivals), rivals, at, cutoff) && Rises(s, Moves(s, rivals)) && Stored(Moves(s, rivals))
    decreases |rivals|
  {
    hide Less, NewerThanCopies;
    if rivals != [] {
      TouchedAt(rivals, at);
      var next, last := Move(s, rivals[0]), Moves(s, rivals);
      RivalsMoveRow(next, rivals[1..], at, cutoff);
      if at in s.rows && at in last.rows && at in next.rows {
        if Less(s.rows[at].at, next.rows[at].at) && Less(next.rows[at].at, last.rows[at].at) {
          Transitive(s.rows[at].at, next.rows[at].at, last.rows[at].at);
        }
      }
    }
  }

  lemma DueStays(s: State, s': State, t: Table, r: Row, cutoff: string)
    requires Rises(s, s') && Due(s, t, r, cutoff)
    ensures Due(s', t, r, cutoff)
  {
  }

  // ----- main results -----

  /**
   * What the delete statement removes. Of the selected row: it is still due, as it then stands, exactly when
   * nobody has written to it since the selection. Any other row under the id is due at most if it was there
   * at the selection and has not been written to either; one inserted since never is.
   */
  lemma RemovedRowIsDueIff(s: State, q: Request, t: Table, selected: nat, before: seq<Rival>, found: nat, between: seq<Rival>, at: nat)
    requires Stored(s) && selected in s.rows && Due(s, t, s.rows[selected], q.cutoff) && AllLawful(s, before, q.cutoff)
    requires var id := s.rows[selected].id; var archived := ArchiveRow(Moves(s, before), (q.policy, t, id), found);
      && AllLawful(archived, between, q.cutoff)
      && at in Moves(archived, between).rows && at !in DeleteRows(Moves(archived, between), id).rows
    ensures var last := Moves(ArchiveRow(Moves(s, before), (q.policy, t, s.rows[selected].id), found), between);
      && last.rows[at].id == s.rows[selected].id
      && (at == selected ==> (Due(last, t, last.rows[at], q.cutoff) <==> !Touched(before, at) && !Touched(between, at)))
      && (Due(last, t, last.rows[at], q.cutoff) ==> at in s.rows && last.rows[at] == s.rows[at])
  {
    var id := s.rows[selected].id;
    var first := Moves(s, before);
    var archived := ArchiveRow(first, (q.policy, t, id), found);
    var last := Moves(archived, between);
    RivalsMoveRow(s, before, at, q.cutoff);
    RivalsMoveRow(archived, between, at, q.cutoff);
    hide Moves, AllLawful, Touched, Less, AtMost, Eligible, NewerThanCopies;
    if at == selected && !Touched(before, at) && !Touched(between, at) {
      DueStays(s, first, t, s.rows[at], q.cutoff);
      DueStays(archived, last, t, s.rows[at], q.cutoff);
    }
    if Due(last, t, last.rows[at], q.cutoff) { DueIsOld(last, t, last.rows[at], q.cutoff); }
  }

  lemma DueIsOld(s: State, t: Table, r: Row, cutoff: string)
    requires Due(s, t, r, cutoff)
    ensures AtMost(r.at, cutoff)
  {
  }

  /**
   * Once `found` has been archived, by this pass or by an earlier one, later passes keep that copy. Of every
   * row that a pass then deletes under the id, the copy is exact when and only when the row was stored when
   * the copy was taken, equal to it, and has not been written to since. For `found` itself that is the
   * absence of writes; a row inserted since under the id is deleted with an older row's copy in the archive.
   */
  lemma ArchivedCopyIsExactIff(s: State, key: Key, found: nat, earlier: seq<Rival>, again: nat, between: seq<Rival>, cutoff: string, at: nat)
    requires Stored(s) && key !in s.archive && found in s.rows && s.rows[found].id == key.2
    requires AllLawful(ArchiveRow(s, key, found), earlier, cutoff)
    requires var kept := ArchiveRow(Moves(ArchiveRow(s, key, found), earlier), key, again);
      && AllLawful(kept, between, cutoff) && at in Moves(kept, between).rows && at !in DeleteRows(Moves(kept, between), key.2).rows
    ensures var last := Moves(ArchiveRow(Moves(ArchiveRow(s, key, found), earlier), key, again), between);
      && key in last.archive && last.archive[key] == s.rows[found]
      && (last.archive[key] == last.rows[at] <==> at in s.rows && s.rows[at] == s.rows[found] && !Touched(earlier, at) && !Touched(between, at))
  {
    var archived := ArchiveRow(s, key, found);
    var kept := Moves(archived, earlier);
    RivalsMoveRow(archived, earlier, at, cutoff);
    assert ArchiveRow(kept, key, again) == kept;
    RivalsMoveRow(kept, between, at, cutoff);
    var last := Moves(kept, between);
    hide Moves, AllLawful, Less, AtMost, Touched;
    assert last.rows[at].id == key.2;
    Irreflexive(s.rows[found].at);
  }

  /** An item that is selected as resolved, set firing by a newer event and then deleted, with the resolved row in the archive. */
  lemma FiringItemIsDeleted(q: Request)
    requires q.cutoff == "2026" && q.policy == HISTORY
    ensures var resolved, firing := Row("i", "2025", "", false, "", 0), Row("i", "2027", "", true, "", 0);
      var s := State(map[7 := resolved], {7}, map[], map[]);
      var archived := ArchiveRow(s, (HISTORY, Items, "i"), 7);
      var last := Moves(archived, [Touch(7, firing)]);
      && Due(s, Items, resolved, q.cutoff) && AllLawful(archived, [Touch(7, firing)], q.cutoff)
      && last.rows == map[7 := firing] && !Due(last, Items, firing, q.cutoff)
      && DeleteRows(last, "i").rows == map[] && last.archive == map[(HISTORY, Items, "i") := resolved]
  {
    var resolved, firing := Row("i", "2025", "", false, "", 0), Row("i", "2027", "", true, "", 0);
    YearsInOrder();
    var s := State(map[7 := resolved], {7}, map[], map[]);
    var archived := ArchiveRow(s, (HISTORY, Items, "i"), 7);
    assert [Touch(7, firing)][1..] == [];
    hide Less, AtMost;
    assert Moves(archived, [Touch(7, firing)]) == Moves(Move(archived, Touch(7, firing)), []);
  }

  lemma YearsInOrder()
    ensures Less("2025", "2027") && AtMost("2025", "2026") && !AtMost("2027", "2026")
  {
    assert "2025"[1..] == "025" && "2026"[1..] == "026" && "2027"[1..] == "027";
    assert "025"[1..] == "25" && "026"[1..] == "26" && "027"[1..] == "27";
    assert "25"[1..] == "5" && "26"[1..] == "6" && "27"[1..] == "7";
    assert Less("5", "7") && Less("5", "6") && !Less("7", "6");
    assert Less("25", "27") && Less("25", "26") && !Less("27", "26");
    assert Less("025", "027") && Less("025", "026") && !Less("027", "026");
    assert "2027"[3] != "2026"[3];
  }
}
