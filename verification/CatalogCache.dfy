/**
 * The published-template catalog of one process and the revision shortcut that lets a refresh
 * skip the reload. Other processes may write at any time; a refresh holds this process's own lock.
 */
module CatalogCache {
  import opened Prelude
  import opened TemplateModel
  import opened TemplateStore

  type Records = map<Key, Record>
  type Catalog = map<Key, Template>

  /** Count and newest update among the active published records. */
  datatype Revision = Revision(count: nat, newest: Option<Time>)

  function LiveKeys(records: Records): set<Key> {
    set k | k in records && records[k].active && records[k].published.Some?
  }

  /** What the in-memory catalog should hold. */
  function Live(records: Records): Catalog {
    map k | k in records && records[k].active && records[k].published.Some? :: AsPublished(records[k].published.value)
  }

  ghost function Newest(records: Records, keys: set<Key>): (m: Option<Time>)
    requires keys <= records.Keys
    ensures m.None? <==> keys == {}
    ensures forall k :: k in keys ==> m.Some? && records[k].updatedAt <= m.value
    ensures m.Some? ==> exists k :: k in keys && records[k].updatedAt == m.value
  {
    if keys == {} then None
    else
      var k :| k in keys;
      var rest := Newest(records, keys - {k});
      if rest.Some? && records[k].updatedAt <= rest.value then rest else Some(records[k].updatedAt)
  }

  ghost function RevisionOf(records: Records): Revision {
    Revision(|LiveKeys(records)|, Newest(records, LiveKeys(records)))
  }

  /** A revision, column by column: how many records are active and published, and the newest instant at which one of them was written. */
  lemma RevisionColumns(records: Records)
    ensures var r := RevisionOf(records); var live := set k | k in records && records[k].active == true && records[k].published != None;
      && r.count == |live| && (r.newest == None <==> live == {})
      && (forall k :: k in live ==> r.newest.Some? && records[k].updatedAt <= r.newest.value)
      && (r.newest.Some? ==> exists k :: k in live && records[k].updatedAt == r.newest.value)
    ensures Live(records).Keys == set k | k in records && records[k].active == true && records[k].published != None
    ensures forall k :: k in Live(records) ==>
              var p := records[k].published.value; Live(records)[k] == p.(status := PublishedText, contentHash := Live(records)[k].contentHash)
  {
    var live := set k | k in records && records[k].active == true && records[k].published != None;
    assert live == LiveKeys(records);
  }

  // ----- the process and what can happen to it -----

  /** What holds the process's lock: nothing, a refresh under way, or a committed write not yet in the catalog. */
  datatype Lock = Quiet | Reloading(revision: Revision, base: Records, at: Time) | Updating(write: Write)

  /** `base` is the record table at the moment the kept revision was read. */
  datatype Process = Process(engine: Catalog, kept: Option<Revision>, base: Records, at: Time, busy: Lock)

  datatype World = World(tables: Tables, clock: Time, process: Process)

  datatype Write =
    | WriteDraft(value: Template, expected: Option<Time>, actor: string)
    | WritePublished(value: Template, expected: Option<Time>, actor: string)
    | WriteDisabled(key: Key, expected: Option<Time>, actor: string)
    | WriteSeed(value: Template)
  {
    /** Publishing and disabling are followed by a change to the writer's own catalog. */
    predicate ChangesCatalog() {
      WritePublished? || WriteDisabled?
    }

    function Key(): Key {
      if WriteDisabled? then key else value.key
    }
  }

  datatype Event =
    | Remote(write: Write, now: Time)
    | Local(write: Write, now: Time)
    | UpdateCatalog
    | BeginRefresh
    | FinishRefresh(order: seq<Key>)

  function Apply(t: Tables, w: Write, now: Time): (Tables, bool) {
    match w
    case WriteDraft(value, expected, actor) => var r := SaveDraft(t, value, expected, actor, now); (r.0, r.1.Ok?)
    case WritePublished(value, expected, actor) => var r := Publish(t, value, expected, actor, now); (r.0, r.1.Ok?)
    case WriteDisabled(key, expected, actor) => var r := Disable(t, key, expected, actor, now); (r.0, r.1.Ok?)
    case WriteSeed(value) => var r := Seed(t, value, now); (r.0, r.1.Ok?)
  }

  /** The catalog entry a validator accepts, or the catalog unchanged and false. */
  function Upsert(engine: Catalog, value: Template, accepts: Template -> bool): (Catalog, bool) {
    var v := AsPublished(value);
    if accepts(v) then (engine[v.key := v], true) else (engine, false)
  }

  /** What this process does to its own catalog after its own committed write. */
  function AfterWrite(engine: Catalog, w: Write, accepts: Template -> bool): Catalog {
    match w
    case WritePublished(value, _, _) => Upsert(engine, value, accepts).0
    case WriteDisabled(key, _, _) => engine - {key}
    case _ => engine
  }

  /** Upserts the listed active published records in turn, stopping at the first refusal. */
  function UpsertListed(engine: Catalog, records: Records, order: seq<Key>, accepts: Template -> bool): (Catalog, bool)
    decreases |order|
  {
    if order == [] then (engine, true)
    else if order[0] in LiveKeys(records) then
      var one := Upsert(engine, records[order[0]].published.value, accepts);
      if one.1 then UpsertListed(one.0, records, order[1..], accepts) else one
    else UpsertListed(engine, records, order[1..], accepts)
  }

  function Only(engine: Catalog, keys: set<Key>): Catalog {
    map k | k in engine && k in keys :: engine[k]
  }

  /** The reload: upsert every listed record, then drop what is not active; a refusal ends it half way. */
  function Reload(p: Process, records: Records, order: seq<Key>, accepts: Template -> bool): Process {
    if !p.busy.Reloading? then p
    else
      var all := UpsertListed(p.engine, records, order, accepts);
      if all.1 then Process(Only(all.0, LiveKeys(records)), Some(p.busy.revision), p.busy.base, p.busy.at, Quiet)
      else p.(engine := all.0, busy := Quiet)
  }

  /** A listing names every record exactly once. */
  predicate Lists(order: seq<Key>, records: Records) {
    (forall k :: k in records ==> k in order) && (forall i, j :: 0 <= i < j < |order| ==> order[i] != order[j])
  }

  /** A refresh that gets the lock and finds the revision it kept. */
  ghost predicate Skips(s: World) {
    s.process.busy.Quiet? && s.process.kept == Some(RevisionOf(s.tables.records))
  }

  ghost function Next(s: World, e: Event, accepts: Template -> bool): World {
    var p, t := s.process, s.tables;
    match e
    case Remote(w, now) => if s.clock < now then World(Apply(t, w, now).0, now, p) else s
    case Local(w, now) =>
      // The lock is held from the commit to the change of the catalog, and other processes do not wait for it.
      if s.clock < now && p.busy.Quiet? then
        var done := Apply(t, w, now);
        World(done.0, now, if done.1 && w.ChangesCatalog() then p.(busy := Updating(w)) else p)
      else s
    case UpdateCatalog =>
      // A catalog refusal leaves the commit in place.
      if p.busy.Updating? then s.(process := p.(engine := AfterWrite(p.engine, p.busy.write, accepts), busy := Quiet)) else s
    case BeginRefresh =>
      if !p.busy.Quiet? || Skips(s) then s
      else s.(process := p.(busy := Reloading(RevisionOf(t.records), t.records, s.clock)))
    case FinishRefresh(order) =>
      if Lists(order, t.records) then s.(process := Reload(p, t.records, order, accepts)) else s
  }

  ghost function Play(s: World, events: seq<Event>, accepts: Template -> bool): World
    decreases |events|
  {
    if events == [] then s else Play(Next(s, events[0], accepts), events[1..], accepts)
  }

  /** Any tables a deployment may start from, and a process that has not refreshed yet. */
  predicate Fresh(s: World) {
    s.process.kept.None? && s.process.busy.Quiet? && TableTimes(s.tables.records, s.clock) && KeysAgree(s.tables.records)
  }

  // ----- what every reachable state satisfies -----

  predicate TableTimes(records: Records, clock: Time) {
    forall k :: k in records ==> records[k].updatedAt <= clock
  }

  predicate KeysAgree(records: Records) {
    forall k :: k in records && records[k].published.Some? ==> records[k].published.value.key == k
  }

  /** Since `base` every record is untouched or carries a later time; none disappears. */
  predicate Since(base: Records, at: Time, records: Records) {
    && (forall k :: k in base ==> k in records && base[k].updatedAt <= at)
    && (forall k :: k in records ==> (k in base && records[k] == base[k]) || at < records[k].updatedAt)
  }

  /** Entries of untouched base records are in the catalog, with the right value. */
  predicate HoldsBase(engine: Catalog, base: Records, records: Records) {
    forall k :: k in LiveKeys(base) && k in records && records[k] == base[k] ==>
      k in engine && engine[k] == AsPublished(base[k].published.value)
  }

  ghost predicate Coherent(s: World) {
    && TableTimes(s.tables.records, s.clock)
    && KeysAgree(s.tables.records)
    && (s.process.kept.Some? ==>
          && s.process.kept.value == RevisionOf(s.process.base)
          && Since(s.process.base, s.process.at, s.tables.records)
          && s.process.at <= s.clock
          && HoldsBase(s.process.engine, s.process.base, s.tables.records))
    && (s.process.busy.Reloading? ==>
          && s.process.busy.revision == RevisionOf(s.process.busy.base)
          && Since(s.process.busy.base, s.process.busy.at, s.tables.records)
          && s.process.busy.at <= s.clock)
    && (s.process.busy.Updating? ==> WrittenSince(s))
  }

  /** The record of a write that waits for its catalog change is newer than the kept revision. */
  predicate WrittenSince(s: World)
    requires s.process.busy.Updating?
  {
    var w := s.process.busy.write;
    var k := w.Key();
    w.ChangesCatalog() && k in s.tables.records && (s.process.kept.Some? ==> s.process.at < s.tables.records[k].updatedAt)
  }

  /** One committed write touches one key and stamps it with the new time. */
  predicate Touches(t: Tables, t': Tables, now: Time) {
    && TableTimes(t'.records, now) && KeysAgree(t'.records)
    && t.records.Keys <= t'.records.Keys
    && (forall k :: k in t'.records ==> (k in t.records && t'.records[k] == t.records[k]) || t'.records[k].updatedAt == now)
  }

  lemma DraftTouches(t: Tables, value: Template, expected: Option<Time>, actor: string, now: Time, clock: Time)
    requires TableTimes(t.records, clock) && clock < now && KeysAgree(t.records)
    ensures Touches(t, SaveDraft(t, value, expected, actor, now).0, now)
  {
  }

  lemma PublishTouches(t: Tables, value: Template, expected: Option<Time>, actor: string, now: Time, clock: Time)
    requires TableTimes(t.records, clock) && clock < now && KeysAgree(t.records)
    ensures Touches(t, Publish(t, value, expected, actor, now).0, now)
  {
  }

  lemma DisableTouches(t: Tables, key: Key, expected: Option<Time>, actor: string, now: Time, clock: Time)
    requires TableTimes(t.records, clock) && clock < now && KeysAgree(t.records)
    ensures Touches(t, Disable(t, key, expected, actor, now).0, now)
  {
  }

  lemma SeedTouches(t: Tables, value: Template, now: Time, clock: Time)
    requires TableTimes(t.records, clock) && clock < now && KeysAgree(t.records)
    ensures Touches(t, Seed(t, value, now).0, now)
  {
  }

  lemma ApplyTouchesOneKey(t: Tables, w: Write, now: Time, clock: Time)
    requires TableTimes(t.records, clock) && clock < now && KeysAgree(t.records)
    ensures var t' := Apply(t, w, now).0;
      && TableTimes(t'.records, now) && KeysAgree(t'.records)
      && t.records.Keys <= t'.records.Keys
      && (forall k :: k in t'.records ==> (k in t.records && t'.records[k] == t.records[k]) || t'.records[k].updatedAt == now)
  {
    hide SaveDraft, Publish, Disable, Seed, TableTimes, KeysAgree;
    match w {
      case WriteDraft(value, expected, actor) => DraftTouches(t, value, expected, actor, now, clock);
      case WritePublished(value, expected, actor) => PublishTouches(t, value, expected, actor, now, clock);
      case WriteDisabled(key, expected, actor) => DisableTouches(t, key, expected, actor, now, clock);
      case WriteSeed(value) => SeedTouches(t, value, now, clock);
    }
  }

  lemma SinceStable(base: Records, at: Time, t: Tables, w: Write, now: Time, clock: Time)
    requires Since(base, at, t.records) && at <= clock < now && TableTimes(t.records, clock) && KeysAgree(t.records)
    ensures Since(base, at, Apply(t, w, now).0.records)
  {
    ApplyTouchesOneKey(t, w, now, clock);
    hide Apply;
  }

  lemma HoldsBaseStable(s: World, engine: Catalog, w: Write, now: Time)
    requires Coherent(s) && s.process.kept.Some? && s.clock < now
    requires forall k :: k in s.process.engine && k in Apply(s.tables, w, now).0.records && k in s.tables.records
                         && Apply(s.tables, w, now).0.records[k] == s.tables.records[k] ==>
                           k in engine && engine[k] == s.process.engine[k]
    ensures HoldsBase(engine, s.process.base, Apply(s.tables, w, now).0.records)
  {
    ApplyTouchesOneKey(s.tables, w, now, s.clock);
    hide Apply;
  }

  /** A committed write that changes a catalog stamps its own record. */
  lemma CommitStamps(t: Tables, w: Write, now: Time)
    requires Apply(t, w, now).1 && w.ChangesCatalog()
    ensures w.Key() in Apply(t, w, now).0.records && Apply(t, w, now).0.records[w.Key()].updatedAt == now
  {
  }

  lemma WriteKeepsCoherent(s: World, e: Event, accepts: Template -> bool)
    requires Coherent(s) && (e.Remote? || e.Local?)
    ensures Coherent(Next(s, e, accepts))
  {
    var w, now := e.write, e.now;
    var s' := Next(s, e, accepts);
    if s.clock < now && (e.Remote? || s.process.busy.Quiet?) {
      ApplyTouchesOneKey(s.tables, w, now, s.clock);
      if s.process.kept.Some? {
        HoldsBaseStable(s, s.process.engine, w, now);
        SinceStable(s.process.base, s.process.at, s.tables, w, now, s.clock);
      }
      if s.process.busy.Reloading? {
        SinceStable(s.process.busy.base, s.process.busy.at, s.tables, w, now, s.clock);
      }
      if e.Local? && s'.process.busy.Updating? {
        CommitStamps(s.tables, w, now);
      }
    }
    hide Apply, AfterWrite, Since, HoldsBase, TableTimes, KeysAgree;
  }

  lemma UpdateKeepsCoherent(s: World, accepts: Template -> bool)
    requires Coherent(s)
    ensures Coherent(Next(s, UpdateCatalog, accepts))
  {
    hide RevisionOf;
  }

  /** A listing writes the current published value of every key it reaches and nothing else. */
  lemma {:induction false} UpsertListedExact(engine: Catalog, records: Records, order: seq<Key>, accepts: Template -> bool)
    requires KeysAgree(records)
    ensures var r := UpsertListed(engine, records, order, accepts);
      && engine.Keys <= r.0.Keys <= engine.Keys + LiveKeys(records)
      && (forall k :: k in r.0 ==> (k in engine && r.0[k] == engine[k]) || (k in LiveKeys(records) && r.0[k] == Live(records)[k]))
      && (forall k :: k in r.0 && !(k in engine && r.0[k] == engine[k]) ==> accepts(r.0[k]))
      && (r.1 <==> forall k :: k in order && k in LiveKeys(records) ==> accepts(Live(records)[k]))
      && (r.1 ==> forall k :: k in order && k in LiveKeys(records) ==> k in r.0 && r.0[k] == Live(records)[k])
    decreases |order|
  {
    if order != [] {
      if order[0] in LiveKeys(records) {
        var one := Upsert(engine, records[order[0]].published.value, accepts);
        if one.1 {
          UpsertListedExact(one.0, records, order[1..], accepts);
        }
      } else {
        UpsertListedExact(engine, records, order[1..], accepts);
      }
    }
  }

  /** A reload succeeds exactly when every live record is accepted; then it leaves exactly these, whatever the catalog held before. */
  lemma ReloadIsExact(p: Process, records: Records, order: seq<Key>, accepts: Template -> bool)
    requires KeysAgree(records) && Lists(order, records) && p.busy.Reloading?
    ensures var p' := Reload(p, records, order, accepts);
      if forall k :: k in LiveKeys(records) ==> accepts(Live(records)[k])
      then p'.engine == Live(records) && p'.kept == Some(p.busy.revision)
      else p'.kept == p.kept && p'.base == p.base && p'.at == p.at
  {
    UpsertListedExact(p.engine, records, order, accepts);
  }

  lemma FinishKeepsCoherent(s: World, order: seq<Key>, accepts: Template -> bool)
    requires Coherent(s)
    ensures Coherent(Next(s, FinishRefresh(order), accepts))
  {
    var p, records := s.process, s.tables.records;
    if Lists(order, records) && p.busy.Reloading? {
      ReloadIsExact(p, records, order, accepts);
      UpsertListedExact(p.engine, records, order, accepts);
    }
  }

  lemma {:induction false} PlayKeepsCoherent(s: World, events: seq<Event>, accepts: Template -> bool)
    requires Coherent(s)
    ensures Coherent(Play(s, events, accepts))
    decreases |events|
  {
    hide Coherent;
    if events != [] {
      match events[0] {
        case FinishRefresh(order) => FinishKeepsCoherent(s, order, accepts);
        case BeginRefresh => BeginKeepsCoherent(s, accepts);
        case UpdateCatalog => UpdateKeepsCoherent(s, accepts);
        case _ => WriteKeepsCoherent(s, events[0], accepts);
      }
      PlayKeepsCoherent(Next(s, events[0], accepts), events[1..], accepts);
    }
  }

  lemma BeginKeepsCoherent(s: World, accepts: Template -> bool)
    requires Coherent(s)
    ensures Coherent(Next(s, BeginRefresh, accepts))
  {
  }

  // ----- the shortcut -----

  /** Equal revisions mean that no active published record was touched, added or lost since the base. */
  lemma EqualRevisionsMeanUntouched(base: Records, at: Time, records: Records)
    requires Since(base, at, records) && RevisionOf(base) == RevisionOf(records)
    ensures LiveKeys(records) == LiveKeys(base)
    ensures forall k :: k in LiveKeys(base) ==> records[k] == base[k]
  {
    forall k | k in LiveKeys(records) ensures k in base && records[k] == base[k] {
      var witness_ :| witness_ in LiveKeys(base) && base[witness_].updatedAt == Newest(base, LiveKeys(base)).value;
    }
    assert LiveKeys(records) <= LiveKeys(base);
    SameSize(LiveKeys(records), LiveKeys(base));
  }

  lemma SameSize<T>(a: set<T>, b: set<T>)
    requires a <= b && |a| == |b|
    ensures a == b
  {
    assert b == a + (b - a);
    assert |b - a| == 0;
  }

  /**
   * The exact worth of the shortcut, for any mixture of writers, interrupted reloads and writes that
   * land in the middle of a reload: a skipped refresh is right if and only if the catalog has as many
   * entries as the revision counts.
   */
  lemma SkipIsRightIffSizesAgree(s: World, events: seq<Event>, accepts: Template -> bool)
    requires Fresh(s) && Skips(Play(s, events, accepts))
    ensures var w := Play(s, events, accepts);
      w.process.engine == Live(w.tables.records) <==> |w.process.engine| == w.process.kept.value.count
  {
    PlayKeepsCoherent(s, events, accepts);
    var w := Play(s, events, accepts);
    SkipKeepsEveryLiveEntry(w);
    var live, engine := Live(w.tables.records), w.process.engine;
    assert live.Keys == LiveKeys(w.tables.records);
    assert |live| == |live.Keys| && |engine| == |engine.Keys|;
    if |engine| == w.process.kept.value.count {
      SameSize(live.Keys, engine.Keys);
    }
  }

  /** A skipped refresh never loses or ages an entry; it can only keep entries too many. */
  lemma SkipKeepsEveryLiveEntry(w: World)
    requires Coherent(w) && Skips(w)
    ensures var live := Live(w.tables.records);
      live.Keys <= w.process.engine.Keys && forall k :: k in live ==> w.process.engine[k] == live[k]
  {
    EqualRevisionsMeanUntouched(w.process.base, w.process.at, w.tables.records);
  }

  // ----- first sufficient discipline: every write goes through this process -----

  predicate SoleWriter(events: seq<Event>) {
    forall i :: 0 <= i < |events| ==> !events[i].Remote?
  }

  /** Once reconciled, a sole writer's catalog holds nothing but live keys and a key it is about to remove. */
  predicate NothingExtra(s: World) {
    var p, live := s.process, LiveKeys(s.tables.records);
    p.kept.Some? ==>
      && p.engine.Keys <= (if p.busy.Updating? then live + {p.busy.write.Key()} else live)
      && (p.busy.Updating? && p.busy.write.WritePublished? ==> p.busy.write.Key() in live)
  }

  lemma LocalWriteKeepsNothingExtra(s: World, w: Write, now: Time, accepts: Template -> bool)
    requires Coherent(s) && NothingExtra(s)
    ensures NothingExtra(Next(s, Local(w, now), accepts))
  {
    hide Coherent, RevisionOf, Live, HoldsBase, Since;
    assert KeysAgree(s.tables.records) by { CoherentKeys(s); }
    match w
    case WriteDraft(value, expected, actor) => assert LiveKeys(s.tables.records) <= LiveKeys(SaveDraft(s.tables, value, expected, actor, now).0.records);
    case WritePublished(value, expected, actor) =>
    case WriteDisabled(key, expected, actor) =>
    case WriteSeed(value) =>
  }

  lemma CoherentKeys(s: World)
    requires Coherent(s)
    ensures KeysAgree(s.tables.records)
  {
  }

  lemma {:induction false} SoleWriterKeepsNothingExtra(s: World, events: seq<Event>, accepts: Template -> bool)
    requires Coherent(s) && NothingExtra(s) && SoleWriter(events)
    ensures NothingExtra(Play(s, events, accepts)) && Coherent(Play(s, events, accepts))
    decreases |events|
  {
    if events != [] {
      var s' := Next(s, events[0], accepts);
      PlayKeepsCoherent(s, [events[0]], accepts);
      assert [events[0]][1..] == [] && Play(s', [], accepts) == s';
      assert NothingExtra(s') by {
        match events[0] {
          case Local(w, now) => LocalWriteKeepsNothingExtra(s, w, now, accepts);
          case FinishRefresh(order) => FinishKeepsNothingExtra(s, order, accepts);
          case UpdateCatalog => UpdateKeepsNothingExtra(s, accepts);
          case _ =>
        }
      }
      SoleWriterKeepsNothingExtra(s', events[1..], accepts);
    }
    hide Coherent;
  }

  lemma CoherentWrite(s: World)
    requires Coherent(s) && s.process.busy.Updating?
    ensures s.process.busy.write.ChangesCatalog()
  {
  }

  lemma UpdateKeepsNothingExtra(s: World, accepts: Template -> bool)
    requires Coherent(s) && NothingExtra(s)
    ensures NothingExtra(Next(s, UpdateCatalog, accepts))
  {
    hide Coherent, RevisionOf;
    if s.process.busy.Updating? {
      CoherentWrite(s);
    }
  }

  lemma FinishKeepsNothingExtra(s: World, order: seq<Key>, accepts: Template -> bool)
    requires Coherent(s) && NothingExtra(s)
    ensures NothingExtra(Next(s, FinishRefresh(order), accepts))
  {
    UpsertListedExact(s.process.engine, s.tables.records, order, accepts);
  }

  lemma FreshIsCoherent(s: World)
    requires Fresh(s)
    ensures Coherent(s) && NothingExtra(s)
  {
  }

  /** With this process as the only writer a skipped refresh always equals a full reload, even after refused ones. */
  lemma SoleWriterSkipRefinesReload(s: World, events: seq<Event>, accepts: Template -> bool)
    requires Fresh(s) && SoleWriter(events) && Skips(Play(s, events, accepts))
    ensures Play(s, events, accepts).process.engine == Live(Play(s, events, accepts).tables.records)
  {
    FreshIsCoherent(s);
    hide Play, Coherent, Skips, Fresh, SoleWriter, NothingExtra, Live;
    SoleWriterKeepsNothingExtra(s, events, accepts);
    SkipKeepsEveryLiveEntry(Play(s, events, accepts));
    NothingExtraIsLive(Play(s, events, accepts));
  }

  lemma NothingExtraIsLive(w: World)
    requires NothingExtra(w) && Skips(w)
    requires var live := Live(w.tables.records); live.Keys <= w.process.engine.Keys && forall k :: k in live ==> w.process.engine[k] == live[k]
    ensures w.process.engine == Live(w.tables.records)
  {
    hide RevisionOf;
  }

  // ----- second sufficient discipline: a replica whose refreshes are atomic and succeed -----

  datatype ReplicaEvent = Elsewhere(write: Write, now: Time) | Refresh(order: seq<Key>)

  /** The listing is complete and the validator refuses none of the live records. */
  predicate Reloads(records: Records, order: seq<Key>, accepts: Template -> bool) {
    Lists(order, records) && forall k :: k in LiveKeys(records) ==> accepts(AsPublished(records[k].published.value))
  }

  ghost function ReplicaNext(s: World, e: ReplicaEvent, accepts: Template -> bool): World {
    match e
    case Elsewhere(w, now) => Next(s, Remote(w, now), accepts)
    case Refresh(order) =>
      if Reloads(s.tables.records, order, accepts)
      then Next(Next(s, BeginRefresh, accepts), FinishRefresh(order), accepts) else s
  }

  ghost function ReplicaPlay(s: World, events: seq<ReplicaEvent>, accepts: Template -> bool): World
    decreases |events|
  {
    if events == [] then s else ReplicaPlay(ReplicaNext(s, events[0], accepts), events[1..], accepts)
  }

  ghost predicate ReplicaOk(s: World) {
    Coherent(s) && s.process.busy.Quiet? && (s.process.kept.Some? ==> s.process.engine == Live(s.process.base))
  }

  lemma ReplicaWriteKeepsOk(s: World, w: Write, now: Time, accepts: Template -> bool)
    requires ReplicaOk(s)
    ensures ReplicaOk(ReplicaNext(s, Elsewhere(w, now), accepts))
  {
    WriteKeepsCoherent(s, Remote(w, now), accepts);
    hide Coherent, Apply;
  }

  lemma ReplicaRefreshIsExact(s: World, order: seq<Key>, accepts: Template -> bool)
    requires ReplicaOk(s) && Reloads(s.tables.records, order, accepts)
    ensures ReplicaOk(ReplicaNext(s, Refresh(order), accepts))
    ensures ReplicaNext(s, Refresh(order), accepts).process.engine == Live(s.tables.records)
  {
    var begun := Next(s, BeginRefresh, accepts);
    BeginKeepsCoherent(s, accepts);
    FinishKeepsCoherent(begun, order, accepts);
    hide RevisionOf, UpsertListed, HoldsBase, TableTimes, KeysAgree;
    if Skips(s) {
      SkipKeepsEveryLiveEntry(s);
      EqualRevisionsMeanUntouched(s.process.base, s.process.at, s.tables.records);
    } else {
      AcceptedListingSucceeds(begun.process.engine, s.tables.records, order, accepts);
      ReloadIsExact(begun.process, s.tables.records, order, accepts);
    }
  }

  lemma {:induction false} AcceptedListingSucceeds(engine: Catalog, records: Records, order: seq<Key>, accepts: Template -> bool)
    requires forall k :: k in LiveKeys(records) ==> accepts(AsPublished(records[k].published.value))
    ensures UpsertListed(engine, records, order, accepts).1
    decreases |order|
  {
    if order != [] {
      AcceptedListingSucceeds(
        if order[0] in LiveKeys(records) then Upsert(engine, records[order[0]].published.value, accepts).0 else engine,
        records, order[1..], accepts);
    }
  }

  lemma {:induction false} ReplicaPlayKeepsOk(s: World, events: seq<ReplicaEvent>, accepts: Template -> bool)
    requires ReplicaOk(s)
    ensures ReplicaOk(ReplicaPlay(s, events, accepts))
    decreases |events|
  {
    hide ReplicaOk;
    if events != [] {
      match events[0] {
        case Elsewhere(w, now) => ReplicaWriteKeepsOk(s, w, now, accepts);
        case Refresh(order) =>
          if Reloads(s.tables.records, order, accepts) { ReplicaRefreshIsExact(s, order, accepts); }
      }
      ReplicaPlayKeepsOk(ReplicaNext(s, events[0], accepts), events[1..], accepts);
    }
  }

  /** After any history of writes elsewhere and earlier refreshes, the next refresh equals a full reload. */
  lemma ReplicaRefreshRefinesReload(s: World, events: seq<ReplicaEvent>, order: seq<Key>, accepts: Template -> bool)
    requires Fresh(s) && Reloads(ReplicaPlay(s, events, accepts).tables.records, order, accepts)
    ensures var w := ReplicaPlay(s, events, accepts);
      ReplicaNext(w, Refresh(order), accepts).process.engine == Live(w.tables.records)
  {
    ReplicaPlayKeepsOk(s, events, accepts);
    ReplicaRefreshIsExact(ReplicaPlay(s, events, accepts), order, accepts);
  }

  // ----- why the disciplines are needed -----

  lemma PlayFour(s: World, e1: Event, e2: Event, e3: Event, e4: Event, accepts: Template -> bool)
    ensures Play(s, [e1, e2, e3, e4], accepts) == Next(Next(Next(Next(s, e1, accepts), e2, accepts), e3, accepts), e4, accepts)
  {
    hide Next;
    var events := [e1, e2, e3, e4];
    assert events[1..] == [e2, e3, e4] && events[1..][1..] == [e3, e4] && events[1..][1..][1..] == [e4] && events[1..][1..][1..][1..] == [];
    var s1 := Next(s, e1, accepts);
    var s2 := Next(s1, e2, accepts);
    var s3 := Next(s2, e3, accepts);
    assert Play(s3, [e4], accepts) == Play(Next(s3, e4, accepts), [], accepts) == Next(s3, e4, accepts);
    assert Play(s2, [e3, e4], accepts) == Play(s3, [e4], accepts);
    assert Play(s1, [e2, e3, e4], accepts) == Play(s2, [e3, e4], accepts);
  }

  /**
   * A template seeded between the revision read and the listing, then disabled elsewhere: the kept
   * revision matches again, the refresh is skipped, and the dead entry stays.
   */
  lemma OverlappedReloadKeepsDeadEntry(s: World, accepts: Template -> bool)
    requires s == World(EMPTY_TABLES, 0, Process(map[], None, map[], 0, Quiet))
    requires forall t :: accepts(t)
    ensures Fresh(s)
    ensures exists events :: var w := Play(s, events, accepts);
      Skips(w) && "b" in w.process.engine && "b" !in LiveKeys(w.tables.records)
  {
    var b := Template("b", "text", [], DraftText, 1, NoDigest);
    var e2, e4 := Remote(WriteSeed(b), 1), Remote(WriteDisabled("b", None, "x"), 2);
    var s1 := Next(s, BeginRefresh, accepts);
    assert LiveKeys(map[]) == {};
    assert s1.process.busy == Reloading(Revision(0, None), map[], 0);
    var s2 := Next(s1, e2, accepts);
    assert s2.tables.records.Keys == {"b"} && "b" in LiveKeys(s2.tables.records) && LiveKeys(s2.tables.records) == {"b"};
    var s3 := Next(s2, FinishRefresh(["b"]), accepts);
    assert Lists(["b"], s2.tables.records);
    assert UpsertListed(map[], s2.tables.records, ["b"], accepts) == (map["b" := AsPublished(AsPublished(b))], true) by {
      assert ["b"][1..] == [];
    }
    assert "b" in s3.process.engine && s3.process.kept == Some(Revision(0, None));
    var s4 := Next(s3, e4, accepts);
    assert LiveKeys(s4.tables.records) == {};
    PlayFour(s, BeginRefresh, e2, FinishRefresh(["b"]), e4, accepts);
  }

  lemma {:induction false} PlayAppend(s: World, first: seq<Event>, second: seq<Event>, accepts: Template -> bool)
    ensures Play(s, first + second, accepts) == Play(Play(s, first, accepts), second, accepts)
    decreases |first|
  {
    hide Next;
    if first == [] {
      assert first + second == second;
    } else {
      assert (first + second)[1..] == first[1..] + second;
      PlayAppend(Next(s, first[0], accepts), first[1..], second, accepts);
    }
  }

  lemma PlayThree(s: World, e1: Event, e2: Event, e3: Event, accepts: Template -> bool)
    ensures Play(s, [e1, e2, e3], accepts) == Next(Next(Next(s, e1, accepts), e2, accepts), e3, accepts)
  {
    hide Next;
    assert [e1, e2, e3][1..] == [e2, e3] && [e2, e3][1..] == [e3] && [e3][1..] == [];
    var s1 := Next(s, e1, accepts);
    var s2 := Next(s1, e2, accepts);
    assert Play(s2, [e3], accepts) == Play(Next(s2, e3, accepts), [], accepts);
    assert Play(s1, [e2, e3], accepts) == Play(s2, [e3], accepts);
  }

  /** The records once "a" has been seeded elsewhere, and this process's catalog after an atomic refresh. */
  lemma SeededAndRefreshed(s: World, accepts: Template -> bool)
    requires s == World(EMPTY_TABLES, 0, Process(map[], None, map[], 0, Quiet)) && forall t :: accepts(t)
    ensures var a := Template("a", "text", [], DraftText, 1, NoDigest);
      var w := Next(Next(Next(s, Remote(WriteSeed(a), 1), accepts), BeginRefresh, accepts), FinishRefresh(["a"]), accepts);
      && w.tables.records.Keys == {"a"} && w.tables.versions.Keys == {("a", 1)} && w.clock == 1
      && w.tables.records["a"].updatedAt == 1 && LiveKeys(w.tables.records) == {"a"} && RevisionOf(w.tables.records) == Revision(1, Some(1))
      && w.process.engine.Keys == {"a"} && w.process.kept == Some(Revision(1, Some(1))) && w.process.busy == Quiet
  {
    var a := Template("a", "text", [], DraftText, 1, NoDigest);
    var s1 := Next(s, Remote(WriteSeed(a), 1), accepts);
    assert s1.tables.records == map["a" := Record(None, Some(AsPublished(a)), 1, true, "manifest", 1, 1)];
    assert LiveKeys(s1.tables.records) == {"a"};
    RevisionOfOne(s1.tables.records, "a");
    var s2 := Next(s1, BeginRefresh, accepts);
    assert s2.process.busy == Reloading(Revision(1, Some(1)), s1.tables.records, 1);
    assert UpsertListed(map[], s1.tables.records, ["a"], accepts) == (map["a" := AsPublished(AsPublished(a))], true) by { assert ["a"][1..] == []; }
    assert Lists(["a"], s2.tables.records);
  }

  lemma RevisionOfOne(records: Records, k: Key)
    requires k in records && LiveKeys(records) == {k}
    ensures RevisionOf(records) == Revision(1, Some(records[k].updatedAt))
  {
  }

  /**
   * This process drafts "b" and commits its publication; another process disables it before the catalog
   * is changed here. The live records are what they were.
   */
  lemma PublishedHereDisabledThere(w: World, accepts: Template -> bool)
    requires w.tables.records.Keys == {"a"} && w.tables.versions.Keys == {("a", 1)} && w.clock == 1 && w.process.busy == Quiet && forall t :: accepts(t)
    requires LiveKeys(w.tables.records) == {"a"}
    ensures var b := Template("b", "text", [], DraftText, 1, NoDigest);
      var w' := Next(Next(Next(Next(w, Local(WriteDraft(b, None, "x"), 2), accepts), Local(WritePublished(b, None, "x"), 3), accepts),
                          Remote(WriteDisabled("b", None, "y"), 4), accepts), UpdateCatalog, accepts);
      && LiveKeys(w'.tables.records) == {"a"} && w'.tables.records["a"] == w.tables.records["a"]
      && w'.process.busy == Quiet && w'.process.kept == w.process.kept && "b" in w'.process.engine
  {
    var b := Template("b", "text", [], DraftText, 1, NoDigest);
    var w1 := Next(w, Local(WriteDraft(b, None, "x"), 2), accepts);
    assert w1.tables.records == w.tables.records["b" := Record(Some(b), None, 0, true, "x", 2, 2)] && w1.tables.versions == w.tables.versions;
    assert w1.process == w.process;
    var w2 := Next(w1, Local(WritePublished(b, None, "x"), 3), accepts);
    assert w2.tables.records == w.tables.records["b" := Record(None, Some(AsPublished(b)), 1, true, "x", 2, 3)];
    assert w2.process == w.process.(busy := Updating(WritePublished(b, None, "x")));
    var w3 := Next(w2, Remote(WriteDisabled("b", None, "y"), 4), accepts);
    assert w3.tables.records == w.tables.records["b" := Record(None, Some(AsPublished(b)), 1, false, "y", 2, 4)];
    var w4 := Next(w3, UpdateCatalog, accepts);
    assert w4.process.engine == w.process.engine["b" := AsPublished(b)];
  }

  /**
   * No reload overlaps a write, but two processes write: a template published here and disabled elsewhere
   * leaves the live records as they were when the kept revision was read, and the dead entry stays.
   */
  lemma MixedWritersKeepDeadEntry(s: World, accepts: Template -> bool) returns (events: seq<Event>)
    requires s == World(EMPTY_TABLES, 0, Process(map[], None, map[], 0, Quiet)) && forall t :: accepts(t)
    ensures |events| == 7 && events[1] == BeginRefresh && events[2].FinishRefresh?
    ensures forall i :: 3 <= i < 7 ==> !events[i].BeginRefresh? && !events[i].FinishRefresh?
    ensures var w := Play(s, events, accepts); Skips(w) && "b" in w.process.engine && "b" !in LiveKeys(w.tables.records)
  {
    var a, b := Template("a", "text", [], DraftText, 1, NoDigest), Template("b", "text", [], DraftText, 1, NoDigest);
    SeededAndRefreshed(s, accepts);
    var e1, e2, e3 := Remote(WriteSeed(a), 1), BeginRefresh, FinishRefresh(["a"]);
    var w := Next(Next(Next(s, e1, accepts), e2, accepts), e3, accepts);
    PublishedHereDisabledThere(w, accepts);
    var e4, e5, e6, e7 := Local(WriteDraft(b, None, "x"), 2), Local(WritePublished(b, None, "x"), 3), Remote(WriteDisabled("b", None, "y"), 4), UpdateCatalog;
    var w' := Next(Next(Next(Next(w, e4, accepts), e5, accepts), e6, accepts), e7, accepts);
    RevisionOfOne(w'.tables.records, "a");
    hide Next, LiveKeys, RevisionOf;
    PlayThree(s, e1, e2, e3, accepts);
    PlayFour(w, e4, e5, e6, e7, accepts);
    PlayAppend(s, [e1, e2, e3], [e4, e5, e6, e7], accepts);
    events := [e1, e2, e3] + [e4, e5, e6, e7];
  }
}
