/** Template administration in one process: its catalog object, its kept revision, and its store calls. */
module TemplateManager {
  import opened Prelude
  import opened TemplateModel
  import opened TemplateStore
  import opened CatalogCache
  import opened PublicationMachine

  lemma {:induction false} NewestIsUnique(records: Records, keys: set<Key>, m: Option<Time>)
    requires keys <= records.Keys
    requires m.None? <==> keys == {}
    requires forall k :: k in keys ==> m.Some? && records[k].updatedAt <= m.value
    requires m.Some? ==> exists k :: k in keys && records[k].updatedAt == m.value
    ensures m == Newest(records, keys)
  {
    var n := Newest(records, keys);
    if m.Some? {
      var k :| k in keys && records[k].updatedAt == m.value;
      var l :| l in keys && records[l].updatedAt == n.value;
      assert records[l].updatedAt <= m.value && records[k].updatedAt <= n.value;
    }
  }

  /** The aggregate query behind the revision: a count and a maximum over the live rows. */
  method PublishedRevision(store: Store) returns (revision: Revision)
    ensures revision == RevisionOf(store.records)
  {
    var live := LiveKeys(store.records);
    var rest, done, newest := live, {}, None;
    while rest != {}
      invariant done <= live && done + rest == live && done !! rest
      invariant newest == Newest(store.records, done)
      decreases rest
    {
      var k :| k in rest;
      NewestGrows(store.records, done, k);
      if newest.None? || newest.value < store.records[k].updatedAt {
        newest := Some(store.records[k].updatedAt);
      }
      done, rest := done + {k}, rest - {k};
    }
    assert done == live;
    revision := Revision(|done|, newest);
  }

  lemma NewestGrows(records: Records, keys: set<Key>, k: Key)
    requires keys <= records.Keys && k in records && k !in keys
    ensures var m := Newest(records, keys);
      Newest(records, keys + {k}) == if m.None? || m.value < records[k].updatedAt then Some(records[k].updatedAt) else m
  {
    var m := Newest(records, keys);
    var m' := if m.None? || m.value < records[k].updatedAt then Some(records[k].updatedAt) else m;
    assert k in keys + {k};
    NewestIsUnique(records, keys + {k}, m');
  }

  class Manager {
    const store: Store
    const accepts: Template -> bool
    var engine: Catalog
    var revision: Revision
    var reconciled: bool

    constructor (store: Store, accepts: Template -> bool, initial: Catalog)
      ensures this.store == store && this.accepts == accepts && engine == initial && !reconciled
    {
      this.store, this.accepts, engine := store, accepts, initial;
      revision, reconciled := Revision(0, None), false;
    }

    function Kept(): Option<Revision>
      reads this
    {
      if reconciled then Some(revision) else None
    }

    method Upsert(value: Template) returns (accepted: bool)
      modifies this`engine
      ensures (engine, accepted) == CatalogCache.Upsert(old(engine), value, accepts)
      ensures exists v :: PublishedFrom(value, v) && accepted == accepts(v) && engine == if accepted then old(engine)[value.key := v] else old(engine)
    {
      var v := AsPublished(value);
      assert PublishedFrom(value, v);
      if !accepts(v) {
        return false;
      }
      engine := engine[v.key := v];
      return true;
    }

    /** Writes of other processes that land between this process's two reads. */
    method OtherProcesses(writes: seq<(Write, Time)>)
      modifies store
      ensures store.Contents() == ApplyAll(old(store.Contents()), writes)
    {
      for i := 0 to |writes|
        invariant ApplyAll(old(store.Contents()), writes) == ApplyAll(store.Contents(), writes[i..])
      {
        assert writes[i..][0] == writes[i] && writes[i..][1..] == writes[i + 1..];
        var t := Apply(store.Contents(), writes[i].0, writes[i].1).0;
        store.records, store.versions, store.requests, store.locks := t.records, t.versions, t.requests, t.locks;
      }
    }

    /** Skips on an unchanged revision; otherwise lists, upserts, and drops what is not active. */
    method RefreshPublished(order: seq<Key>, meanwhile: seq<(Write, Time)>) returns (ok: bool)
      requires Lists(order, ApplyAll(store.Contents(), meanwhile).records)
      modifies this, store
      ensures old(Kept()) == Some(RevisionOf(old(store.records))) ==>
                ok && engine == old(engine) && Kept() == old(Kept()) && store.Contents() == old(store.Contents())
      ensures old(Kept()) != Some(RevisionOf(old(store.records))) ==>
                var begun := Process(old(engine), old(Kept()), map[], 0, Reloading(RevisionOf(old(store.records)), map[], 0));
                var done := Reload(begun, store.records, order, accepts);
                && store.Contents() == ApplyAll(old(store.Contents()), meanwhile)
                && engine == done.engine && Kept() == done.kept
                && ok == UpsertListed(old(engine), store.records, order, accepts).1
    {
      hide Lists, LiveKeys, RevisionOf, UpsertListed, ApplyAll;
      var current := PublishedRevision(store);
      if reconciled && current == revision {
        return true;
      }
      OtherProcesses(meanwhile);
      ok := UpsertAll(order);
      if !ok {
        return;
      }
      DropInactive();
      revision, reconciled := current, true;
    }

    method UpsertAll(order: seq<Key>) returns (ok: bool)
      modifies this`engine
      ensures (engine, ok) == UpsertListed(old(engine), store.records, order, accepts)
    {
      for i := 0 to |order|
        invariant UpsertListed(old(engine), store.records, order, accepts) == UpsertListed(engine, store.records, order[i..], accepts)
      {
        assert order[i..][0] == order[i] && order[i..][1..] == order[i + 1..];
        var key := order[i];
        if key in store.records && store.records[key].active && store.records[key].published.Some? {
          var accepted := Upsert(store.records[key].published.value);
          if !accepted {
            return false;
          }
        }
      }
      return true;
    }

    method DropInactive()
      modifies this`engine
      ensures engine == Only(old(engine), LiveKeys(store.records))
    {
      var active := LiveKeys(store.records);
      var rest := engine.Keys;
      while rest != {}
        invariant rest <= old(engine).Keys
        invariant engine == Only(old(engine), active + rest)
        decreases rest
      {
        var key :| key in rest;
        if key !in active {
          engine := engine - {key};
        }
        rest := rest - {key};
      }
      assert active + {} == active;
    }

    /**
     * Publishes the draft it reads under the next free number and puts it in the catalog. Other processes
     * may write between the read and the commit, and between the commit and the change of the catalog.
     */
    method PublishLocked(key: Key, expected: Option<Time>, actor: string, allowLock: bool, now: Time,
                         before: seq<(Write, Time)>, after: seq<(Write, Time)>) returns (result: Result<Record>)
      modifies this`engine, store
      ensures var t := old(store.Contents());
        if (!allowLock && HasOpen(t, key)) || key !in t.records || t.records[key].draft.None? || !accepts(PublishedValue(t.records[key])) then
          result.Err? && store.Contents() == t && engine == old(engine)
        else
          var w := WritePublished(PublishedValue(t.records[key]), expected, actor);
          var done := Apply(ApplyAll(t, before), w, now);
          && store.Contents() == (if done.1 then ApplyAll(done.0, after) else done.0)
          && engine == (if done.1 then AfterWrite(old(engine), w, accepts) else old(engine))
          && (result.Ok? <==> done.1)
    {
      if !allowLock {
        var open := store.HasOpenPublicationRequest(key);
        if open {
          return Err(Conflict);
        }
      }
      if key !in store.records || store.records[key].draft.None? {
        return Err(NotFound);
      }
      var value := PublishedValue(store.records[key]);
      if !accepts(value) {
        return Err(Invalid);
      }
      OtherProcesses(before);
      result := store.PublishRow(value, expected, actor, now);
      if result.Ok? {
        OtherProcesses(after);
        var accepted := Upsert(value);
      }
    }

    /** Disables the record and takes its entry out of the catalog, with other processes writing in between. */
    method Disable(key: Key, expected: Option<Time>, actor: string, now: Time,
                   before: seq<(Write, Time)>, after: seq<(Write, Time)>) returns (result: Result<Record>)
      modifies this`engine, store
      ensures var t := old(store.Contents());
        if HasOpen(t, key) then result == Err(Conflict) && store.Contents() == t && engine == old(engine)
        else
          var w := WriteDisabled(key, expected, actor);
          var done := Apply(ApplyAll(t, before), w, now);
          && store.Contents() == (if done.1 then ApplyAll(done.0, after) else done.0)
          && engine == (if done.1 then AfterWrite(old(engine), w, accepts) else old(engine))
          && (result.Ok? <==> done.1)
    {
      var open := store.HasOpenPublicationRequest(key);
      if open {
        return Err(Conflict);
      }
      OtherProcesses(before);
      result := store.DisableRow(key, expected, actor, now);
      if result.Ok? {
        OtherProcesses(after);
        engine := engine - {key};
      }
    }

    /** Saves an editable draft unless the template is locked; the catalog is not touched. */
    method SaveDraft(value: Template, valid: bool, expected: Option<Time>, actor: string, now: Time) returns (result: Result<Record>)
      modifies store
      ensures var t := old(store.Contents());
        var draft := value.(status := DraftText, version := if value.version < 1 then 1 else value.version);
        if HasOpen(t, value.key) || !valid then result.Err? && store.Contents() == t
        else EditableDraft(draft) && (store.Contents(), result) == TemplateStore.SaveDraft(t, draft, expected, actor, now)
    {
      var draft := value.(status := DraftText);
      if draft.version < 1 {
        draft := draft.(version := 1);
      }
      var open := store.HasOpenPublicationRequest(draft.key);
      if open {
        return Err(Conflict);
      }
      if !valid {
        return Err(Invalid);
      }
      result := store.SaveDraftRow(draft, expected, actor, now);
    }

    /** Copies a stored version back into the draft, as a draft. */
    method RestoreVersionDraft(key: Key, version: int, valid: bool, expected: Option<Time>, actor: string, now: Time)
      returns (result: Result<Record>)
      modifies store
      ensures var t := old(store.Contents());
        if version < 1 || HasOpen(t, key) || (key, version) !in t.versions || !valid then result.Err? && store.Contents() == t
        else
          (store.Contents(), result)
          == TemplateStore.SaveDraft(t, t.versions[(key, version)].template.(key := key, status := DraftText), expected, actor, now)
    {
      if version < 1 {
        return Err(Invalid);
      }
      var open := store.HasOpenPublicationRequest(key);
      if open {
        return Err(Conflict);
      }
      if (key, version) !in store.versions {
        return Err(NotFound);
      }
      var value := store.versions[(key, version)].template.(key := key, status := DraftText);
      if !valid {
        return Err(Invalid);
      }
      result := store.SaveDraftRow(value, expected, actor, now);
    }
  }

  function ApplyAll(t: Tables, writes: seq<(Write, Time)>): Tables
    decreases |writes|
  {
    if writes == [] then t else ApplyAll(Apply(t, writes[0].0, writes[0].1).0, writes[1..])
  }
}
