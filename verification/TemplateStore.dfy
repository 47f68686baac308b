/** The durable template store: what each statement or transaction does to the four tables. */
module TemplateStore {
  import opened Prelude
  import opened TemplateModel

  // ----- the effect of each committed or rolled-back call -----

  function Seed(t: Tables, value: Template, now: Time): (Tables, Result<()>) {
    if value.key == "" || value.version < 1 then (t, Err(Invalid))
    else if value.key in t.records then (t, Ok(()))
    else
      var stored := AsPublished(value);
      if (value.key, value.version) in t.versions then (t, Err(Duplicate))
      else
        (t.(records := t.records[value.key := Record(None, Some(stored), value.version, true, "manifest", now, now)],
            versions := t.versions[(value.key, value.version) := VersionRow(stored, "manifest", now)]), Ok(()))
  }

  function SaveDraft(t: Tables, value: Template, expected: Option<Time>, actor: string, now: Time): (Tables, Result<Record>) {
    if value.key == "" || actor == "" then (t, Err(Invalid))
    else if value.key !in t.records then
      if expected.Some? then (t, Err(Conflict))
      else
        var row := Record(Some(value), None, 0, true, actor, now, now);
        (t.(records := t.records[value.key := row]), Ok(row))
    else
      var current := t.records[value.key];
      if expected.Some? && current.updatedAt != expected.value then (t, Err(Conflict))
      else
        var row := current.(draft := Some(value), active := true, updatedBy := actor, updatedAt := now);
        (t.(records := t.records[value.key := row]), Ok(row))
  }

  function Publish(t: Tables, value: Template, expected: Option<Time>, actor: string, now: Time): (Tables, Result<Record>) {
    if value.key == "" || value.version < 1 || actor == "" then (t, Err(Invalid))
    else if value.key !in t.records then (t, Err(NotFound))
    else
      var current := t.records[value.key];
      if expected.Some? && current.updatedAt != expected.value then (t, Err(Conflict))
      else if (value.key, value.version) in t.versions then (t, Err(Duplicate))
      else
        var stored := AsPublished(value);
        var row := current.(draft := None, published := Some(stored), publishedVersion := value.version,
                            active := true, updatedBy := actor, updatedAt := now);
        (t.(records := t.records[value.key := row],
            versions := t.versions[(value.key, value.version) := VersionRow(stored, actor, now)]), Ok(row))
  }

  function Disable(t: Tables, key: Key, expected: Option<Time>, actor: string, now: Time): (Tables, Result<Record>) {
    if key == "" || actor == "" then (t, Err(Invalid))
    else if key !in t.records then (t, Err(NotFound))
    else
      var current := t.records[key];
      if expected.Some? && current.updatedAt != expected.value then (t, Err(Conflict))
      else
        var row := current.(active := false, updatedBy := actor, updatedAt := now);
        (t.(records := t.records[key := row]), Ok(row))
  }

  predicate HasOpen(t: Tables, key: Key) {
    exists id :: id in t.requests && t.requests[id].key == key && t.requests[id].status.Open()
  }

  /** What the insert transaction comes to. A taken lock row is explained by a later query. */
  datatype Insertion = Inserted | LockTaken | Faulted(error: StoreError)

  function CreateRequest(t: Tables, id: RequestId, request: Request): (Tables, Insertion) {
    if id == "" || request.key == "" then (t, Faulted(Invalid))
    else if request.key in t.locks then (t, LockTaken)
    else if id in t.requests then (t, Faulted(Duplicate))
    else (t.(locks := t.locks[request.key := id], requests := t.requests[id := request]), Inserted)
  }

  /** The error of a refused insert: a conflict when an open request is found now, the plain lock error otherwise. */
  function Explanation(t: Tables, key: Key): StoreError {
    if HasOpen(t, key) then Conflict else Duplicate
  }

  /** Whether a transition names a lease that the row must still carry. */
  predicate Fenced(x: Transition) {
    x.expectedOwner != "" && x.expectedToken > 0
  }

  function Moved(r: Request, x: Transition): Request {
    r.(status := x.status, scheduledFor := x.scheduledFor, reviewedBy := x.reviewedBy, reviewedAt := x.reviewedAt,
       publishedVersion := x.publishedVersion, failure := x.failure, leaseOwner := "", leaseExpiresAt := None,
       updatedAt := x.updatedAt)
  }

  function LocksWithout(locks: map<Key, RequestId>, id: RequestId): map<Key, RequestId> {
    map k | k in locks && locks[k] != id :: locks[k]
  }

  function TransitionRequest(t: Tables, id: RequestId, from: RequestStatus, x: Transition): (Tables, Result<Request>) {
    if id == "" || (from == Publishing && !Fenced(x)) then (t, Err(Invalid))
    else if id !in t.requests then (t, Err(NotFound))
    else
      var r := t.requests[id];
      if r.status != from || (Fenced(x) && !(r.leaseOwner == x.expectedOwner && r.fencingToken == x.expectedToken)) then
        (t, Err(Conflict))
      else
        (t.(requests := t.requests[id := Moved(r, x)],
            locks := if x.status.Open() then t.locks else LocksWithout(t.locks, id)), Ok(Moved(r, x)))
  }

  /** Due for a worker: scheduled and reached, or publishing under an expired lease. */
  predicate Claimable(r: Request, now: Time) {
    (r.status == Scheduled && DueBy(r.scheduledFor, now)) || (r.status == Publishing && DueBy(r.leaseExpiresAt, now))
  }

  /** The UPDATE of a claim; the row is read back by a later statement. */
  function ClaimRequest(t: Tables, id: RequestId, owner: string, now: Time, expires: Time): (Tables, Result<bool>) {
    if id == "" || owner == "" then (t, Err(Invalid))
    else if id !in t.requests || !Claimable(t.requests[id], now) then (t, Ok(false))
    else
      var r := t.requests[id];
      (t.(requests := t.requests[id := r.(status := Publishing, leaseOwner := owner, leaseExpiresAt := Some(expires),
                                          fencingToken := r.fencingToken + 1, updatedAt := now)]), Ok(true))
  }

  /** What publishing makes of a template: status and content hash are set anew, everything else is its own. */
  predicate PublishedFrom(value: Template, stored: Template) {
    && stored.key == value.key && stored.content == value.content && stored.fallbacks == value.fallbacks && stored.version == value.version
    && stored.status == PublishedText && stored.contentHash == Digest(value.key, value.content, value.fallbacks, PublishedText, value.version)
  }

  // ----- the store object: the same calls, statement by statement -----

  class Store {
    var records: map<Key, Record>
    var versions: map<(Key, int), VersionRow>
    var requests: map<RequestId, Request>
    var locks: map<Key, RequestId>

    function Contents(): Tables
      reads this
    {
      Tables(records, versions, requests, locks)
    }

    constructor ()
      ensures Contents() == EMPTY_TABLES
    {
      records, versions, requests, locks := map[], map[], map[], map[];
    }

    /** Seeds the listed templates one transaction at a time; stops at the first error. */
    method SyncPublished(templates: seq<Template>, now: Time) returns (result: Result<()>)
      modifies this
      ensures (Contents(), result) == SeedAll(old(Contents()), templates, now)
      ensures forall k :: k in old(records) ==> k in records && records[k] == old(records)[k]
      ensures forall k :: k in records && k !in old(records) ==> exists i :: 0 <= i < |templates| && templates[i].key == k
      ensures result.Ok? ==> forall i :: 0 <= i < |templates| ==> templates[i].key in records
    {
      for i := 0 to |templates|
        invariant SeedAll(old(Contents()), templates, now) == SeedAll(Contents(), templates[i..], now)
        invariant forall k :: k in old(records) ==> k in records && records[k] == old(records)[k]
        invariant forall k :: k in records && k !in old(records) ==> exists j :: 0 <= j < |templates| && templates[j].key == k
        invariant forall j :: 0 <= j < i ==> templates[j].key in records
      {
        assert templates[i..][0] == templates[i] && templates[i..][1..] == templates[i + 1..];
        var one := SeedPublishedTemplate(templates[i], now);
        if one.Err? {
          return one;
        }
      }
      return Ok(());
    }

    method SeedPublishedTemplate(value: Template, now: Time) returns (result: Result<()>)
      modifies this
      ensures (Contents(), result) == Seed(old(Contents()), value, now)
      ensures requests == old(requests) && locks == old(locks)
      ensures result.Ok? <==> value.key != "" && value.version >= 1 && (value.key in old(records) || (value.key, value.version) !in old(versions))
      ensures result.Err? || value.key in old(records) ==> records == old(records) && versions == old(versions)
      ensures result.Ok? && value.key !in old(records) ==>
                && value.key in records && records == old(records)[value.key := records[value.key]]
                && var r := records[value.key];
                   && r.published.Some? && PublishedFrom(value, r.published.value) && r.publishedVersion == value.version
                   && r == Record(None, r.published, value.version, true, "manifest", now, now)
                   && versions == old(versions)[(value.key, value.version) := VersionRow(r.published.value, "manifest", now)]
    {
      if value.key == "" || value.version < 1 {
        return Err(Invalid);
      }
      if value.key in records {
        return Ok(());
      }
      var stored := AsPublished(value);
      var begun := records;
      records := records[value.key := Record(None, Some(stored), value.version, true, "manifest", now, now)];
      if (value.key, value.version) in versions {
        records := begun;
        return Err(Duplicate);
      }
      versions := versions[(value.key, value.version) := VersionRow(stored, "manifest", now)];
      return Ok(());
    }

    method SaveDraftRow(value: Template, expected: Option<Time>, actor: string, now: Time) returns (result: Result<Record>)
      modifies this
      ensures (Contents(), result) == SaveDraft(old(Contents()), value, expected, actor, now)
      ensures versions == old(versions) && requests == old(requests) && locks == old(locks)
      ensures result.Ok? <==>
                && value.key != "" && actor != ""
                && (expected == None || (value.key in old(records) && old(records)[value.key].updatedAt == expected.value))
      ensures result.Ok? ==>
                && records == old(records)[value.key := result.value]
                && result.value == if value.key in old(records)
                                   then old(records)[value.key].(draft := Some(value), active := true, updatedBy := actor, updatedAt := now)
                                   else Record(Some(value), None, 0, true, actor, now, now)
      ensures result.Err? ==> records == old(records) && result.error == if value.key == "" || actor == "" then Invalid else Conflict
    {
      if value.key == "" || actor == "" {
        return Err(Invalid);
      }
      if value.key !in records {
        if expected.Some? {
          return Err(Conflict);
        }
        records := records[value.key := Record(Some(value), None, 0, true, actor, now, now)];
      } else {
        if expected.Some? && records[value.key].updatedAt != expected.value {
          return Err(Conflict);
        }
        records := records[value.key := records[value.key].(draft := Some(value), active := true, updatedBy := actor, updatedAt := now)];
      }
      return Ok(records[value.key]);
    }

    method PublishRow(value: Template, expected: Option<Time>, actor: string, now: Time) returns (result: Result<Record>)
      modifies this
      ensures (Contents(), result) == Publish(old(Contents()), value, expected, actor, now)
      ensures requests == old(requests) && locks == old(locks)
      ensures result.Ok? <==>
                && value.key != "" && value.version >= 1 && actor != "" && value.key in old(records)
                && (expected == None || old(records)[value.key].updatedAt == expected.value) && (value.key, value.version) !in old(versions)
      ensures result.Ok? ==>
                && records == old(records)[value.key := result.value]
                && var before, r := old(records)[value.key], result.value;
                   && r.published.Some? && PublishedFrom(value, r.published.value)
                   && r == Record(None, r.published, value.version, true, actor, before.createdAt, now)
                   && versions == old(versions)[(value.key, value.version) := VersionRow(r.published.value, actor, now)]
      ensures result.Err? ==> records == old(records) && versions == old(versions)
    {
      if value.key == "" || value.version < 1 || actor == "" {
        return Err(Invalid);
      }
      var stored := AsPublished(value);
      if value.key !in records {
        return Err(NotFound);
      }
      if expected.Some? && records[value.key].updatedAt != expected.value {
        return Err(Conflict);
      }
      var begun := records;
      records := records[value.key := records[value.key].(draft := None, published := Some(stored), publishedVersion := value.version,
                                                          active := true, updatedBy := actor, updatedAt := now)];
      if (value.key, value.version) in versions {
        records := begun;
        return Err(Duplicate);
      }
      versions := versions[(value.key, value.version) := VersionRow(stored, actor, now)];
      return Ok(records[value.key]);
    }

    method DisableRow(key: Key, expected: Option<Time>, actor: string, now: Time) returns (result: Result<Record>)
      modifies this
      ensures (Contents(), result) == Disable(old(Contents()), key, expected, actor, now)
      ensures versions == old(versions) && requests == old(requests) && locks == old(locks)
      ensures result.Ok? <==>
                && key != "" && actor != "" && key in old(records) && (expected == None || old(records)[key].updatedAt == expected.value)
      ensures result.Ok? ==>
                && result.value == old(records)[key].(active := false, updatedBy := actor, updatedAt := now)
                && records == old(records)[key := result.value]
      ensures result.Err? ==> records == old(records) && (result.error == NotFound <==> key != "" && actor != "" && key !in old(records))
    {
      if key == "" || actor == "" {
        return Err(Invalid);
      }
      if key !in records {
        return Err(NotFound);
      }
      if expected.Some? && records[key].updatedAt != expected.value {
        return Err(Conflict);
      }
      records := records[key := records[key].(active := false, updatedBy := actor, updatedAt := now)];
      return Ok(records[key]);
    }

    /** Takes the template's lock row, then inserts the request; either failure rolls both back. */
    method CreatePublicationRequest(id: RequestId, request: Request) returns (result: Insertion)
      modifies this
      ensures (Contents(), result) == CreateRequest(old(Contents()), id, request)
      ensures records == old(records) && versions == old(versions)
      ensures result == Inserted <==> id != "" && request.key != "" && request.key !in old(locks) && id !in old(requests)
      ensures result == LockTaken <==> id != "" && request.key != "" && request.key in old(locks)
      ensures if result == Inserted then requests == old(requests)[id := request] && locks == old(locks)[request.key := id]
              else requests == old(requests) && locks == old(locks)
    {
      if id == "" || request.key == "" {
        return Faulted(Invalid);
      }
      if request.key in locks {
        return LockTaken;
      }
      var begun := locks;
      locks := locks[request.key := id];
      if id in requests {
        locks := begun;
        return Faulted(Duplicate);
      }
      requests := requests[id := request];
      return Inserted;
    }

    method TransitionPublicationRequest(id: RequestId, from: RequestStatus, x: Transition) returns (result: Result<Request>)
      modifies this
      ensures (Contents(), result) == TransitionRequest(old(Contents()), id, from, x)
      ensures records == old(records) && versions == old(versions)
      ensures result.Ok? <==>
                && id != "" && id in old(requests) && old(requests)[id].status == from
                && (from == Publishing ==> x.expectedOwner != "" && x.expectedToken > 0)
                && (x.expectedOwner != "" && x.expectedToken > 0 ==>
                      old(requests)[id].leaseOwner == x.expectedOwner && old(requests)[id].fencingToken == x.expectedToken)
      ensures result.Ok? ==>
                && requests == old(requests)[id := result.value]
                && result.value == old(requests)[id].(
                     status := x.status, scheduledFor := x.scheduledFor, reviewedBy := x.reviewedBy, reviewedAt := x.reviewedAt,
                     publishedVersion := x.publishedVersion, failure := x.failure, leaseOwner := "", leaseExpiresAt := None, updatedAt := x.updatedAt)
                && (forall k :: k in locks <==> k in old(locks) && (x.status in {Pending, Scheduled, Publishing} || old(locks)[k] != id))
                && (forall k :: k in locks ==> locks[k] == old(locks)[k])
      ensures result.Err? ==> requests == old(requests) && locks == old(locks)
    {
      if id == "" || (from == Publishing && (x.expectedOwner == "" || x.expectedToken < 1)) {
        return Err(Invalid);
      }
      if id !in requests {
        return Err(NotFound);
      }
      var current := requests[id];
      if current.status != from {
        return Err(Conflict);
      }
      var affected := 1;
      if x.expectedOwner != "" && x.expectedToken > 0 && (current.leaseOwner != x.expectedOwner || current.fencingToken != x.expectedToken) {
        affected := 0;
      }
      if affected != 1 {
        return Err(Conflict);
      }
      requests := requests[id := Moved(current, x)];
      if !x.status.Open() {
        locks := LocksWithout(locks, id);
      }
      return Ok(requests[id]);
    }

    /** The claim's UPDATE; reports whether one row was affected. */
    method ClaimPublicationRequest(id: RequestId, owner: string, now: Time, expires: Time) returns (result: Result<bool>)
      modifies this
      ensures (Contents(), result) == ClaimRequest(old(Contents()), id, owner, now, expires)
      ensures result == Ok(true) <==>
                && id != "" && owner != "" && id in old(requests)
                && var r := old(requests)[id];
                   || (r.status == Scheduled && (r.scheduledFor == None || r.scheduledFor.value <= now))
                   || (r.status == Publishing && (r.leaseExpiresAt == None || r.leaseExpiresAt.value <= now))
    {
      if id == "" || owner == "" {
        return Err(Invalid);
      }
      if id in requests && Claimable(requests[id], now) {
        requests := requests[id := requests[id].(status := Publishing, leaseOwner := owner, leaseExpiresAt := Some(expires),
                                                 fencingToken := requests[id].fencingToken + 1, updatedAt := now)];
        return Ok(true);
      }
      return Ok(false);
    }

    /** Counts the template's open requests by scanning the request table. */
    method HasOpenPublicationRequest(key: Key) returns (open: bool)
      ensures open <==> HasOpen(Contents(), key)
      ensures open <==> exists id :: id in requests && requests[id].key == key && requests[id].status in {Pending, Scheduled, Publishing}
    {
      var rest := requests.Keys;
      open := false;
      while rest != {}
        invariant rest <= requests.Keys
        invariant open <==> exists id :: id in requests && id !in rest && requests[id].key == key && requests[id].status.Open()
        decreases rest
      {
        var id :| id in rest;
        if requests[id].key == key && requests[id].status.Open() {
          open := true;
        }
        rest := rest - {id};
      }
    }
  }

  function SeedAll(t: Tables, templates: seq<Template>, now: Time): (Tables, Result<()>)
    decreases templates
  {
    if templates == [] then (t, Ok(()))
    else
      var one := Seed(t, templates[0], now);
      if one.1.Err? then one else SeedAll(one.0, templates[1..], now)
  }
}
