/** From a producer's intent to a durable event: locale choice, plan compilation, validation and identities. */
module Compiler {
  import opened Prelude
  import opened Leases
  import opened AlertFolding
  import opened EventTables
  import opened EventMachine
  import EventResults
  import Users

  const SECOND := 1_000_000_000
  const RECIPIENT_LIMIT := 500

  datatype RuleChannel = RuleChannel(
    channel: string, templateKey: string, connector: string, connection: string, operation: string, mode: string,
    delay: int, digestWindow: int, digestMaximum: int, step: int, cancelWhenTerminal: bool)

  datatype Rule = Rule(
    eventType: string, enabled: bool, channels: seq<RuleChannel>, resolvers: set<string>,
    dedupeWindow: int, aggregationWindow: int, reminderInterval: int, maximumReminders: int, recoveryEventType: string)

  datatype EventType = EventType(
    key: string, source: string, locales: map<string, string>, defaultLocale: string, resolvers: set<string>, actionable: bool)

  /** `occurredAt` is absent when the text is not a timestamp; `groupable` alert states are the ones a producer may send. */
  datatype Intent = Intent(
    workspace: string, id: string, eventType: string, sourceEventId: string, recipients: seq<string>, resolverKeys: seq<string>,
    groupKey: string, dedupeKey: string, alertState: AlertState, actionState: string, locale: string, occurredAt: Option<Time>)

  datatype Catalog = Catalog(types: map<string, EventType>, rules: map<string, Rule>)

  // ----- the catalog's rules -----

  function Mode(c: RuleChannel): string {
    if c.mode == "" then "immediate" else c.mode
  }

  predicate ChannelOk(c: RuleChannel, supported: set<string>) {
    && c.delay >= 0 && c.step >= 0 && c.digestWindow >= 0 && c.digestMaximum >= 0
    && (Mode(c) == "immediate" || (Mode(c) == "digest" && c.digestWindow > 0 && c.delay == 0 && c.step == 0))
    && (if c.channel == "in_app" then
          c.templateKey == "" && c.connector == "" && c.operation == "" && c.delay == 0 && c.step == 0 && Mode(c) == "immediate" && c.digestWindow == 0
        else c.channel in supported && StableKey(c.templateKey) && c.connector != "" && c.operation != "")
  }

  predicate DistinctChannels(channels: seq<RuleChannel>) {
    forall i, j :: 0 <= i < j < |channels| ==> channels[i].channel != channels[j].channel || channels[i].step != channels[j].step
  }

  predicate WindowsOk(r: Rule) {
    r.dedupeWindow >= 0 && r.aggregationWindow >= 0 && r.reminderInterval >= 0 && r.maximumReminders >= 0
  }

  /** A rule is for a known event type, recovers to a known one if to any, and names no channel twice at the same escalation step. */
  predicate RuleOk(r: Rule, types: set<string>, supported: set<string>) {
    && r.eventType != "" && r.eventType in types && WindowsOk(r)
    && (r.recoveryEventType == "" || r.recoveryEventType in types)
    && (forall i :: 0 <= i < |r.channels| ==> ChannelOk(r.channels[i], supported))
    && DistinctChannels(r.channels)
  }

  /** Column by column: the waits and modes of a channel, and what an in-app or an external one must and must not name. */
  lemma ChannelOkIff(c: RuleChannel, supported: set<string>)
    ensures ChannelOk(c, supported) <==>
              && c.delay >= 0 && c.step >= 0 && c.digestWindow >= 0 && c.digestMaximum >= 0 && c.mode in {"", "immediate", "digest"}
              && (c.mode == "digest" ==> c.digestWindow > 0 && c.delay == 0 && c.step == 0)
              && (c.channel == "in_app" ==>
                    c.templateKey == c.connector == c.operation == "" && c.delay == c.step == c.digestWindow == 0 && c.mode != "digest")
              && (c.channel != "in_app" ==> c.channel in supported && StableKey(c.templateKey) && c.connector != "" && c.operation != "")
  {
    hide StableKey;
  }

  method ValidateRule(r: Rule, types: set<string>, supported: set<string>) returns (ok: bool)
    ensures ok <==> RuleOk(r, types, supported)
    ensures ok <==>
              && r.eventType != "" && r.eventType in types && (r.recoveryEventType != "" ==> r.recoveryEventType in types)
              && r.dedupeWindow >= 0 && r.aggregationWindow >= 0 && r.reminderInterval >= 0 && r.maximumReminders >= 0
              && (forall c :: c in r.channels ==> ChannelOk(c, supported))
              && (forall i, j :: 0 <= i < j < |r.channels| ==> (r.channels[i].channel, r.channels[i].step) != (r.channels[j].channel, r.channels[j].step))
  {
    hide ChannelOk;
    if r.eventType == "" || r.eventType !in types || r.dedupeWindow < 0 || r.aggregationWindow < 0 || r.reminderInterval < 0 || r.maximumReminders < 0 {
      return false;
    }
    if r.recoveryEventType != "" && r.recoveryEventType !in types {
      return false;
    }
    var seen: set<(string, int)> := {};
    for i := 0 to |r.channels|
      invariant forall j :: 0 <= j < i ==> ChannelOk(r.channels[j], supported) && (r.channels[j].channel, r.channels[j].step) in seen
      invariant forall key :: key in seen ==> exists j :: 0 <= j < i && key == (r.channels[j].channel, r.channels[j].step)
      invariant forall j, k :: 0 <= j < k < i ==> r.channels[j].channel != r.channels[k].channel || r.channels[j].step != r.channels[k].step
    {
      var c := r.channels[i];
      if (c.channel, c.step) in seen || !ChannelOk(c, supported) {
        return false;
      }
      seen := seen + {(c.channel, c.step)};
    }
    return true;
  }

  // ----- locales -----

  function Folded(c: char): char {
    if c == '_' then '-' else if 'A' <= c <= 'Z' then c - 'A' + 'a' else c
  }

  /** Locales are compared without case and with either separator. */
  function Normal(locale: string): string {
    seq(|locale|, i requires 0 <= i < |locale| => Folded(locale[i]))
  }

  /** A run over a map's keys, in whatever order the runtime gives them. */
  ghost predicate Iterates(order: seq<string>, locales: map<string, string>) {
    && (forall l :: l in order <==> l in locales)
    && (forall i, j :: 0 <= i < j < |order| ==> order[i] != order[j])
  }

  function FirstMatch(order: seq<string>, requested: string): (r: Option<string>)
    ensures r.Some? ==> r.value in order && Normal(r.value) == Normal(requested)
    ensures r.None? ==> forall l :: l in order ==> Normal(l) != Normal(requested)
  {
    if order == [] then None
    else if Normal(order[0]) == Normal(requested) then Some(order[0])
    else FirstMatch(order[1..], requested)
  }

  function ChosenLocale(t: EventType, order: seq<string>, requested: string): Option<string> {
    var exact := FirstMatch(order, requested);
    if exact.Some? then exact else FirstMatch(order, t.defaultLocale)
  }

  predicate LocalesDistinct(t: EventType) {
    forall a, b :: a in t.locales && b in t.locales && a != b ==> Normal(a) != Normal(b)
  }

  lemma MatchIgnoresOrder(t: EventType, order: seq<string>, order': seq<string>, requested: string)
    requires LocalesDistinct(t) && Iterates(order, t.locales) && Iterates(order', t.locales)
    ensures FirstMatch(order, requested) == FirstMatch(order', requested)
  {
    hide Normal;
  }

  /** The chosen locale is independent of map iteration order exactly when no two of the type's locales normalize alike. */
  lemma LocaleChoiceStableIff(t: EventType)
    ensures LocalesDistinct(t) <==>
              forall order, order', requested :: Iterates(order, t.locales) && Iterates(order', t.locales) ==>
                ChosenLocale(t, order, requested) == ChosenLocale(t, order', requested)
  {
    hide Normal;
    if LocalesDistinct(t) {
      forall order, order', requested | Iterates(order, t.locales) && Iterates(order', t.locales)
        ensures ChosenLocale(t, order, requested) == ChosenLocale(t, order', requested)
      {
        MatchIgnoresOrder(t, order, order', requested);
        MatchIgnoresOrder(t, order, order', t.defaultLocale);
      }
    } else {
      var a, b :| a in t.locales && b in t.locales && a != b && Normal(a) == Normal(b);
      var rest := AnyOrder(t.locales.Keys - {a, b});
      var order, order' := [a, b] + rest, [b, a] + rest;
      assert Iterates(order, t.locales) && Iterates(order', t.locales);
      assert ChosenLocale(t, order, a) == Some(a) && ChosenLocale(t, order', a) == Some(b);
    }
  }

  lemma {:induction false} AnyOrder(keys: set<string>) returns (order: seq<string>)
    ensures forall l :: l in order <==> l in keys
    ensures forall i, j :: 0 <= i < j < |order| ==> order[i] != order[j]
    decreases |keys|
  {
    if keys == {} {
      order := [];
    } else {
      var l :| l in keys;
      var rest := AnyOrder(keys - {l});
      order := [l] + rest;
    }
  }

  // ----- plans -----

  /** The digest window takes the place of the delay; no positive wait means no schedule. */
  function FirstAttemptAt(occurredAt: Option<Time>, delay: int, digestWindow: int): Option<Time> {
    var wait := if digestWindow > 0 then digestWindow else delay;
    if occurredAt.None? || wait <= 0 then None else Some(occurredAt.value + wait * SECOND)
  }

  function Join(parts: seq<string>, separator: string): string {
    if parts == [] then ""
    else if |parts| == 1 then parts[0]
    else parts[0] + separator + Join(parts[1..], separator)
  }

  function DigestKey(i: Intent, c: RuleChannel): string {
    if c.mode != "digest" then ""
    else "inbox_" + Join([i.workspace, i.eventType, c.channel, c.templateKey, c.connection, Join(i.recipients, ","), i.locale], "\0")
  }

  function CompilePlan(i: Intent, eventId: string, c: RuleChannel, snapshot: string, now: Time): Plan {
    Plan(PlanId(i.workspace, eventId, c.channel, c.connector, c.operation, if c.step >= 0 then c.step else 0), i.workspace, eventId,
         PlanBody(c.channel, c.templateKey, c.connector, c.connection, c.operation, i.recipients, i.locale, i.dedupeKey,
                  Mode(c) == "digest", DigestKey(i, c), c.digestMaximum, snapshot, snapshot, if c.step >= 0 then c.step else 0, c.cancelWhenTerminal),
         NewLease(FirstAttemptAt(i.occurredAt, c.delay, c.digestWindow), now), "", now)
  }

  function External(channels: seq<RuleChannel>): seq<RuleChannel> {
    if channels == [] then []
    else External(channels[..|channels| - 1]) + (if channels[|channels| - 1].channel == "in_app" then [] else [channels[|channels| - 1]])
  }

  function PlansFor(rule: Option<Rule>, i: Intent, snapshot: string, now: Time): seq<Plan> {
    if rule.None? || !rule.value.enabled then []
    else
      var channels := External(rule.value.channels);
      seq(|channels|, k requires 0 <= k < |channels| => CompilePlan(i, i.id, channels[k], snapshot, now))
  }

  /** Column by column: the plan of one external channel, queued under fresh counters, for at once or after its wait. */
  predicate CompiledFrom(p: Plan, i: Intent, c: RuleChannel, snapshot: string, now: Time) {
    && p.id == PlanId(i.workspace, i.id, c.channel, c.connector, c.operation, p.body.step) && (c.step >= 0 ==> p.body.step == c.step)
    && p.workspace == i.workspace && p.eventId == i.id && p.outboxMessageId == "" && p.createdAt == now
    && p.body.channel == c.channel && p.body.templateKey == c.templateKey && p.body.connector == c.connector
    && p.body.connection == c.connection && p.body.operation == c.operation && p.body.recipients == i.recipients && p.body.locale == i.locale
    && p.body.dedupeKey == i.dedupeKey && p.body.title == snapshot && p.body.text == snapshot && p.body.cancelWhenTerminal == c.cancelWhenTerminal
    && p.body.digest == (c.mode == "digest") && p.body.digestMaximum == c.digestMaximum
    && p.body.digestKey == (if c.mode == "digest" then
                              "inbox_" + (i.workspace + "\0" + (i.eventType + "\0" + (c.channel + "\0" + (c.templateKey + "\0"
                              + (c.connection + "\0" + (Join(i.recipients, ",") + "\0" + i.locale))))))
                            else "")
    && p.lease.phase == Queued && p.lease.attempts == 0 && p.lease.token == 0 && p.lease.owner == "" && p.lease.expires == None
    && p.lease.lastError == "" && p.lease.updatedAt == now
    && (c.digestWindow <= 0 && c.delay <= 0 ==> p.lease.nextAttemptAt == None)
    && (i.occurredAt == None ==> p.lease.nextAttemptAt == None)
    && (i.occurredAt.Some? && (c.digestWindow > 0 || c.delay > 0) ==>
          p.lease.nextAttemptAt == Some(i.occurredAt.value + (if c.digestWindow > 0 then c.digestWindow else c.delay) * 1_000_000_000))
  }

  lemma CompilesColumns(i: Intent, c: RuleChannel, snapshot: string, now: Time)
    ensures CompiledFrom(CompilePlan(i, i.id, c, snapshot, now), i, c, snapshot, now)
  {
    hide Join;
    DigestParts(i, c);
    hide DigestKey;
  }

  lemma DigestParts(i: Intent, c: RuleChannel)
    ensures c.mode == "digest" ==>
              DigestKey(i, c) == "inbox_" + (i.workspace + "\0" + (i.eventType + "\0" + (c.channel + "\0" + (c.templateKey + "\0"
                                 + (c.connection + "\0" + (Join(i.recipients, ",") + "\0" + i.locale))))))
    ensures c.mode != "digest" ==> DigestKey(i, c) == ""
  {
    var audience := Join(i.recipients, ",");
    JoinTwo(audience, i.locale);
    JoinMore(c.connection, [audience, i.locale]);
    JoinMore(c.templateKey, [c.connection, audience, i.locale]);
    JoinMore(c.channel, [c.templateKey, c.connection, audience, i.locale]);
    JoinMore(i.eventType, [c.channel, c.templateKey, c.connection, audience, i.locale]);
    JoinMore(i.workspace, [i.eventType, c.channel, c.templateKey, c.connection, audience, i.locale]);
    assert [i.workspace] + [i.eventType, c.channel, c.templateKey, c.connection, audience, i.locale]
        == [i.workspace, i.eventType, c.channel, c.templateKey, c.connection, audience, i.locale];
    hide Join;
  }

  lemma JoinTwo(a: string, b: string)
    ensures Join([a, b], "\0") == a + "\0" + b
  {
    assert [a, b][1..] == [b];
  }

  lemma JoinMore(a: string, rest: seq<string>)
    requires rest != []
    ensures Join([a] + rest, "\0") == a + "\0" + Join(rest, "\0")
  {
    assert ([a] + rest)[1..] == rest;
  }

  lemma NothingExternal()
    ensures External([]) == []
  {
  }

  lemma ExternalGrows(channels: seq<RuleChannel>, k: nat)
    requires k < |channels|
    ensures External(channels[..k + 1]) == External(channels[..k]) + (if channels[k].channel == "in_app" then [] else [channels[k]])
  {
    assert channels[..k + 1][..k] == channels[..k];
  }

  /** One plan for each external channel of an enabled rule, in the rule's order; `from` says of which. */
  method CompilePlans(rule: Option<Rule>, i: Intent, snapshot: string, now: Time) returns (plans: seq<Plan>, ghost from: seq<nat>)
    ensures plans == PlansFor(rule, i, snapshot, now)
    ensures rule.None? || !rule.value.enabled ==> plans == []
    ensures rule.Some? && rule.value.enabled ==>
              var channels := rule.value.channels;
              && |from| == |plans| && (forall j, k :: 0 <= j < k < |from| ==> from[j] < from[k])
              && (forall k :: 0 <= k < |from| ==> from[k] < |channels| && channels[from[k]].channel != "in_app" && CompiledFrom(plans[k], i, channels[from[k]], snapshot, now))
              && (forall n :: 0 <= n < |channels| && channels[n].channel != "in_app" ==> n in from)
  {
    hide CompiledFrom, CompilePlan, DigestKey, External;
    plans, from := [], [];
    if rule.None? || !rule.value.enabled {
      return;
    }
    var channels := rule.value.channels;
    ghost var kept: seq<RuleChannel> := [];
    NothingExternal();
    for k := 0 to |channels|
      invariant kept == External(channels[..k])
      invariant |plans| == |kept| && forall j :: 0 <= j < |kept| ==> plans[j] == CompilePlan(i, i.id, kept[j], snapshot, now)
      invariant |from| == |plans| && (forall j, m :: 0 <= j < m < |from| ==> from[j] < from[m])
      invariant forall j :: 0 <= j < |from| ==> from[j] < k && channels[from[j]].channel != "in_app" && CompiledFrom(plans[j], i, channels[from[j]], snapshot, now)
      invariant forall n :: 0 <= n < k && channels[n].channel != "in_app" ==> n in from
    {
      CompilesColumns(i, channels[k], snapshot, now);
      ExternalGrows(channels, k);
      if channels[k].channel == "in_app" {
        continue;
      }
      plans := plans + [CompilePlan(i, i.id, channels[k], snapshot, now)];
      kept, from := kept + [channels[k]], from + [k];
    }
    assert channels[..|channels|] == channels;
  }

  // ----- events -----

  function RuleOf(c: Catalog, key: string): Option<Rule> {
    if key in c.rules then Some(c.rules[key]) else None
  }

  predicate ResolversAllowed(c: Catalog, t: EventType, keys: seq<string>) {
    forall k :: k in keys ==> k in t.resolvers || (RuleOf(c, t.key).Some? && k in RuleOf(c, t.key).value.resolvers)
  }

  const ACTION_STATES := {"none", "open", "completed", "expired", "cancelled"}

  /** The producer's action state, or what the event type's actions call for. */
  function ActionState(i: Intent, t: EventType): string {
    if i.actionState != "" then i.actionState else if t.actionable then "open" else "none"
  }

  /** The validator's demands on the assembled event. */
  predicate Acceptable(i: Intent, t: EventType) {
    && ActionState(i, t) in ACTION_STATES
    && StableKey(t.source) && StableKey(t.key) && (forall k :: k in Users.Unique(i.resolverKeys) ==> StableKey(k))
    && i.id != "" && i.workspace != "" && i.sourceEventId != "" && i.occurredAt.Some?
    && !i.alertState.Acknowledged? && (!i.alertState.NoAlert? ==> i.groupKey != "")
    && |Users.Unique(i.resolverKeys)| <= 8
    && (Users.Unique(i.recipients) != [] || Users.Unique(i.resolverKeys) != []) && |Users.Unique(i.recipients)| <= RECIPIENT_LIMIT
  }

  /** `render` stands for template rendering; `order` for the runtime's iteration order over the type's locales. */
  function Compile(c: Catalog, i: Intent, render: (string, string) -> string, order: seq<string>, now: Time): Result<Event> {
    if i.eventType !in c.types then Err(NotFound)
    else
      var t := c.types[i.eventType];
      var locale := ChosenLocale(t, order, i.locale);
      if !ResolversAllowed(c, t, Users.Unique(i.resolverKeys)) || locale.None? || locale.value !in t.locales || !Acceptable(i, t) then Err(Invalid)
      else
        var snapshot := render(locale.value, t.locales[locale.value]);
        Ok(Event.Event(i.id, t.source, i.sourceEventId,
                 EventBody(t.key, i.groupKey, i.alertState, ActionState(i, t), snapshot, Users.Unique(i.recipients), Users.Unique(i.resolverKeys), i.occurredAt.value),
                 PlansFor(RuleOf(c, t.key), i, snapshot, now), NewLease(None, now), now))
  }

  /** The locale that was asked for, in whatever case and with either separator, or else the default one, or none. */
  lemma LocaleChosen(t: EventType, order: seq<string>, requested: string)
    requires Iterates(order, t.locales)
    ensures var choice := ChosenLocale(t, order, requested);
      && (choice.Some? ==> choice.value in t.locales)
      && (choice.Some? <==> exists l :: l in t.locales && (Normal(l) == Normal(requested) || Normal(l) == Normal(t.defaultLocale)))
      && (choice.Some? && (exists l :: l in t.locales && Normal(l) == Normal(requested)) ==> Normal(choice.value) == Normal(requested))
      && (choice.Some? && (forall l :: l in t.locales ==> Normal(l) != Normal(requested)) ==> Normal(choice.value) == Normal(t.defaultLocale))
  {
    hide Normal;
  }

  /** Case of ASCII letters and the separator do not count, everything else does. */
  lemma NormalIff(a: string, b: string)
    ensures Normal(a) == Normal(b) <==>
              |a| == |b| && forall k :: 0 <= k < |a| ==>
                || a[k] == b[k] || (a[k] in {'_', '-'} && b[k] in {'_', '-'})
                || ('A' <= a[k] <= 'Z' && b[k] as int == a[k] as int + 32) || ('A' <= b[k] <= 'Z' && a[k] as int == b[k] as int + 32)
  {
    if Normal(a) == Normal(b) {
      forall k | 0 <= k < |a| ensures Folded(a[k]) == Folded(b[k]) {
        assert Normal(a)[k] == Normal(b)[k];
      }
    }
  }

  /** What the producer must bring, column by column. */
  predicate Deliverable(i: Intent, t: EventType) {
    && i.id != "" && i.workspace != "" && i.sourceEventId != "" && i.occurredAt.Some?
    && i.actionState in {"", "none", "open", "completed", "expired", "cancelled"}
    && (i.alertState == NoAlert || (i.alertState in {Firing, Resolved} && i.groupKey != ""))
    && StableKey(t.source) && StableKey(t.key)
    && (forall k :: k in i.resolverKeys && k != "" ==> StableKey(k)) && |Users.Unique(i.resolverKeys)| <= 8
    && ((exists u :: u in i.recipients && u != "") || exists k :: k in i.resolverKeys && k != "") && |Users.Unique(i.recipients)| <= 500
  }

  lemma AcceptableIff(i: Intent, t: EventType)
    ensures Acceptable(i, t) <==> Deliverable(i, t)
  {
    hide StableKey;
    assert Users.Unique(i.recipients) != [] <==> exists u :: u in i.recipients && u != "" by {
      if Users.Unique(i.recipients) != [] { assert Users.Unique(i.recipients)[0] in i.recipients; }
      if u :| u in i.recipients && u != "" { assert u in Users.Unique(i.recipients); }
    }
    assert Users.Unique(i.resolverKeys) != [] <==> exists k :: k in i.resolverKeys && k != "" by {
      if Users.Unique(i.resolverKeys) != [] { assert Users.Unique(i.resolverKeys)[0] in i.resolverKeys; }
      if k :| k in i.resolverKeys && k != "" { assert k in Users.Unique(i.resolverKeys); }
    }
  }

  /** An intent compiles exactly when its type is published, has a locale for it, allows its resolvers, and the columns are acceptable; then the event is the intent's. */
  lemma CompilesIff(c: Catalog, i: Intent, render: (string, string) -> string, order: seq<string>, now: Time)
    requires i.eventType in c.types ==> Iterates(order, c.types[i.eventType].locales)
    ensures var done := Compile(c, i, render, order, now);
      && (i.eventType !in c.types ==> done == Err(NotFound))
      && (i.eventType in c.types ==>
            var t := c.types[i.eventType];
            && (done.Ok? <==>
                  && (exists l :: l in t.locales && (Normal(l) == Normal(i.locale) || Normal(l) == Normal(t.defaultLocale)))
                  && (forall k :: k in i.resolverKeys && k != "" ==> k in t.resolvers || (t.key in c.rules && k in c.rules[t.key].resolvers))
                  && Deliverable(i, t))
            && (done.Ok? ==>
                  var e := done.value;
                  && e.id == i.id && e.source == t.source && e.sourceEventId == i.sourceEventId && e.createdAt == now
                  && e.body.eventType == t.key && e.body.groupKey == i.groupKey && e.body.alertState == i.alertState
                  && e.body.actionState == (if i.actionState != "" then i.actionState else if t.actionable then "open" else "none")
                  && e.body.recipients == Users.Unique(i.recipients) && e.body.resolvers == Users.Unique(i.resolverKeys)
                  && e.body.occurredAt == i.occurredAt.value && e.lease == Lease(Queued, 0, None, "", "", None, 0, now)
                  && exists l :: l in t.locales && e.body.text == render(l, t.locales[l])
                       && e.plans == PlansFor(if t.key in c.rules then Some(c.rules[t.key]) else None, i, e.body.text, now)))
  {
    hide PlansFor, Acceptable, Deliverable, Normal, Iterates;
    if i.eventType in c.types {
      AcceptableIff(i, c.types[i.eventType]);
      LocaleChosen(c.types[i.eventType], order, i.locale);
      hide ChosenLocale;
    }
  }

  // ----- main results -----

  /** Where a kept channel stands in the rule. */
  lemma {:induction false} ExternalFrom(channels: seq<RuleChannel>, n: nat, k: nat) returns (j: nat)
    requires n <= |channels| && k < |External(channels[..n])|
    ensures j < n && channels[j] == External(channels[..n])[k]
    decreases n
  {
    assert n > 0;
    assert channels[..n][..n - 1] == channels[..n - 1] && channels[..n][n - 1] == channels[n - 1];
    if k < |External(channels[..n - 1])| {
      j := ExternalFrom(channels, n - 1, k);
    } else {
      j := n - 1;
    }
  }

  lemma {:induction false} ExternalDistinct(r: Rule, types: set<string>, supported: set<string>, n: nat)
    requires RuleOk(r, types, supported) && n <= |r.channels|
    ensures DistinctChannels(External(r.channels[..n]))
    decreases n
  {
    hide ChannelOk, WindowsOk;
    if n > 0 {
      assert r.channels[..n][..n - 1] == r.channels[..n - 1] && r.channels[..n][n - 1] == r.channels[n - 1];
      ExternalDistinct(r, types, supported, n - 1);
      var kept := External(r.channels[..n - 1]);
      var last := r.channels[n - 1];
      assert External(r.channels[..n]) == kept + (if last.channel == "in_app" then [] else [last]);
      forall k | 0 <= k < |kept| ensures kept[k].channel != r.channels[n - 1].channel || kept[k].step != r.channels[n - 1].step {
        var j := ExternalFrom(r.channels, n - 1, k);
      }
      assert DistinctChannels(kept + [last]);
    }
  }

  lemma KeptStep(r: Rule, types: set<string>, supported: set<string>, k: nat)
    requires RuleOk(r, types, supported) && k < |External(r.channels)|
    ensures External(r.channels)[k].step >= 0
  {
    assert r.channels[..|r.channels|] == r.channels;
    var j := ExternalFrom(r.channels, |r.channels|, k);
    assert ChannelOk(r.channels[j], supported);
  }

  lemma PlansForDistinct(rule: Option<Rule>, i: Intent, snapshot: string, now: Time, types: set<string>, supported: set<string>)
    requires rule.Some? ==> RuleOk(rule.value, types, supported)
    ensures var plans := PlansFor(rule, i, snapshot, now);
      DistinctPlans(plans) && forall k :: 0 <= k < |plans| ==> plans[k].id.event == i.id && plans[k].eventId == i.id && LeaseOk(plans[k].lease)
  {
    hide RuleOk, External, DigestKey;
    if rule.Some? && rule.value.enabled {
      var channels := rule.value.channels;
      assert channels[..|channels|] == channels;
      ExternalDistinct(rule.value, types, supported, |channels|);
      var plans := PlansFor(rule, i, snapshot, now);
      forall j, k | 0 <= j < k < |plans| ensures plans[j].id != plans[k].id {
        KeptStep(rule.value, types, supported, j);
        KeptStep(rule.value, types, supported, k);
        assert plans[j] == CompilePlan(i, i.id, External(channels)[j], snapshot, now);
        assert plans[k] == CompilePlan(i, i.id, External(channels)[k], snapshot, now);
      }
    }
  }

  /**
   * A compiled event of a validated catalog is what the queue expects: fresh lease, its own id on every
   * plan, and no plan id twice. With one group per alert it is ready for the event machine.
   */
  lemma CompiledPlansAreDistinct(c: Catalog, i: Intent, render: (string, string) -> string, order: seq<string>, now: Time, supported: set<string>)
    requires forall key :: key in c.rules ==> RuleOk(c.rules[key], c.types.Keys, supported)
    requires Compile(c, i, render, order, now).Ok?
    ensures var e := Compile(c, i, render, order, now).value;
      && DistinctPlans(e.plans) && PlansOf(e) && e.lease == NewLease(None, e.createdAt)
      && (Compiled(e) <==> AlertDiscipline(e))
  {
    hide ChosenLocale, Users.Unique, ResolversAllowed, RuleOk, PlansFor, DistinctPlans, LeaseOk;
    var e := Compile(c, i, render, order, now).value;
    var t := c.types[i.eventType];
    var locale := ChosenLocale(t, order, i.locale).value;
    PlansForDistinct(RuleOf(c, t.key), i, render(locale, t.locales[locale]), now, c.types.Keys, supported);
  }

  /** Compiling an intent again, at another time and in another iteration order, gives an event the queue takes for the same one. */
  lemma CompileIsRepeatable(c: Catalog, i: Intent, render: (string, string) -> string, order: seq<string>, order': seq<string>, now: Time, now': Time)
    requires i.eventType in c.types ==>
      LocalesDistinct(c.types[i.eventType]) && Iterates(order, c.types[i.eventType].locales) && Iterates(order', c.types[i.eventType].locales)
    ensures var a, b := Compile(c, i, render, order, now), Compile(c, i, render, order', now');
      && a.Ok? == b.Ok? && (a.Ok? ==> SameIngest(a.value, b.value) && a.value.source == b.value.source && a.value.sourceEventId == b.value.sourceEventId)
  {
    if i.eventType in c.types {
      var t := c.types[i.eventType];
      MatchIgnoresOrder(t, order, order', i.locale);
      MatchIgnoresOrder(t, order, order', t.defaultLocale);
      var a, b := Compile(c, i, render, order, now), Compile(c, i, render, order', now');
      if a.Ok? {
        assert IngestView(a.value).plans == IngestView(b.value).plans;
      }
    }
  }

  /**
   * Publishing an intent again returns the stored event and creates nothing, whatever has happened to the
   * event in between, as long as its row has not been purged. After a purge it is created again exactly
   * when its source key has been purged as often as it was created and nothing stands under its id.
   */
  lemma RepublishCreatesIffPurged(c: Catalog, i: Intent, render: (string, string) -> string, order: seq<string>, order': seq<string>, now: Time, now': Time,
                                  before: seq<Action>, after: seq<Action>, t': Tables, result: Result<(Event, bool)>)
    requires i.eventType in c.types && LocalesDistinct(c.types[i.eventType])
    requires Iterates(order, c.types[i.eventType].locales) && Iterates(order', c.types[i.eventType].locales)
    requires Compile(c, i, render, order, now).Ok?
    requires var e := Compile(c, i, render, order, now).value;
      && e.id in Run(EventMachine.INITIAL, before).tables.events
      && Run(EventMachine.INITIAL, before).tables.events[e.id].(lease := e.lease) == e
    requires Compile(c, i, render, order', now').Ok?
    requires Enqueued(Run(Run(EventMachine.INITIAL, before), after).tables, Compile(c, i, render, order', now').value, t', result)
    ensures var g := Run(EventMachine.INITIAL, before); var g' := Run(g, after); var t := g'.tables;
      var s := SourceOf(Compile(c, i, render, order, now).value);
      && (g'.history.purged[s] == g.history.purged[s] ==> t' == t && i.id in t.events && result == Ok((t.events[i.id], false)))
      && (result.Ok? && result.value.1 <==> g'.history.created[s] == g'.history.purged[s] && i.id !in t.events)
  {
    hide Run, Compile, SameIngest, Enqueued, LocalesDistinct, Iterates;
    CompileIsRepeatable(c, i, render, order, order', now, now');
    var e, again := Compile(c, i, render, order, now).value, Compile(c, i, render, order', now').value;
    CompiledId(c, i, render, order, now);
    CompiledId(c, i, render, order', now');
    EventResults.RepublishReturnsStoredUntilPurged(before, after, e, again, t', result);
  }

  /**
   * Whatever the resolvers add, the named recipients of a compiled event come first and in order; without
   * resolvers they are the whole audience, which the inbox processor never refuses for its size.
   */
  lemma NamedRecipientsComeFirst(c: Catalog, i: Intent, render: (string, string) -> string, order: seq<string>, now: Time, resolved: seq<string>)
    requires Compile(c, i, render, order, now).Ok?
    ensures var named := Compile(c, i, render, order, now).value.body.recipients;
      && named <= Users.Unique(named + resolved)
      && (Compile(c, i, render, order, now).value.body.resolvers == [] ==>
            Users.Unique(named + []) == named && 0 < |Users.Unique(named + [])| <= RECIPIENT_LIMIT)
  {
    hide ChosenLocale, ResolversAllowed, PlansFor, Users.Unique;
    var named := Compile(c, i, render, order, now).value.body.recipients;
    Users.UniqueTwice(i.recipients);
    Users.UniqueKeepsOrder(named + resolved, |named|);
    assert (named + resolved)[..|named|] == named && named + [] == named;
  }

  lemma CompiledId(c: Catalog, i: Intent, render: (string, string) -> string, order: seq<string>, now: Time)
    requires Compile(c, i, render, order, now).Ok?
    ensures Compile(c, i, render, order, now).value.id == i.id
  {
  }
}
