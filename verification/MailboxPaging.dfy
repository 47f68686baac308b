/** The mailbox listing: filter, newest-first order, limit, and the cursor that continues a listing. */
module MailboxPaging {
  import opened Prelude
  import opened TextOrder

  datatype Mailbox = Inbox | Unread | ActionRequired | Archived

  /** Timestamps are their stored text; the empty text is "never". */
  datatype Row = Row(
    id: string, recipient: string, updatedAt: string, lastOccurredAt: string, readAt: string, archivedAt: string,
    actionState: string, category: string, source: string, severity: string, searchText: string)

  datatype Query = Query(
    recipients: seq<string>, mailbox: Mailbox, text: string, categories: seq<string>, sources: seq<string>,
    severities: seq<string>, actionStates: seq<string>, from: string, to: string, limit: int, before: (string, string))

  /** Base64 over a JSON list of texts; decoding is the inverse of encoding. */
  datatype Cursor = NoCursor | Garbled | Parts(parts: seq<string>)

  datatype Page = Page(items: seq<Row>, hasMore: bool, next: Cursor)

  predicate Blank(s: string) {
    forall i :: 0 <= i < |s| ==> s[i] == ' ' || s[i] == '\t' || s[i] == '\n' || s[i] == '\r'
  }

  function NormalLimit(limit: int): (r: int)
    ensures 1 <= r <= 100
  {
    if limit <= 0 then 50 else if limit > 100 then 100 else limit
  }

  /** Blank choices do not count; without any other choice every value passes. */
  predicate OneOf(value: string, choices: seq<string>) {
    (forall i :: 0 <= i < |choices| ==> Blank(choices[i])) || (value in choices && !Blank(value))
  }

  predicate InMailbox(m: Mailbox, r: Row) {
    match m
    case Inbox => r.archivedAt == ""
    case Unread => r.archivedAt == "" && r.readAt == ""
    case ActionRequired => r.archivedAt == "" && r.actionState == "open"
    case Archived => r.archivedAt != ""
  }

  /** `matches` is the store's text search. */
  predicate Selected(q: Query, matches: (string, string) -> bool, r: Row) {
    && OneOf(r.recipient, q.recipients) && InMailbox(q.mailbox, r)
    && (q.text != "" ==> matches(r.searchText, q.text))
    && OneOf(r.category, q.categories) && OneOf(r.source, q.sources) && OneOf(r.severity, q.severities)
    && OneOf(r.actionState, q.actionStates)
    && (q.from != "" ==> AtMost(q.from, r.lastOccurredAt))
    && (q.to != "" ==> AtMost(r.lastOccurredAt, q.to))
  }

  function Key(r: Row): (string, string) {
    (r.updatedAt, r.id)
  }

  /** Strictly older in the (updated_at, id) order. */
  predicate Below(k: (string, string), bound: (string, string)) {
    Less(k.0, bound.0) || (k.0 == bound.0 && Less(k.1, bound.1))
  }

  predicate PastCursor(q: Query, r: Row) {
    q.before.0 != "" && q.before.1 != "" ==> Below(Key(r), q.before)
  }

  function Filter(rows: seq<Row>, q: Query, matches: (string, string) -> bool): seq<Row> {
    if rows == [] then []
    else (if Selected(q, matches, rows[0]) && PastCursor(q, rows[0]) then [rows[0]] else []) + Filter(rows[1..], q, matches)
  }

  function Insert(r: Row, sorted: seq<Row>): seq<Row> {
    if sorted == [] || Below(Key(sorted[0]), Key(r)) then [r] + sorted else [sorted[0]] + Insert(r, sorted[1..])
  }

  /** ORDER BY updated_at DESC, id DESC. */
  function Descending(rows: seq<Row>): seq<Row> {
    if rows == [] then [] else Insert(rows[0], Descending(rows[1..]))
  }

  function Limited(rows: seq<Row>, n: nat): seq<Row> {
    if |rows| <= n then rows else rows[..n]
  }

  /** Refused without a recipient boundary. */
  method ListItems(rows: seq<Row>, q: Query, matches: (string, string) -> bool) returns (result: Result<(seq<Row>, bool)>)
    ensures result.Err? <==> q.recipients == []
    ensures result.Ok? ==>
              var all := Descending(Filter(rows, q, matches)); var n := NormalLimit(q.limit);
              result.value.0 == Limited(all, n) && result.value.1 == (|all| > n)
    ensures result.Ok? ==>
              var size := if q.limit <= 0 then 50 else if q.limit > 100 then 100 else q.limit;
              |result.value.0| <= size && (result.value.1 ==> |result.value.0| == size)
    ensures result.Err? ==> result.error == Invalid
  {
    if |q.recipients| == 0 {
      return Err(Invalid);
    }
    var limit := NormalLimit(q.limit);
    var selected := Limited(Descending(Filter(rows, q, matches)), limit + 1);
    var values := [];
    for i := 0 to |selected|
      invariant values == selected[..i]
    {
      values := values + [selected[i]];
    }
    var hasMore := |values| > limit;
    if hasMore {
      values := values[..limit];
    }
    return Ok((values, hasMore));
  }

  function DecodeCursor(c: Cursor): Result<(string, string)> {
    if c.Parts? && |c.parts| == 2 && !Blank(c.parts[0]) && !Blank(c.parts[1]) then Ok((c.parts[0], c.parts[1])) else Err(Invalid)
  }

  /** One page: the given cursor's if there is one. */
  function PageOf(rows: seq<Row>, q: Query, c: Cursor, matches: (string, string) -> bool): Result<Page> {
    var before := if c.NoCursor? then Ok(q.before) else DecodeCursor(c);
    if before.Err? then Err(before.error)
    else if q.recipients == [] then Err(Invalid)
    else
      var all := Descending(Filter(rows, q.(before := before.value), matches));
      var items := Limited(all, NormalLimit(q.limit));
      var more := |all| > NormalLimit(q.limit);
      Ok(Page(items, more, if more then Parts([items[|items| - 1].updatedAt, items[|items| - 1].id]) else NoCursor))
  }

  method List(rows: seq<Row>, q: Query, c: Cursor, matches: (string, string) -> bool) returns (page: Result<Page>)
    ensures page == PageOf(rows, q, c, matches)
  {
    var validated := q;
    if c != NoCursor {
      var decoded := DecodeCursor(c);
      if decoded.Err? {
        return Err(decoded.error);
      }
      validated := validated.(before := decoded.value);
    }
    var listed := ListItems(rows, validated, matches);
    if listed.Err? {
      return Err(listed.error);
    }
    var (items, hasMore) := listed.value;
    var next := NoCursor;
    if hasMore && |items| > 0 {
      var last := items[|items| - 1];
      next := Parts([last.updatedAt, last.id]);
    }
    return Ok(Page(items, hasMore, next));
  }

  // ----- order -----

  predicate Ordered(rows: seq<Row>) {
    forall i, j :: 0 <= i < j < |rows| ==> Below(Key(rows[j]), Key(rows[i]))
  }

  predicate DistinctIds(rows: seq<Row>) {
    forall i, j :: 0 <= i < j < |rows| ==> rows[i].id != rows[j].id
  }

  lemma BelowIsStrictOrder()
    ensures forall a :: !Below(a, a)
    ensures forall a, b :: Below(a, b) || a == b || Below(b, a)
    ensures forall a, b, c :: Below(a, b) && Below(b, c) ==> Below(a, c)
  {
    StrictTotalOrder();
  }

  lemma {:induction false} InsertOrders(r: Row, sorted: seq<Row>)
    requires Ordered(sorted) && forall i :: 0 <= i < |sorted| ==> sorted[i].id != r.id
    ensures Ordered(Insert(r, sorted)) && multiset(Insert(r, sorted)) == multiset{r} + multiset(sorted)
  {
    hide Below;
    BelowIsStrictOrder();
    if sorted == [] || Below(Key(sorted[0]), Key(r)) {
    } else {
      var rest := sorted[1..];
      assert sorted == [sorted[0]] + rest;
      InsertOrders(r, rest);
      assert Below(Key(r), Key(sorted[0]));
      forall i | 0 <= i < |Insert(r, rest)| ensures Below(Key(Insert(r, rest)[i]), Key(sorted[0])) {
        assert Insert(r, rest)[i] in multiset(Insert(r, rest));
        assert Insert(r, rest)[i] == r || Insert(r, rest)[i] in rest;
      }
    }
  }

  lemma {:induction false} DescendingOrders(rows: seq<Row>)
    requires DistinctIds(rows)
    ensures Ordered(Descending(rows)) && multiset(Descending(rows)) == multiset(rows)
  {
    if rows != [] {
      assert rows == [rows[0]] + rows[1..];
      DescendingOrders(rows[1..]);
      forall i | 0 <= i < |Descending(rows[1..])| ensures Descending(rows[1..])[i].id != rows[0].id {
        assert Descending(rows[1..])[i] in multiset(rows[1..]);
        assert Descending(rows[1..])[i] in rows[1..];
      }
      InsertOrders(rows[0], Descending(rows[1..]));
    }
  }

  lemma {:induction false} FilterFacts(rows: seq<Row>, q: Query, matches: (string, string) -> bool)
    requires DistinctIds(rows)
    ensures DistinctIds(Filter(rows, q, matches))
    ensures forall r :: r in Filter(rows, q, matches) <==> r in rows && Selected(q, matches, r) && PastCursor(q, r)
  {
    hide Selected, PastCursor;
    if rows != [] {
      FilterFacts(rows[1..], q, matches);
      assert rows == [rows[0]] + rows[1..];
      forall i | 0 <= i < |Filter(rows[1..], q, matches)| ensures Filter(rows[1..], q, matches)[i].id != rows[0].id {
        assert Filter(rows[1..], q, matches)[i] in rows[1..];
      }
    }
  }

  // ----- following a cursor to the end -----

  lemma {:induction false} OrderedUnique(a: seq<Row>, b: seq<Row>)
    requires Ordered(a) && Ordered(b) && forall r :: r in a <==> r in b
    ensures a == b
    decreases |a|
  {
    hide Below;
    BelowIsStrictOrder();
    if a == [] {
      assert forall i :: 0 <= i < |b| ==> b[i] in b;
    } else {
      assert a[0] in b && b != [] && b[0] in a;
      assert a[0] == b[0];
      forall r ensures r in a[1..] <==> r in b[1..] {
        assert r in a <==> r == a[0] || r in a[1..];
        assert r in b <==> r == b[0] || r in b[1..];
        if r in a[1..] { var i :| 0 <= i < |a[1..]| && a[1..][i] == r; assert a[i + 1] == r; }
        if r in b[1..] { var i :| 0 <= i < |b[1..]| && b[1..][i] == r; assert b[i + 1] == r; }
      }
      OrderedUnique(a[1..], b[1..]);
    }
  }

  lemma ListingFacts(rows: seq<Row>, q: Query, matches: (string, string) -> bool)
    requires DistinctIds(rows)
    ensures var all := Descending(Filter(rows, q, matches));
      Ordered(all) && forall r :: r in all <==> r in rows && Selected(q, matches, r) && PastCursor(q, r)
  {
    FilterFacts(rows, q, matches);
    var selected := Filter(rows, q, matches);
    DescendingOrders(selected);
    forall r ensures r in Descending(selected) <==> r in selected {
      assert r in multiset(Descending(selected)) <==> r in multiset(selected);
    }
  }

  /** Of two listed items the one further up was updated later, or at the same time and has the greater id. */
  lemma NewestComesFirst(rows: seq<Row>, q: Query, matches: (string, string) -> bool, i: nat, j: nat)
    requires DistinctIds(rows) && i < j < |Descending(Filter(rows, q, matches))|
    ensures var all := Descending(Filter(rows, q, matches));
      Less(all[j].updatedAt, all[i].updatedAt) || (all[j].updatedAt == all[i].updatedAt && Less(all[j].id, all[i].id))
  {
    ListingFacts(rows, q, matches);
    hide Descending, Filter, Less;
    var all := Descending(Filter(rows, q, matches));
    assert Below(Key(all[j]), Key(all[i]));
  }

  /** Column by column: what a query asks of an item. */
  predicate Asks(q: Query, matches: (string, string) -> bool, r: Row) {
    && (r.archivedAt != "" <==> q.mailbox == Archived)
    && (q.mailbox == Unread ==> r.readAt == "") && (q.mailbox == ActionRequired ==> r.actionState == "open")
    && Chosen(r.recipient, q.recipients) && Chosen(r.category, q.categories) && Chosen(r.source, q.sources)
    && Chosen(r.severity, q.severities) && Chosen(r.actionState, q.actionStates)
    && (q.text != "" ==> matches(r.searchText, q.text))
    && (q.from != "" ==> q.from == r.lastOccurredAt || Less(q.from, r.lastOccurredAt))
    && (q.to != "" ==> r.lastOccurredAt == q.to || Less(r.lastOccurredAt, q.to))
  }

  predicate Chosen(value: string, choices: seq<string>) {
    (exists c :: c in choices && !Blank(c)) ==> value in choices && !Blank(value)
  }

  lemma ChosenIffOneOf(value: string, choices: seq<string>)
    ensures OneOf(value, choices) <==> Chosen(value, choices)
  {
    hide Blank;
    if forall i :: 0 <= i < |choices| ==> Blank(choices[i]) {
    } else {
      var i :| 0 <= i < |choices| && !Blank(choices[i]);
      assert choices[i] in choices;
    }
  }

  /** A listing without a cursor holds exactly the items the query asks for; with one, those strictly older than it. */
  lemma ListedIff(rows: seq<Row>, q: Query, matches: (string, string) -> bool, r: Row)
    requires DistinctIds(rows)
    ensures r in Descending(Filter(rows, q, matches)) <==>
              && r in rows && Asks(q, matches, r)
              && (q.before.0 != "" && q.before.1 != "" ==>
                    Less(r.updatedAt, q.before.0) || (r.updatedAt == q.before.0 && Less(r.id, q.before.1)))
  {
    ListingFacts(rows, q, matches);
    ChosenIffOneOf(r.recipient, q.recipients);
    ChosenIffOneOf(r.category, q.categories);
    ChosenIffOneOf(r.source, q.sources);
    ChosenIffOneOf(r.severity, q.severities);
    ChosenIffOneOf(r.actionState, q.actionStates);
    hide Filter, Descending, OneOf, Chosen, Less, DistinctIds, Ordered;
  }

  predicate Bounded(bound: (string, string)) {
    bound.0 != "" && bound.1 != ""
  }

  /** The listing that continues after the first `n` rows is exactly the rest of the listing. */
  lemma NextListing(rows: seq<Row>, q: Query, matches: (string, string) -> bool, n: nat)
    requires DistinctIds(rows)
    requires var all := Descending(Filter(rows, q, matches)); 0 < n <= |all| && Bounded(Key(all[n - 1]))
    ensures var all := Descending(Filter(rows, q, matches));
      Descending(Filter(rows, q.(before := Key(all[n - 1])), matches)) == all[n..]
  {
    hide Below, Selected, Filter, Descending;
    BelowIsStrictOrder();
    var all := Descending(Filter(rows, q, matches));
    var next := q.(before := Key(all[n - 1]));
    ListingFacts(rows, q, matches);
    ListingFacts(rows, next, matches);
    assert forall r :: Selected(next, matches, r) == Selected(q, matches, r) by { SelectedIgnoresCursor(q, Key(all[n - 1]), matches); }
    forall r ensures r in all[n..] <==> r in all && Below(Key(r), Key(all[n - 1])) {
      if r in all {
        var i :| 0 <= i < |all| && all[i] == r;
        assert r in all[n..] ==> exists j :: n <= j < |all| && all[j] == r;
        if i >= n { assert all[n..][i - n] == r; }
      }
    }
    forall r | r in all && Below(Key(r), Key(all[n - 1])) ensures PastCursor(next, r) {
    }
    assert all[n - 1] in all && PastCursor(q, all[n - 1]);
    OrderedUnique(Descending(Filter(rows, next, matches)), all[n..]);
  }

  lemma SelectedIgnoresCursor(q: Query, bound: (string, string), matches: (string, string) -> bool)
    ensures forall r :: Selected(q.(before := bound), matches, r) == Selected(q, matches, r)
  {
  }

  predicate CursorFails(r: Row) {
    Blank(r.updatedAt) || Blank(r.id)
  }

  /** A row that no other client touches while the listing is followed. */
  predicate Untouched(tables: seq<seq<Row>>, r: Row) {
    forall t :: 0 <= t < |tables| ==> r in tables[t]
  }

  lemma OrderedAppends(all: seq<Row>, items: seq<Row>)
    requires Ordered(all) && Ordered(items)
    requires all != [] ==> forall r :: r in items ==> Below(Key(r), Key(all[|all| - 1]))
    ensures Ordered(all + items)
  {
    hide Below;
    BelowIsStrictOrder();
    var more := all + items;
    forall i, j | 0 <= i < j < |more| ensures Below(Key(more[j]), Key(more[i])) {
      if i < |all| <= j {
        assert more[j] == items[j - |all|] && Below(Key(more[j]), Key(all[|all| - 1]));
      }
    }
  }

  lemma FirstRows(listing: seq<Row>, n: nat, r: Row)
    requires Ordered(listing) && n > 0 && r in listing
    ensures Ordered(Limited(listing, n))
    ensures r in Limited(listing, n) || (|listing| > n && Below(Key(r), Key(listing[n - 1])))
  {
    var k :| 0 <= k < |listing| && listing[k] == r;
    if k < |Limited(listing, n)| { assert Limited(listing, n)[k] == r; }
  }

  /** A page continues a strictly newest-first list, and leaves behind only rows older than itself. */
  lemma PageAdds(rows: seq<Row>, q: Query, matches: (string, string) -> bool, all: seq<Row>, n: nat)
    requires DistinctIds(rows) && Ordered(all) && n > 0
    requires all != [] ==> Bounded(q.before) && q.before == Key(all[|all| - 1])
    ensures var listing := Descending(Filter(rows, q, matches)); var items := Limited(listing, n);
      && Ordered(all + items)
      && (forall r :: r in items ==> r in rows && Selected(q, matches, r))
      && (forall r :: r in rows && Selected(q, matches, r) && PastCursor(q, r) ==>
            r in items || (|listing| > n && Below(Key(r), Key(items[n - 1]))))
  {
    hide Below, Selected, Filter, Descending;
    ListingFacts(rows, q, matches);
    var listing := Descending(Filter(rows, q, matches));
    var items := Limited(listing, n);
    forall r | r in items ensures r in listing {
    }
    assert Ordered(items) by { if listing != [] { FirstRows(listing, n, listing[0]); } }
    OrderedAppends(all, items);
    hide PastCursor, Ordered;
    forall r | r in rows && Selected(q, matches, r) && PastCursor(q, r)
      ensures r in items || (|listing| > n && Below(Key(r), Key(items[n - 1])))
    {
      assert r in listing;
      FirstRows(listing, n, r);
    }
  }

  /** Where a followed listing stands: what it has, where the next page starts, and what that page will find. */
  ghost predicate Following(tables: seq<seq<Row>>, q: Query, matches: (string, string) -> bool, all: seq<Row>, c: Cursor) {
    && Ordered(all)
    && (forall r :: r in all ==> Selected(q, matches, r) && exists t :: 0 <= t < |tables| && r in tables[t])
    && (c.NoCursor? ==> all == [])
    && (!c.NoCursor? ==> all != [] && c == Parts([all[|all| - 1].updatedAt, all[|all| - 1].id]))
    && (forall r :: Untouched(tables, r) && Selected(q, matches, r) && r !in all && all != [] ==> Below(Key(r), Key(all[|all| - 1])))
  }

  function Bound(all: seq<Row>): (string, string) {
    if all == [] then ("", "") else Key(all[|all| - 1])
  }

  lemma FollowStep(tables: seq<seq<Row>>, t: nat, q: Query, matches: (string, string) -> bool, all: seq<Row>, c: Cursor)
    requires t < |tables| && DistinctIds(tables[t]) && q.before == ("", "")
    requires Following(tables, q, matches, all, c) && (all != [] ==> Bounded(Bound(all)))
    requires PageOf(tables[t], q, c, matches).Ok?
    ensures var page := PageOf(tables[t], q, c, matches).value;
      && Ordered(all + page.items)
      && (page.hasMore ==> Following(tables, q, matches, all + page.items, page.next))
      && (forall r :: r in all + page.items ==> Selected(q, matches, r) && exists t :: 0 <= t < |tables| && r in tables[t])
      && (!page.hasMore ==> forall r :: Untouched(tables, r) && Selected(q, matches, r) ==> r in all + page.items)
  {
    hide Below, Selected, Filter, Descending;
    var here := q.(before := Bound(all));
    SelectedIgnoresCursor(q, Bound(all), matches);
    var page := PageOf(tables[t], q, c, matches).value;
    var n := NormalLimit(q.limit);
    PageAdds(tables[t], here, matches, all, n);
    BelowIsStrictOrder();
    forall r | Untouched(tables, r) && Selected(q, matches, r) && r !in all + page.items
      ensures page.hasMore && Below(Key(r), Key(page.items[|page.items| - 1]))
    {
      assert r in tables[t] && r !in all && PastCursor(here, r);
    }
  }

  lemma FollowShrinks(rows: seq<Row>, q: Query, matches: (string, string) -> bool, all: seq<Row>)
    requires DistinctIds(rows) && q.before == ("", "")
    requires var listing := Descending(Filter(rows, q.(before := Bound(all)), matches)); |listing| > NormalLimit(q.limit)
    requires var listing := Descending(Filter(rows, q.(before := Bound(all)), matches));
      Bounded(Bound(all + Limited(listing, NormalLimit(q.limit))))
    ensures var n := NormalLimit(q.limit); var listing := Descending(Filter(rows, q.(before := Bound(all)), matches));
      Descending(Filter(rows, q.(before := Bound(all + Limited(listing, n))), matches)) == listing[n..]
  {
    hide Filter, Descending;
    var n, here := NormalLimit(q.limit), q.(before := Bound(all));
    var listing := Descending(Filter(rows, here, matches));
    assert Bound(all + Limited(listing, n)) == Key(listing[n - 1]);
    NextListing(rows, here, matches, n);
    assert here.(before := Key(listing[n - 1])) == q.(before := Key(listing[n - 1]));
  }

  /** From table to table no row's `updated_at` falls. */
  ghost predicate Rising(tables: seq<seq<Row>>) {
    forall s, t, r, r' :: 0 <= s <= t < |tables| && r in tables[s] && r' in tables[t] && r.id == r'.id ==> AtMost(r.updatedAt, r'.updatedAt)
  }

  predicate StoodIn(tables: seq<seq<Row>>, t: nat, r: Row) {
    exists s :: 0 <= s <= t && s < |tables| && r in tables[s]
  }

  predicate ReadBy(tables: seq<seq<Row>>, t: nat, all: seq<Row>) {
    forall i :: 0 <= i < |all| ==> StoodIn(tables, t, all[i])
  }

  lemma NotBelowItself(r: Row, r': Row)
    requires r.id == r'.id && AtMost(r.updatedAt, r'.updatedAt)
    ensures !Below(Key(r'), Key(r))
  {
    StrictTotalOrder();
  }

  /** An id that was listed before cannot come up again further down: its row would have to be older now. */
  lemma NoIdRepeats(tables: seq<seq<Row>>, t: nat, all: seq<Row>, items: seq<Row>)
    requires Rising(tables) && t < |tables| && DistinctIds(all) && Ordered(all + items) && ReadBy(tables, t, all)
    requires forall r :: r in items ==> r in tables[t]
    ensures DistinctIds(all + items)
  {
    hide Below, AtMost;
    var more := all + items;
    forall i, j | 0 <= i < j < |more| ensures more[i].id != more[j].id {
      if j >= |all| && more[i].id == more[j].id {
        assert more[j] in items;
        assert StoodIn(tables, t, more[i]) by {
          if i < |all| { assert more[i] == all[i]; } else { assert more[i] in items; }
        }
        var s :| 0 <= s <= t && s < |tables| && more[i] in tables[s];
        NotBelowItself(more[i], more[j]);
      }
    }
  }

  lemma ReadOn(tables: seq<seq<Row>>, t: nat, t': nat, all: seq<Row>, items: seq<Row>)
    requires ReadBy(tables, t, all) && t <= t' && t < |tables| && forall r :: r in items ==> r in tables[t]
    ensures ReadBy(tables, t', all + items)
  {
    var more := all + items;
    forall i | 0 <= i < |more| ensures StoodIn(tables, t', more[i]) {
      if i < |all| {
        assert StoodIn(tables, t, all[i]);
      } else {
        assert more[i] in items;
      }
    }
  }

  lemma PageIsFromTable(rows: seq<Row>, q: Query, c: Cursor, matches: (string, string) -> bool)
    requires DistinctIds(rows) && PageOf(rows, q, c, matches).Ok?
    ensures forall r :: r in PageOf(rows, q, c, matches).value.items ==> r in rows
  {
    hide Selected, Filter, Descending;
    var before := if c.NoCursor? then Ok(q.before) else DecodeCursor(c);
    ListingFacts(rows, q.(before := before.value), matches);
  }

  /**
   * A client that follows the cursor to the end. Page by page it may see another state of the table,
   * until the table settles. It always stops; its rows are strictly newest-first, so no row
   * repeats, and no id does if `updated_at` never falls; and no row that stayed untouched is missed. On a
   * static table it gets exactly the whole listing.
   */
  method Follow(tables: seq<seq<Row>>, q: Query, matches: (string, string) -> bool) returns (all: seq<Row>, result: Result<()>)
    requires tables != [] && (forall t :: 0 <= t < |tables| ==> DistinctIds(tables[t])) && q.before == ("", "")
    ensures Ordered(all)
    ensures forall r :: r in all ==> Selected(q, matches, r) && exists t :: 0 <= t < |tables| && r in tables[t]
    ensures Rising(tables) ==> DistinctIds(all)
    ensures result.Ok? ==> forall r :: Untouched(tables, r) && Selected(q, matches, r) ==> r in all
    ensures result.Ok? && |tables| == 1 ==> all == Descending(Filter(tables[0], q, matches))
    ensures result.Err? ==> q.recipients == [] || (all != [] && CursorFails(all[|all| - 1]))
  {
    hide Below, Selected, Filter, Descending, Following, Ordered, DecodeCursor, CursorFails, Untouched, Rising, ReadBy, StoodIn, DistinctIds;
    all := [];
    var t, c := 0, NoCursor;
    StartFollowing(tables, q, matches);
    while true
      invariant ReadBy(tables, t, all) && (Rising(tables) ==> DistinctIds(all))
      invariant 0 <= t < |tables| && Following(tables, q, matches, all, c)
      invariant |tables| == 1 && (all == [] || !CursorFails(all[|all| - 1])) ==>
                  Descending(Filter(tables[0], q, matches)) == all + Descending(Filter(tables[0], q.(before := Bound(all)), matches))
      decreases |tables| - t,
                if all != [] && CursorFails(all[|all| - 1]) then 0
                else 1 + |Descending(Filter(tables[t], q.(before := Bound(all)), matches))|
    {
      var page := List(tables[t], q, c, matches);
      FollowingParts(tables, q, matches, all, c);
      if page.Err? {
        return all, Err(page.error);
      }
      FollowStep(tables, t, q, matches, all, c);
      PageIsFromTable(tables[t], q, c, matches);
      if Rising(tables) { NoIdRepeats(tables, t, all, page.value.items); }
      ReadOn(tables, t, if t + 1 < |tables| then t + 1 else t, all, page.value.items);
      ghost var before := all;
      all := all + page.value.items;
      if !page.value.hasMore {
        return all, Ok(());
      }
      if !CursorFails(all[|all| - 1]) {
        NonBlankBounds(all[|all| - 1]);
        FollowShrinks(tables[t], q, matches, before);
        ghost var n, listing := NormalLimit(q.limit), Descending(Filter(tables[t], q.(before := Bound(before)), matches));
        assert listing == page.value.items + listing[n..];
        assert before + listing == all + listing[n..];
      }
      c := page.value.next;
      t := if t + 1 < |tables| then t + 1 else t;
    }
  }

  lemma NonBlankBounds(r: Row)
    requires !CursorFails(r)
    ensures Bounded(Key(r))
  {
  }

  lemma StartFollowing(tables: seq<seq<Row>>, q: Query, matches: (string, string) -> bool)
    ensures Following(tables, q, matches, [], NoCursor) && ReadBy(tables, 0, []) && DistinctIds([])
  {
  }

  lemma FollowingParts(tables: seq<seq<Row>>, q: Query, matches: (string, string) -> bool, all: seq<Row>, c: Cursor)
    requires Following(tables, q, matches, all, c)
    ensures Ordered(all) && forall r :: r in all ==> Selected(q, matches, r) && exists t :: 0 <= t < |tables| && r in tables[t]
    ensures if c.NoCursor? then all == [] else all != [] && c == Parts([Bound(all).0, Bound(all).1])
    ensures DecodeCursor(c).Ok? ==> all != [] && Bounded(Bound(all)) && DecodeCursor(c).value == Bound(all) && !CursorFails(all[|all| - 1])
    ensures DecodeCursor(c).Err? && !c.NoCursor? ==> all != [] && CursorFails(all[|all| - 1])
  {
    hide Selected;
  }
}
