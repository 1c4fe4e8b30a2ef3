/** Grouping and joining done by hand over the rows of one or two queries. */
module Grouping {
  import opened Wrappers
  import opened Text

  // ---- one row per request ----

  /** One day of a booking request; `requestedAt` belongs to the request. */
  datatype Day = Day(series: Option<string>, requestedAt: int, date: int)

  function SeriesOf(rows: seq<Day>): set<string> {
    set i | 0 <= i < |rows| && rows[i].series.Some? :: rows[i].series.value
  }

  /** A request's first row, wherever one is new. */
  function FirstDays(rows: seq<Day>): seq<Day> {
    if rows == [] then []
    else
      var n := |rows| - 1;
      var name := rows[n].series;
      FirstDays(rows[..n]) + if name.Some? && name.value != "" && name.value !in SeriesOf(rows[..n]) then [rows[n]] else []
  }

  /** The loop of `list_series_first_days`. */
  method CollapseSeries(rows: seq<Day>) returns (collapsed: seq<Day>)
    ensures collapsed == FirstDays(rows)
  {
    collapsed := [];
    var seen: set<string> := {};
    var i := 0;
    while i < |rows|
      invariant i <= |rows|
      invariant collapsed == FirstDays(rows[..i])
      invariant seen == SeriesOf(rows[..i]) - {""}
    {
      assert rows[..i + 1][..i] == rows[..i];
      SeriesSnoc(rows, i);
      var name := rows[i].series;
      if name.Some? && name.value != "" && name.value !in seen {
        collapsed := collapsed + [rows[i]];
        seen := seen + {name.value};
      }
      i := i + 1;
    }
    assert rows[..i] == rows;
  }

  lemma SeriesSnoc(rows: seq<Day>, i: nat)
    requires i < |rows|
    ensures SeriesOf(rows[..i + 1]) == SeriesOf(rows[..i]) + (if rows[i].series.Some? then {rows[i].series.value} else {})
  {
    var more := rows[..i + 1];
    forall name | name in SeriesOf(rows[..i]) ensures name in SeriesOf(more) {
      var j :| 0 <= j < i && rows[..i][j].series == Some(name);
      assert more[j] == rows[j];
    }
    if rows[i].series.Some? {
      assert more[i].series == rows[i].series;
    }
  }

  /** `k` is where a request first appears. */
  ghost predicate IsFirst(rows: seq<Day>, k: nat) {
    && k < |rows| && rows[k].series.Some? && rows[k].series.value != ""
    && forall j :: 0 <= j < k ==> rows[j].series != rows[k].series
  }

  /** Among the rows before `n`: `at` lists the places of the first rows in order, and `firsts` those rows. */
  ghost predicate ListsFirsts(rows: seq<Day>, n: nat, at: seq<nat>, firsts: seq<Day>)
    requires n <= |rows|
  {
    && |at| == |firsts|
    && (forall i :: 0 <= i < |at| ==> at[i] < n && IsFirst(rows, at[i]) && rows[at[i]] == firsts[i])
    && (forall i, j :: 0 <= i < j < |at| ==> at[i] < at[j])
    && (forall k: nat :: k < n && IsFirst(rows, k) ==> k in at)
  }

  lemma LongerLists(rows: seq<Day>, n: nat, at: seq<nat>, firsts: seq<Day>)
    requires n <= |rows| && ListsFirsts(rows[..n], n, at, firsts)
    ensures ListsFirsts(rows, n, at, firsts)
  {
    forall i | 0 <= i < |at| ensures IsFirst(rows, at[i]) && rows[at[i]] == firsts[i] {
      FirstInPrefix(rows, n, at[i]);
    }
    forall k: nat | k < n && IsFirst(rows, k) ensures k in at {
      FirstInPrefix(rows, n, k);
    }
  }

  lemma OneMoreFirst(rows: seq<Day>, n: nat, at: seq<nat>, firsts: seq<Day>)
    requires n < |rows| && ListsFirsts(rows, n, at, firsts) && IsFirst(rows, n)
    ensures ListsFirsts(rows, n + 1, at + [n], firsts + [rows[n]])
  {
    var more := at + [n];
    assert more[|at|] == n;
    forall k: nat | k < n + 1 && IsFirst(rows, k) ensures k in more {
      if k < n {
        assert k in at;
      }
    }
  }

  lemma NoMoreFirst(rows: seq<Day>, n: nat, at: seq<nat>, firsts: seq<Day>)
    requires n < |rows| && ListsFirsts(rows, n, at, firsts) && !IsFirst(rows, n)
    ensures ListsFirsts(rows, n + 1, at, firsts)
  {
    forall k: nat | k < n + 1 && IsFirst(rows, k) ensures k in at {
      assert k != n;
    }
  }

  lemma {:induction false} FirstDaysListed(rows: seq<Day>) returns (at: seq<nat>)
    ensures ListsFirsts(rows, |rows|, at, FirstDays(rows))
  {
    if rows == [] {
      at := [];
    } else {
      var n := |rows| - 1;
      at := FirstDaysListed(rows[..n]);
      LongerLists(rows, n, at, FirstDays(rows[..n]));
      NewSeries(rows, n);
      if IsFirst(rows, n) {
        OneMoreFirst(rows, n, at, FirstDays(rows[..n]));
        at := at + [n];
      } else {
        NoMoreFirst(rows, n, at, FirstDays(rows[..n]));
        assert FirstDays(rows) == FirstDays(rows[..n]);
      }
    }
  }

  /** The collapsed rows are the first rows of their requests, one for each, in the order of those rows. */
  lemma FirstDaysAreFirst(rows: seq<Day>) returns (at: seq<nat>)
    ensures |at| == |FirstDays(rows)|
    ensures forall i :: 0 <= i < |at| ==> IsFirst(rows, at[i]) && rows[at[i]] == FirstDays(rows)[i]
    ensures forall i, j :: 0 <= i < j < |at| ==> at[i] < at[j]
    ensures forall k :: IsFirst(rows, k) ==> k in at
  {
    at := FirstDaysListed(rows);
  }

  lemma FirstInPrefix(rows: seq<Day>, n: nat, k: nat)
    requires k < n <= |rows|
    ensures IsFirst(rows[..n], k) <==> IsFirst(rows, k)
  {
    assert forall j :: 0 <= j <= k ==> rows[..n][j] == rows[j];
  }

  lemma NewSeries(rows: seq<Day>, n: nat)
    requires n + 1 == |rows|
    ensures IsFirst(rows, n) <==>
              rows[n].series.Some? && rows[n].series.value != "" && rows[n].series.value !in SeriesOf(rows[..n])
  {
    if rows[n].series.Some? && rows[n].series.value in SeriesOf(rows[..n]) {
      var j :| 0 <= j < n && rows[..n][j].series == rows[n].series;
      assert rows[j].series == rows[n].series;
    }
    forall j | 0 <= j < n && rows[j].series.Some? ensures rows[j].series.value in SeriesOf(rows[..n]) {
      assert rows[..n][j] == rows[j];
    }
  }

  /** The query's order: latest request first, then by day. */
  ghost predicate QueueOrder(rows: seq<Day>) {
    forall i, j :: 0 <= i < j < |rows| ==>
      rows[i].requestedAt > rows[j].requestedAt || (rows[i].requestedAt == rows[j].requestedAt && rows[i].date <= rows[j].date)
  }

  ghost predicate RequestedOnce(rows: seq<Day>) {
    forall i, j :: 0 <= i < |rows| && 0 <= j < |rows| && rows[i].series == rows[j].series ==>
      rows[i].requestedAt == rows[j].requestedAt
  }

  /** Each collapsed row carries the earliest day of its request. */
  lemma CarriesTheEarliestDay(rows: seq<Day>, i: nat, k: nat)
    requires QueueOrder(rows) && RequestedOnce(rows)
    requires i < |FirstDays(rows)| && k < |rows| && rows[k].series == FirstDays(rows)[i].series
    ensures FirstDays(rows)[i].date <= rows[k].date
  {
    var at := FirstDaysAreFirst(rows);
    assert IsFirst(rows, at[i]);
    assert at[i] <= k;
  }

  function Page<T>(list: seq<T>, offset: nat, limit: nat): seq<T> {
    if offset >= |list| then [] else if offset + limit > |list| then list[offset..] else list[offset..offset + limit]
  }

  function Pages<T>(list: seq<T>, limit: nat, n: nat): seq<T> {
    if n == 0 then [] else Pages(list, limit, n - 1) + Page(list, (n - 1) * limit, limit)
  }

  lemma {:induction false} PagesAre<T>(list: seq<T>, limit: nat, n: nat)
    ensures Pages(list, limit, n) == if n * limit < |list| then list[..n * limit] else list
  {
    if n > 0 {
      PagesAre(list, limit, n - 1);
      assert n * limit == (n - 1) * limit + limit;
    } else {
      assert Pages(list, limit, 0) == [];
    }
  }

  // ---- groups ----

  type Groups<E> = map<string, seq<E>>

  /** The items of one key, in order. */
  function Of<E>(items: seq<E>, key: E -> Option<string>, k: string): seq<E> {
    if items == [] then []
    else
      var n := |items| - 1;
      Of(items[..n], key, k) + if key(items[n]) == Some(k) then [items[n]] else []
  }

  function Added<E>(groups: Groups<E>, k: string, item: E): Groups<E> {
    groups[k := (if k in groups then groups[k] else []) + [item]]
  }

  /** What the groups are after every item; an item without a key is passed over. */
  function Grouped<E>(items: seq<E>, key: E -> Option<string>): Groups<E> {
    if items == [] then map[]
    else
      var n := |items| - 1;
      var before := Grouped(items[..n], key);
      var k := key(items[n]);
      if k.Some? then Added(before, k.value, items[n]) else before
  }

  lemma GroupedSnoc<E>(items: seq<E>, key: E -> Option<string>, item: E)
    ensures Grouped(items + [item], key)
            == if key(item).Some? then Added(Grouped(items, key), key(item).value, item) else Grouped(items, key)
  {
    assert (items + [item])[..|items|] == items;
  }

  /** `setdefault(key, []).append(item)` over a list. */
  method Group<E>(items: seq<E>, key: E -> Option<string>) returns (grouped: Groups<E>)
    ensures grouped == Grouped(items, key)
  {
    grouped := map[];
    var i := 0;
    while i < |items|
      invariant i <= |items| && grouped == Grouped(items[..i], key)
    {
      assert items[..i + 1][..i] == items[..i];
      var k := key(items[i]);
      if k.Some? {
        grouped := Added(grouped, k.value, items[i]);
      }
      i := i + 1;
    }
    assert items[..i] == items;
  }

  /** Each group is its key's items in order, and there are no other groups. */
  lemma {:induction false} GroupsAreExact<E>(items: seq<E>, key: E -> Option<string>, k: string)
    ensures k in Grouped(items, key) <==> Of(items, key, k) != []
    ensures k in Grouped(items, key) ==> Grouped(items, key)[k] == Of(items, key, k)
  {
    if items != [] {
      GroupsAreExact(items[..|items| - 1], key, k);
    }
  }

  /** Grouping neither loses nor doubles an item: the groups hold as many as there are with a key. */
  lemma {:induction false} GroupsConserve<E>(items: seq<E>, key: E -> Option<string>)
    ensures Total(Grouped(items, key)) == Keyed(items, key)
  {
    if items != [] {
      var n := |items| - 1;
      GroupsConserve(items[..n], key);
      var k := key(items[n]);
      if k.Some? {
        TotalAdded(Grouped(items[..n], key), k.value, items[n]);
      }
    }
  }

  /** How many items have a key. */
  function Keyed<E>(items: seq<E>, key: E -> Option<string>): nat {
    if items == [] then 0
    else Keyed(items[..|items| - 1], key) + if key(items[|items| - 1]).Some? then 1 else 0
  }

  /** How many items all the groups hold. */
  ghost function Total<E>(groups: Groups<E>): nat {
    if groups == map[] then 0
    else
      var k :| k in groups;
      |groups[k]| + Total(groups - {k})
  }

  lemma {:induction false} TotalFrom<E>(groups: Groups<E>, k: string)
    requires k in groups
    ensures Total(groups) == |groups[k]| + Total(groups - {k})
    decreases |groups|
  {
    var other :| other in groups && Total(groups) == |groups[other]| + Total(groups - {other});
    if other != k {
      TotalFrom(groups - {other}, k);
      TotalFrom(groups - {k}, other);
      assert groups - {other} - {k} == groups - {k} - {other};
    }
  }

  lemma TotalAdded<E>(groups: Groups<E>, k: string, item: E)
    ensures Total(Added(groups, k, item)) == Total(groups) + 1
  {
    var more := Added(groups, k, item);
    TotalFrom(more, k);
    assert more - {k} == groups - {k};
    if k in groups {
      TotalFrom(groups, k);
    } else {
      assert groups - {k} == groups;
    }
  }

  /** A group holds exactly its own items, in their order: at rank `r` of the group, the `r`th item of its key. */
  lemma {:induction false} OfIsExact<E>(items: seq<E>, key: E -> Option<string>, k: string) returns (at: seq<nat>)
    ensures |at| == |Of(items, key, k)|
    ensures forall i :: 0 <= i < |at| ==> at[i] < |items| && items[at[i]] == Of(items, key, k)[i]
    ensures forall i, j :: 0 <= i < j < |at| ==> at[i] < at[j]
    ensures forall i: nat :: i < |items| ==> (i in at <==> key(items[i]) == Some(k))
  {
    if items == [] {
      at := [];
    } else {
      var n := |items| - 1;
      var most := items[..n];
      at := OfIsExact(most, key, k);
      assert forall i :: 0 <= i < n ==> most[i] == items[i];
      if key(items[n]) == Some(k) {
        at := at + [n];
      }
    }
  }

  // ---- charges and their events ----

  datatype Charge = Charge(id: string, occurrence: string, kind: string)

  datatype MoneyEvent = MoneyEvent(charge: string, amount: int)

  datatype LedgerEvent = LedgerEvent(event: MoneyEvent, kind: string, occurrence: string)

  function ChargeOf(charges: map<string, Charge>, event: MoneyEvent): Option<Charge> {
    if event.charge in charges then Some(charges[event.charge]) else None
  }

  /** Every event beside its charge; an event without one is dropped. */
  function Enriched(events: seq<MoneyEvent>, charges: map<string, Charge>): seq<LedgerEvent> {
    if events == [] then []
    else
      var n := |events| - 1;
      var charge := ChargeOf(charges, events[n]);
      Enriched(events[..n], charges)
      + if charge.Some? then [LedgerEvent(events[n], charge.value.kind, charge.value.occurrence)] else []
  }

  function OccurrenceOf(e: LedgerEvent): Option<string> { Some(e.occurrence) }

  /** The loop of `list_financial_events`: joined to its charge, each event goes to its occurrence. */
  method ListFinancialEvents(charges: map<string, Charge>, events: seq<MoneyEvent>) returns (grouped: Groups<LedgerEvent>)
    ensures grouped == Grouped(Enriched(events, charges), OccurrenceOf)
  {
    grouped := map[];
    var i := 0;
    while i < |events|
      invariant i <= |events| && grouped == Grouped(Enriched(events[..i], charges), OccurrenceOf)
    {
      assert events[..i + 1][..i] == events[..i];
      var charge := ChargeOf(charges, events[i]);
      if charge.Some? {
        var enriched := LedgerEvent(events[i], charge.value.kind, charge.value.occurrence);
        ghost var before := Enriched(events[..i], charges);
        GroupedSnoc(before, OccurrenceOf, enriched);
        assert Enriched(events[..i + 1], charges) == before + [enriched];
        grouped := Added(grouped, charge.value.occurrence, enriched);
      } else {
        assert Enriched(events[..i + 1], charges) == Enriched(events[..i], charges);
      }
      i := i + 1;
    }
    assert events[..i] == events;
  }

  lemma {:induction false} AllKeyed(joined: seq<LedgerEvent>)
    ensures Keyed(joined, OccurrenceOf) == |joined|
  {
    if joined != [] {
      AllKeyed(joined[..|joined| - 1]);
    }
  }

  /** The groups of a ledger page divide the joined events among their occurrences: in order, none lost, none twice. */
  lemma FinancialEventsArePartitioned(charges: map<string, Charge>, events: seq<MoneyEvent>, occurrence: string)
    ensures var joined := Enriched(events, charges);
            var grouped := Grouped(joined, OccurrenceOf);
            && Total(grouped) == |joined|
            && (occurrence in grouped <==> Of(joined, OccurrenceOf, occurrence) != [])
            && (occurrence in grouped ==> grouped[occurrence] == Of(joined, OccurrenceOf, occurrence))
  {
    var joined := Enriched(events, charges);
    GroupsConserve(joined, OccurrenceOf);
    AllKeyed(joined);
    GroupsAreExact(joined, OccurrenceOf, occurrence);
  }

  /** The event's charge is one of the occurrence's. */
  predicate IsOf(charges: map<string, Charge>, event: MoneyEvent, occurrence: string) {
    event.charge in charges && charges[event.charge].occurrence == occurrence
  }

  /**
    Read without the join: the group of an occurrence holds, in their order, exactly the
    events whose charge is one of that occurrence's, each with the kind of its own charge;
    there is no group where there is no such event.
   */
  lemma {:induction false} GroupsAreOfTheirOccurrence(charges: map<string, Charge>, events: seq<MoneyEvent>, occurrence: string)
    returns (at: seq<nat>)
    ensures var grouped := Grouped(Enriched(events, charges), OccurrenceOf);
            && (forall i, j :: 0 <= i < j < |at| ==> at[i] < at[j])
            && (forall k: nat :: k in at <==> k < |events| && IsOf(charges, events[k], occurrence))
            && (occurrence in grouped <==> at != [])
            && (occurrence in grouped ==>
                  && |grouped[occurrence]| == |at|
                  && forall i :: 0 <= i < |at| ==>
                       && at[i] < |events| && events[at[i]].charge in charges
                       && grouped[occurrence][i]
                          == LedgerEvent(events[at[i]], charges[events[at[i]].charge].kind, occurrence))
  {
    GroupsAreExact(Enriched(events, charges), OccurrenceOf, occurrence);
    at := EnrichedAt(charges, events, occurrence);
  }

  /** `at` lists, in order, the events before `n` of the occurrence, and `group` has each with its own kind. */
  ghost predicate Ranks(charges: map<string, Charge>, events: seq<MoneyEvent>, n: nat, occurrence: string, at: seq<nat>, group: seq<LedgerEvent>)
    requires n <= |events|
  {
    && |at| == |group|
    && (forall i, j :: 0 <= i < j < |at| ==> at[i] < at[j])
    && (forall k: nat :: k in at <==> k < n && IsOf(charges, events[k], occurrence))
    && forall i :: 0 <= i < |at| ==>
         && at[i] < n && events[at[i]].charge in charges
         && group[i] == LedgerEvent(events[at[i]], charges[events[at[i]].charge].kind, occurrence)
  }

  lemma RanksLonger(charges: map<string, Charge>, events: seq<MoneyEvent>, n: nat, occurrence: string, at: seq<nat>, group: seq<LedgerEvent>)
    requires n < |events| && Ranks(charges, events[..n], n, occurrence, at, group)
    ensures !IsOf(charges, events[n], occurrence) ==> Ranks(charges, events, n + 1, occurrence, at, group)
    ensures IsOf(charges, events[n], occurrence) ==>
              Ranks(charges, events, n + 1, occurrence, at + [n],
                    group + [LedgerEvent(events[n], charges[events[n].charge].kind, occurrence)])
  {
    assert forall i :: 0 <= i < n ==> events[..n][i] == events[i];
    assert forall k :: k in at + [n] <==> k in at || k == n;
  }

  lemma {:induction false} EnrichedAt(charges: map<string, Charge>, events: seq<MoneyEvent>, occurrence: string)
    returns (at: seq<nat>)
    ensures Ranks(charges, events, |events|, occurrence, at, Of(Enriched(events, charges), OccurrenceOf, occurrence))
  {
    if events == [] {
      at := [];
    } else {
      var n := |events| - 1;
      at := EnrichedAt(charges, events[..n], occurrence);
      var event := events[n];
      var before := Enriched(events[..n], charges);
      RanksLonger(charges, events, n, occurrence, at, Of(before, OccurrenceOf, occurrence));
      hide Ranks, Of;
      if event.charge in charges {
        var charge := charges[event.charge];
        assert Enriched(events, charges) == before + [LedgerEvent(event, charge.kind, charge.occurrence)];
        OfSnoc(before, OccurrenceOf, occurrence, LedgerEvent(event, charge.kind, charge.occurrence));
        if charge.occurrence == occurrence {
          at := at + [n];
        }
      } else {
        assert Enriched(events, charges) == before;
      }
    }
  }

  // ---- a four-table join ----

  datatype Roster = Roster(id: string, community: string, department: string, membership: string)

  /** A department or a community, with the name it is shown by. */
  datatype Place = Place(id: string, name: string)

  datatype Engagement = Engagement(roster: Roster, community: Option<Place>, department: Option<Place>, role: Option<string>)

  /** A dictionary of rows by id. */
  function ById(places: seq<Place>): map<string, Place> {
    if places == [] then map[] else ById(places[..|places| - 1])[places[|places| - 1].id := places[|places| - 1]]
  }

  function Lookup<V>(m: map<string, V>, k: string): Option<V> {
    if k in m then Some(m[k]) else None
  }

  /** A left join's match: the row with that id, or nothing when there is none. */
  ghost predicate Joins(places: seq<Place>, id: string, found: Option<Place>) {
    if found.Some? then found.value in places && found.value.id == id
    else forall p :: p in places ==> p.id != id
  }

  lemma {:induction false} LookupJoins(places: seq<Place>, id: string)
    ensures Joins(places, id, Lookup(ById(places), id))
  {
    if places != [] {
      var n := |places| - 1;
      LookupJoins(places[..n], id);
      assert places == places[..n] + [places[n]];
    }
  }

  function Engaged(r: Roster, communities: seq<Place>, departments: seq<Place>, roles: map<string, string>): Engagement {
    Engagement(r, Lookup(ById(communities), r.community), Lookup(ById(departments), r.department), Lookup(roles, r.membership))
  }

  /** Roster rows that name both a department and a community, each beside its matches. */
  function Joined(rosters: seq<Roster>, communities: seq<Place>, departments: seq<Place>, roles: map<string, string>): seq<Engagement> {
    if rosters == [] then []
    else
      var n := |rosters| - 1;
      Joined(rosters[..n], communities, departments, roles)
      + if rosters[n].department == "" || rosters[n].community == "" then []
        else [Engaged(rosters[n], communities, departments, roles)]
  }

  function NameOf(e: Engagement): string {
    if e.community.Some? then e.community.value.name else ""
  }

  /** A stable sort by the community's name. */
  function Placed(e: Engagement, sorted: seq<Engagement>): seq<Engagement> {
    if sorted == [] || !StringLess(NameOf(e), NameOf(sorted[|sorted| - 1])) then sorted + [e]
    else Placed(e, sorted[..|sorted| - 1]) + [sorted[|sorted| - 1]]
  }

  function SortByName(rows: seq<Engagement>): seq<Engagement> {
    if rows == [] then [] else Placed(rows[|rows| - 1], SortByName(rows[..|rows| - 1]))
  }

  ghost predicate ByName(rows: seq<Engagement>) {
    forall i, j :: 0 <= i < j < |rows| ==> !StringLess(NameOf(rows[j]), NameOf(rows[i]))
  }

  function NameKey(e: Engagement): Option<string> { Some(NameOf(e)) }

  lemma NotLessTransitive(a: string, b: string, c: string)
    requires !StringLess(b, a) && !StringLess(c, b)
    ensures !StringLess(c, a)
  {
    StringOrder(a, b);
    StringOrder(b, c);
    if StringLess(c, a) {
      if a == b || b == c {
      } else {
        StringLessTransitive(a, b, c);
        StringOrder(a, c);
      }
    }
  }

  lemma OfSnoc<E>(items: seq<E>, key: E -> Option<string>, k: string, e: E)
    ensures Of(items + [e], key, k) == Of(items, key, k) + if key(e) == Some(k) then [e] else []
  {
    assert (items + [e])[..|items|] == items;
  }

  /** Placing keeps order, and leaves every name's rows in their order, the new one last. */
  lemma {:induction false} PlaceKeeps(e: Engagement, sorted: seq<Engagement>, name: string)
    requires ByName(sorted)
    ensures ByName(Placed(e, sorted))
    ensures forall x :: x in Placed(e, sorted) <==> x == e || x in sorted
    ensures Of(Placed(e, sorted), NameKey, name) == Of(sorted, NameKey, name) + if NameOf(e) == name then [e] else []
  {
    if sorted == [] {
      OfSnoc([], NameKey, name, e);
    } else {
      var n := |sorted| - 1;
      var last := sorted[n];
      assert sorted == sorted[..n] + [last];
      if StringLess(NameOf(e), NameOf(last)) {
        var most := sorted[..n];
        PlaceKeeps(e, most, name);
        LastStays(e, sorted, Placed(e, most));
        PlacedBefore(e, most, last, name);
      } else {
        OfSnoc(sorted, NameKey, name, e);
        AppendStays(e, sorted);
      }
    }
  }

  /** Going past a row of another name moves no row of the same name. */
  lemma PlacedBefore(e: Engagement, most: seq<Engagement>, last: Engagement, name: string)
    requires StringLess(NameOf(e), NameOf(last))
    requires Of(Placed(e, most), NameKey, name) == Of(most, NameKey, name) + if NameOf(e) == name then [e] else []
    ensures Of(Placed(e, most) + [last], NameKey, name)
            == Of(most + [last], NameKey, name) + if NameOf(e) == name then [e] else []
  {
    OfSnoc(Placed(e, most), NameKey, name, last);
    OfSnoc(most, NameKey, name, last);
    StringIrreflexive(NameOf(e));
  }

  lemma AppendStays(e: Engagement, sorted: seq<Engagement>)
    requires ByName(sorted) && sorted != [] && !StringLess(NameOf(e), NameOf(sorted[|sorted| - 1]))
    ensures ByName(sorted + [e])
  {
    forall i | 0 <= i < |sorted| ensures !StringLess(NameOf(e), NameOf(sorted[i])) {
      if i < |sorted| - 1 {
        NotLessTransitive(NameOf(sorted[i]), NameOf(sorted[|sorted| - 1]), NameOf(e));
      }
    }
  }

  lemma LastStays(e: Engagement, sorted: seq<Engagement>, placed: seq<Engagement>)
    requires ByName(sorted) && sorted != [] && StringLess(NameOf(e), NameOf(sorted[|sorted| - 1]))
    requires ByName(placed) && forall x :: x in placed <==> x == e || x in sorted[..|sorted| - 1]
    ensures ByName(placed + [sorted[|sorted| - 1]])
  {
    var last := sorted[|sorted| - 1];
    StringOrder(NameOf(e), NameOf(last));
    forall i | 0 <= i < |placed| ensures !StringLess(NameOf(last), NameOf(placed[i])) {
      assert placed[i] in placed;
    }
  }

  /**
    The engagements come sorted by community name; and for each name they are the joined
    rows of that name in roster order, so that none is lost, doubled or moved past an equal.
   */
  lemma {:induction false} SortedJoin(rows: seq<Engagement>, name: string)
    ensures ByName(SortByName(rows))
    ensures Of(SortByName(rows), NameKey, name) == Of(rows, NameKey, name)
  {
    if rows != [] {
      var n := |rows| - 1;
      SortedJoin(rows[..n], name);
      PlaceKeeps(rows[n], SortByName(rows[..n]), name);
    }
  }

  /** The loop and the sort of `list_engagements_for_profile`. */
  method ListEngagements(
      rosters: seq<Roster>, communities: seq<Place>, departments: seq<Place>, roles: map<string, string>)
    returns (rows: seq<Engagement>)
    ensures rows == SortByName(Joined(rosters, communities, departments, roles))
  {
    var communityById, departmentById := ById(communities), ById(departments);
    rows := [];
    var i := 0;
    while i < |rosters|
      invariant i <= |rosters|
      invariant rows == Joined(rosters[..i], communities, departments, roles)
    {
      assert rosters[..i + 1][..i] == rosters[..i];
      var r := rosters[i];
      if r.department != "" && r.community != "" {
        rows := rows + [Engagement(r, Lookup(communityById, r.community), Lookup(departmentById, r.department),
                                   Lookup(roles, r.membership))];
      }
      i := i + 1;
    }
    assert rosters[..i] == rosters;
    rows := SortByName(rows);
  }

  /** `at` lists, in order, the roster entries before `n` that name both places, and `rows` has each beside its matches. */
  ghost predicate LeftJoins(
      rosters: seq<Roster>, n: nat, communities: seq<Place>, departments: seq<Place>, roles: map<string, string>,
      at: seq<nat>, rows: seq<Engagement>)
    requires n <= |rosters|
  {
    && |at| == |rows|
    && (forall i, j :: 0 <= i < j < |at| ==> at[i] < at[j])
    && (forall k: nat :: k in at <==> k < n && rosters[k].department != "" && rosters[k].community != "")
    && forall i :: 0 <= i < |at| ==>
         && at[i] < n && rows[i].roster == rosters[at[i]]
         && Joins(communities, rosters[at[i]].community, rows[i].community)
         && Joins(departments, rosters[at[i]].department, rows[i].department)
         && rows[i].role == (if rosters[at[i]].membership in roles then Some(roles[rosters[at[i]].membership]) else None)
  }

  lemma LeftJoinsLonger(
      rosters: seq<Roster>, n: nat, communities: seq<Place>, departments: seq<Place>, roles: map<string, string>,
      at: seq<nat>, rows: seq<Engagement>)
    requires n < |rosters| && LeftJoins(rosters[..n], n, communities, departments, roles, at, rows)
    ensures var r := rosters[n];
            if r.department == "" || r.community == "" then
              LeftJoins(rosters, n + 1, communities, departments, roles, at, rows)
            else
              LeftJoins(rosters, n + 1, communities, departments, roles, at + [n],
                        rows + [Engaged(r, communities, departments, roles)])
  {
    LookupJoins(communities, rosters[n].community);
    LookupJoins(departments, rosters[n].department);
    hide Joins, ById;
    assert forall i :: 0 <= i < n ==> rosters[..n][i] == rosters[i];
    assert forall k :: k in at + [n] <==> k in at || k == n;
  }

  /** Read as a join: a row for every roster entry that names both places, each place being the one with its id. */
  lemma {:induction false} JoinedIsLeftJoin(
      rosters: seq<Roster>, communities: seq<Place>, departments: seq<Place>, roles: map<string, string>)
    returns (at: seq<nat>)
    ensures LeftJoins(rosters, |rosters|, communities, departments, roles, at, Joined(rosters, communities, departments, roles))
  {
    if rosters == [] {
      at := [];
    } else {
      var n := |rosters| - 1;
      at := JoinedIsLeftJoin(rosters[..n], communities, departments, roles);
      LeftJoinsLonger(rosters, n, communities, departments, roles, at, Joined(rosters[..n], communities, departments, roles));
      if rosters[n].department != "" && rosters[n].community != "" {
        at := at + [n];
      }
    }
  }
}
