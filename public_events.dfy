/** The public event views: the filtered, paginated list of published public
    events, one event's details, its schedule grouped by day, and the search with
    its sort options and result limit. No authentication is asked for. */
module PublicEvents {
  import opened Common
  import opened Text
  import opened Store

  /** The `request.query_params` of a request. */
  type Query = map<string, string>

  /** `query_params.get(key, default)`. */
  function Get(q: Query, key: string, default: string): string {
    if key in q then q[key] else default
  }

  /** An event the public views show at all: published and public. */
  predicate Listed(e: Event) {
    e.status == "published" && e.isPublic
  }

  // ---------------------------------------------------------------------------
  // Ordering

  /** `le` is a total preorder, as every `order_by` the views use is. */
  ghost predicate TotalOrder<T(!new)>(le: (T, T) -> bool) {
    (forall a, b :: le(a, b) || le(b, a))
    && (forall a, b, c :: le(a, b) && le(b, c) ==> le(a, c))
  }

  predicate SortedBy<T>(s: seq<T>, le: (T, T) -> bool) {
    forall i, j :: 0 <= i < j < |s| ==> le(s[i], s[j])
  }

  /** Puts `x` before the first element it does not follow. */
  function Insert<T(!new)>(x: T, s: seq<T>, le: (T, T) -> bool): (r: seq<T>)
    ensures multiset(r) == multiset(s) + multiset{x}
    ensures forall y :: y in r ==> y == x || y in s
  {
    if s == [] || le(x, s[0]) then [x] + s
    else
      assert s == [s[0]] + s[1..];
      [s[0]] + Insert(x, s[1..], le)
  }

  lemma {:induction false} InsertSorted<T(!new)>(x: T, s: seq<T>, le: (T, T) -> bool)
    requires TotalOrder(le) && SortedBy(s, le)
    ensures SortedBy(Insert(x, s, le), le)
  {
    if s != [] && !le(x, s[0]) {
      InsertSorted(x, s[1..], le);
      var t := Insert(x, s[1..], le);
      assert le(s[0], x);
      forall y | y in t ensures le(s[0], y) {
        if y != x {
          var j :| 0 <= j < |s[1..]| && s[1..][j] == y;
          assert s[j + 1] == y;
        }
      }
      assert Insert(x, s, le) == [s[0]] + t;
    }
  }

  /** The database's `order_by`, as an insertion sort: the same rows, reordered. */
  function SortBy<T(!new)>(s: seq<T>, le: (T, T) -> bool): (r: seq<T>)
    ensures multiset(r) == multiset(s)
    ensures |r| == |s|
    ensures forall x :: x in r <==> x in s
  {
    if s == [] then []
    else
      assert s == [s[0]] + s[1..];
      assert forall x :: x in s <==> x in multiset(s);
      Insert(s[0], SortBy(s[1..], le), le)
  }

  /** The sorted rows are in order. */
  lemma {:induction false} SortBySorted<T(!new)>(s: seq<T>, le: (T, T) -> bool)
    requires TotalOrder(le)
    ensures SortedBy(SortBy(s, le), le)
  {
    if s != [] {
      SortBySorted(s[1..], le);
      InsertSorted(s[0], SortBy(s[1..], le), le);
    }
  }

  /** Filtering keeps the order of what it keeps. */
  lemma {:induction false} FilterSorted<T(!new)>(s: seq<T>, p: T -> bool, le: (T, T) -> bool)
    requires SortedBy(s, le)
    ensures SortedBy(Filter(s, p), le)
  {
    if |s| > 0 {
      FilterSorted(s[1..], p, le);
      var t := Filter(s[1..], p);
      if p(s[0]) {
        forall y | y in t ensures le(s[0], y) {
          var j :| 0 <= j < |s[1..]| && s[1..][j] == y;
          assert s[j + 1] == y;
        }
        assert Filter(s, p) == [s[0]] + t;
      }
    }
  }

  /** Text order by code point, shorter first on a common prefix. */
  predicate TextLe(a: string, b: string) {
    a == [] || (b != [] && (a[0] < b[0] || (a[0] == b[0] && TextLe(a[1..], b[1..]))))
  }

  lemma {:induction false} TextLeTotal(a: string, b: string)
    ensures TextLe(a, b) || TextLe(b, a)
  {
    if a != [] && b != [] && a[0] == b[0] { TextLeTotal(a[1..], b[1..]); }
  }

  lemma {:induction false} TextLeTransitive(a: string, b: string, c: string)
    requires TextLe(a, b) && TextLe(b, c)
    ensures TextLe(a, c)
  {
    if a != [] && a[0] == b[0] && b[0] == c[0] { TextLeTransitive(a[1..], b[1..], c[1..]); }
  }

  /** `order_by('start_datetime')`. */
  function ByStart(a: Event, b: Event): bool { a.start <= b.start }

  /** `order_by('name')`. */
  function ByName(a: Event, b: Event): bool { TextLe(a.name, b.name) }

  /** `order_by('-capacity')`. */
  function ByCapacityDescending(a: Event, b: Event): bool { a.capacity >= b.capacity }

  /** `order_by('start_time')` on sessions. */
  function SessionByStart(a: Session, b: Session): bool { a.start <= b.start }

  /** Each ordering the views use is a total preorder. */
  lemma StartOrder()
    ensures TotalOrder(ByStart)
  {
  }

  lemma NameOrder()
    ensures TotalOrder(ByName)
  {
    forall a: Event, b: Event ensures ByName(a, b) || ByName(b, a) {
      TextLeTotal(a.name, b.name);
    }
    forall a: Event, b: Event, c: Event | ByName(a, b) && ByName(b, c) ensures ByName(a, c) {
      TextLeTransitive(a.name, b.name, c.name);
    }
  }

  lemma CapacityOrder()
    ensures TotalOrder(ByCapacityDescending)
  {
  }

  lemma SessionStartOrder()
    ensures TotalOrder(SessionByStart)
  {
  }

  /** Sorting by each of them gives rows in that order. */
  lemma SortedByStart(s: seq<Event>)
    ensures SortedBy(SortBy(s, ByStart), ByStart)
  {
    StartOrder();
    SortBySorted(s, ByStart);
  }

  lemma SortedByName(s: seq<Event>)
    ensures SortedBy(SortBy(s, ByName), ByName)
  {
    NameOrder();
    SortBySorted(s, ByName);
  }

  lemma SortedByCapacity(s: seq<Event>)
    ensures SortedBy(SortBy(s, ByCapacityDescending), ByCapacityDescending)
  {
    CapacityOrder();
    SortBySorted(s, ByCapacityDescending);
  }

  lemma SessionsSortedByStart(s: seq<Session>)
    ensures SortedBy(SortBy(s, SessionByStart), SessionByStart)
  {
    SessionStartOrder();
    SortBySorted(s, SessionByStart);
  }

  // ---------------------------------------------------------------------------
  // PublicEventListAPIView

  /** `str.replace('Z', '+00:00')`. */
  function ReplaceZ(s: string): (r: string)
    ensures 'Z' !in r
    ensures 'Z' !in s ==> r == s
  {
    if s == [] then []
    else (if s[0] == 'Z' then "+00:00" else [s[0]]) + ReplaceZ(s[1..])
  }

  /** A `date_from` or `date_to` bound: a value that is given, not empty, and that
      `fromIso` (the model's `datetime.fromisoformat`) reads after the `Z` rewrite;
      a value it cannot read sets no bound. */
  function DateBound(q: Query, key: string, fromIso: string -> Option<int>): (r: Option<int>)
    ensures r.Some? ==> key in q && q[key] != "" && fromIso(ReplaceZ(q[key])) == r
    ensures (key !in q || q[key] == "" || fromIso(ReplaceZ(q[key])).None?) ==> r.None?
  {
    if key in q && q[key] != "" then fromIso(ReplaceZ(q[key])) else None
  }

  /** The `search` term: in the name, the description, the venue name or the venue
      address, ignoring case; an empty term matches everything. */
  predicate MatchesSearch(e: Event, term: string) {
    term == [] || ContainsIgnoringCase(e.name, term) || ContainsIgnoringCase(e.description, term)
    || ContainsIgnoringCase(e.venueName, term) || ContainsIgnoringCase(e.venueAddress, term)
  }

  /** The `location` filter: in the venue address or the venue name. */
  predicate MatchesLocation(e: Event, location: string) {
    location == [] || ContainsIgnoringCase(e.venueAddress, location) || ContainsIgnoringCase(e.venueName, location)
  }

  /** The list view's filters, read from the query: the stripped `search` and
      `location` terms, the date bounds, and whether `upcoming_only` (by default
      `true`, in any case) is on. `show_full` is read and has no effect. */
  datatype ListFilters = ListFilters(search: string, location: string, from: Option<int>, to: Option<int>, upcomingOnly: bool)

  function ListFiltersOf(q: Query, fromIso: string -> Option<int>): ListFilters {
    ListFilters(Strip(Get(q, "search", "")), Strip(Get(q, "location", "")),
                DateBound(q, "date_from", fromIso), DateBound(q, "date_to", fromIso),
                Lower(Get(q, "upcoming_only", "true")) == "true")
  }

  /** Every filter of the list view. */
  predicate InList(e: Event, f: ListFilters, now: int) {
    Listed(e)
    && MatchesSearch(e, f.search)
    && MatchesLocation(e, f.location)
    && (f.from.Some? ==> e.start >= f.from.value)
    && (f.to.Some? ==> e.start <= f.to.value)
    && (f.upcomingOnly ==> e.start > now)
  }

  function InListFilter(f: ListFilters, now: int): Event -> bool {
    (e: Event) => InList(e, f, now)
  }

  /** The list view's queryset: exactly the events passing every filter, by start. */
  function ListMatches(events: seq<Event>, f: ListFilters, now: int): (r: seq<Event>)
    ensures forall e :: e in r <==> e in events && InList(e, f, now)
    ensures SortedBy(r, ByStart)
  {
    SortedByStart(Filter(events, InListFilter(f, now)));
    SortBy(Filter(events, InListFilter(f, now)), ByStart)
  }

  const NOT_AN_INT := "invalid literal for int() with base 10"
  const NEGATIVE_INDEX := "Negative indexing is not supported."

  /** `int(query_params.get(key, default))`: a value `int` cannot read raises. */
  function IntParam(q: Query, key: string, default: int): (r: Result<int>)
    ensures key !in q ==> r == Ok(default)
    ensures key in q ==> (r.Ok? <==> ParseInt(q[key]).Some?)
    ensures key in q && r.Ok? ==> r.value == ParseInt(q[key]).value
    ensures r.Fail? ==> r == Fail(Crash(NOT_AN_INT))
  {
    if key !in q then Ok(default)
    else match ParseInt(q[key])
      case None => Fail(Crash(NOT_AN_INT))
      case Some(n) => Ok(n)
  }

  function Min(a: int, b: int): int { if a <= b then a else b }

  /** `queryset[start:end]` with bounds that are not negative. */
  function Slice<T>(s: seq<T>, start: nat, end: nat): (r: seq<T>)
    ensures |r| == if start < end && start < |s| then Min(end, |s|) - start else 0
    ensures forall i :: 0 <= i < |r| ==> r[i] == s[start + i]
  {
    if start < end && start < |s| then s[start..Min(end, |s|)] else []
  }

  datatype Pagination = Pagination(totalCount: nat, page: int, pageSize: int, hasNext: bool, hasPrevious: bool)

  datatype EventPage = EventPage(events: seq<Event>, pagination: Pagination)

  /** `queryset[start:end]` with `start = (page - 1) * page_size` and
      `end = start + page_size`: the matches from `start` on, at most `page_size` of
      them; `has_next` says matches remain after `end` and `has_previous` that the
      page number is above 1. Negative bounds raise. */
  function PageOf(M: seq<Event>, page: int, size: int): (r: Result<EventPage>)
    ensures var start := (page - 1) * size; var end := start + size;
      (r.Fail? <==> start < 0 || end < 0)
      && (r.Fail? ==> r == Fail(Crash(NEGATIVE_INDEX)))
      && (r.Ok? ==>
            r.value.pagination == Pagination(|M|, page, size, end < |M|, page > 1)
            && (forall i :: 0 <= i < |r.value.events| ==> start + i < |M| && r.value.events[i] == M[start + i])
            && (size >= 0 ==> |r.value.events| <= size)
            && (size <= 0 || start >= |M| ==> r.value.events == [])
            && (start < |M| <= end ==> |r.value.events| == |M| - start)
            && (0 <= size && end <= |M| ==> |r.value.events| == size))
  {
    var start := (page - 1) * size;
    var end := start + size;
    if start < 0 || end < 0 then Fail(Crash(NEGATIVE_INDEX))
    else Ok(EventPage(Slice(M, start, end), Pagination(|M|, page, size, end < |M|, page > 1)))
  }

  /** `PublicEventListAPIView.get`: the matching events in start order, cut to page
      `page` (1 unless given) of `page_size` events (20 unless given, never above 100).
      A `page` or `page_size` that `int` cannot read raises. */
  function ListPublicEvents(events: seq<Event>, q: Query, now: int, fromIso: string -> Option<int>): (r: Result<EventPage>)
    ensures IntParam(q, "page_size", 20).Fail? || IntParam(q, "page", 1).Fail? ==> r == Fail(Crash(NOT_AN_INT))
    ensures (IntParam(q, "page_size", 20).Ok? && IntParam(q, "page", 1).Ok?) ==>
      r == PageOf(ListMatches(events, ListFiltersOf(q, fromIso), now),
                  IntParam(q, "page", 1).value, Min(IntParam(q, "page_size", 20).value, 100))
    ensures r.Ok? ==>
      r.value.pagination.pageSize <= 100
      && r.value.pagination.pageSize == Min(IntParam(q, "page_size", 20).value, 100)
      && r.value.pagination.totalCount == |ListMatches(events, ListFiltersOf(q, fromIso), now)|
      && forall e :: e in r.value.events ==> e in events && InList(e, ListFiltersOf(q, fromIso), now)
  {
    match IntParam(q, "page_size", 20)
    case Fail(err) => Fail(err)
    case Ok(requested) =>
      match IntParam(q, "page", 1)
      case Fail(err) => Fail(err)
      case Ok(page) =>
        var M := ListMatches(events, ListFiltersOf(q, fromIso), now);
        var r := PageOf(M, page, Min(requested, 100));
        assert r.Ok? ==> forall e :: e in r.value.events ==> e in M;
        r
  }

  lemma MulMonotone(a: int, b: int, size: int)
    requires a <= b && size > 0
    ensures a * size <= b * size
  {
  }

  /** With pages of a positive size, the `k`-th matching event is the `k % size`-th
      of page `k / size + 1`, and only that page holds it. */
  lemma EveryMatchOnOnePage(M: seq<Event>, size: int, k: nat)
    requires size > 0 && k < |M|
    ensures var page := k / size + 1; var p := PageOf(M, page, size);
      p.Ok? && k % size < |p.value.events| && p.value.events[k % size] == M[k]
    ensures forall page: int :: (page - 1) * size <= k < page * size ==> page == k / size + 1
  {
    var page := k / size + 1;
    assert (page - 1) * size == k - k % size;
    forall page': int | (page' - 1) * size <= k < page' * size ensures page' == page {
      if page' < page {
        MulMonotone(page', page - 1, size);
      } else if page' > page {
        MulMonotone(page, page' - 1, size);
      }
    }
  }

  /** Setting or removing `key` leaves parameter `k` as it was. */
  lemma SameElsewhere(q: Query, key: string, v: string, k: string)
    requires k != key
    ensures (k in q[key := v]) == (k in q - {key})
    ensures k in q - {key} ==> q[key := v][k] == (q - {key})[k]
  {
  }

  /** Two queries that agree on each parameter the filters read have the same filters. */
  lemma SameFilters(a: Query, b: Query, fromIso: string -> Option<int>)
    requires Get(a, "search", "") == Get(b, "search", "")
    requires Get(a, "location", "") == Get(b, "location", "")
    requires Get(a, "upcoming_only", "true") == Get(b, "upcoming_only", "true")
    requires DateBound(a, "date_from", fromIso) == DateBound(b, "date_from", fromIso)
    requires DateBound(a, "date_to", fromIso) == DateBound(b, "date_to", fromIso)
    ensures ListFiltersOf(a, fromIso) == ListFiltersOf(b, fromIso)
  {
  }

  /** Two queries with the same value (or none) for `key` read the same number there. */
  lemma SameIntParam(a: Query, b: Query, key: string, default: int)
    requires (key in a) == (key in b)
    requires key in a ==> a[key] == b[key]
    ensures IntParam(a, key, default) == IntParam(b, key, default)
  {
    if key in a {
      var s := a[key];
      assert b[key] == s;
    }
  }

  /** Two queries that agree on the filters and on `page` and `page_size` list the
      same page. */
  lemma SameListing(events: seq<Event>, a: Query, b: Query, now: int, fromIso: string -> Option<int>)
    requires ListFiltersOf(a, fromIso) == ListFiltersOf(b, fromIso)
    requires IntParam(a, "page", 1) == IntParam(b, "page", 1)
    requires IntParam(a, "page_size", 20) == IntParam(b, "page_size", 20)
    ensures ListPublicEvents(events, a, now, fromIso) == ListPublicEvents(events, b, now, fromIso)
  {
  }

  /** `show_full` changes nothing. */
  lemma ShowFullIgnored(events: seq<Event>, q: Query, v: string, now: int, fromIso: string -> Option<int>)
    ensures ListPublicEvents(events, q["show_full" := v], now, fromIso) == ListPublicEvents(events, q - {"show_full"}, now, fromIso)
  {
    var a := q["show_full" := v];
    var b := q - {"show_full"};
    SameElsewhere(q, "show_full", v, "search");
    SameElsewhere(q, "show_full", v, "location");
    SameElsewhere(q, "show_full", v, "upcoming_only");
    SameElsewhere(q, "show_full", v, "date_from");
    SameElsewhere(q, "show_full", v, "date_to");
    SameElsewhere(q, "show_full", v, "page");
    SameElsewhere(q, "show_full", v, "page_size");
    SameIntParam(a, b, "page", 1);
    SameIntParam(a, b, "page_size", 20);
    SameFilters(a, b, fromIso);
    SameListing(events, a, b, now, fromIso);
  }

  /** A `date_from` that does not read as a date is ignored, not refused. */
  lemma UnreadableDateIgnored(events: seq<Event>, q: Query, v: string, now: int, fromIso: string -> Option<int>)
    requires fromIso(ReplaceZ(v)).None?
    ensures ListPublicEvents(events, q["date_from" := v], now, fromIso) == ListPublicEvents(events, q - {"date_from"}, now, fromIso)
  {
    var a := q["date_from" := v];
    var b := q - {"date_from"};
    SameElsewhere(q, "date_from", v, "search");
    SameElsewhere(q, "date_from", v, "location");
    SameElsewhere(q, "date_from", v, "upcoming_only");
    SameElsewhere(q, "date_from", v, "date_to");
    SameElsewhere(q, "date_from", v, "page");
    SameElsewhere(q, "date_from", v, "page_size");
    SameIntParam(a, b, "page", 1);
    SameIntParam(a, b, "page_size", 20);
    assert DateBound(a, "date_from", fromIso) == None == DateBound(b, "date_from", fromIso);
    SameFilters(a, b, fromIso);
    SameListing(events, a, b, now, fromIso);
  }

  /** Unless `upcoming_only` is given as something other than `true` (in any case),
      the upcoming filter is on. */
  lemma UpcomingByDefault(q: Query, fromIso: string -> Option<int>)
    requires "upcoming_only" !in q || Lower(q["upcoming_only"]) == "true"
    ensures ListFiltersOf(q, fromIso).upcomingOnly
  {
    if "upcoming_only" !in q {
      assert Get(q, "upcoming_only", "true") == "true";
      assert Lower("true") == "true";
    } else {
      assert Get(q, "upcoming_only", "true") == q["upcoming_only"];
    }
  }

  /** With the upcoming filter on, only events starting strictly after now are
      listed, and only published public ones in any case. */
  lemma UpcomingFilterKeepsFuture(events: seq<Event>, f: ListFilters, now: int)
    ensures forall e :: e in ListMatches(events, f, now) ==> Listed(e) && (f.upcomingOnly ==> e.start > now)
  {
  }

  // ---------------------------------------------------------------------------
  // PublicEventDetailAPIView

  const NO_EVENT_MATCHES := "No Event matches the given query."

  function ListedWithId(id: nat): Event -> bool {
    (e: Event) => e.id == id && Listed(e)
  }

  /** `get_object_or_404(Event, id=..., status=PUBLISHED, is_public=True)`: a draft
      or private event is as absent as a missing one. */
  function PublicEvent(events: seq<Event>, id: nat): (r: Result<Event>)
    ensures r.Ok? ==> r.value in events && r.value.id == id && Listed(r.value)
    ensures r.Fail? <==> forall e :: e in events ==> !(e.id == id && Listed(e))
    ensures r.Fail? ==> r == Fail(NotFound(NO_EVENT_MATCHES))
  {
    match FirstIndex(events, ListedWithId(id))
    case None => Fail(NotFound(NO_EVENT_MATCHES))
    case Some(k) => Ok(events[k])
  }

  // ---------------------------------------------------------------------------
  // PublicEventScheduleAPIView

  /** `start_time.split('T')[0]`: the text before the first `T`, or all of it. */
  function DayOf(s: string): (r: string)
    ensures IsPrefix(r, s) && 'T' !in r
    ensures |r| == |s| || s[|r|] == 'T'
  {
    if s == [] || s[0] == 'T' then [] else [s[0]] + DayOf(s[1..])
  }

  /** The day a session is listed under: `render` is the serializer's datetime
      format, and the day is the text before its first `T`. */
  function SessionDay(render: int -> string): Session -> string {
    (s: Session) => DayOf(render(s.start))
  }

  function KeyIs<T>(k: string, key: T -> string): T -> bool {
    (x: T) => key(x) == k
  }

  /** The invariant of the grouping loop after the first `i` items: the keys
      present are those of these items, and each holds its items in order. */
  ghost predicate GroupedUpTo<T(!new)>(items: seq<T>, i: nat, groups: map<string, seq<T>>, key: T -> string)
    requires i <= |items|
  {
    (forall k :: k in groups <==> exists j :: 0 <= j < i && key(items[j]) == k)
    && (forall k :: k in groups ==> groups[k] == Filter(items[..i], KeyIs(k, key)))
  }

  /** One step of the grouping loop keeps its invariant. */
  lemma GroupStep<T(!new)>(items: seq<T>, i: nat, groups: map<string, seq<T>>, key: T -> string)
    requires i < |items| && GroupedUpTo(items, i, groups, key)
    ensures var k := key(items[i]);
      GroupedUpTo(items, i + 1, groups[k := (if k in groups then groups[k] else []) + [items[i]]], key)
  {
    var k := key(items[i]);
    var next := groups[k := (if k in groups then groups[k] else []) + [items[i]]];
    assert items[..i + 1] == items[..i] + [items[i]];
    forall d | d in next ensures next[d] == Filter(items[..i + 1], KeyIs(d, key)) {
      FilterAppend(items[..i], items[i], KeyIs(d, key));
      if d == k && d !in groups {
        FilterNone(items[..i], KeyIs(d, key));
      }
    }
  }

  /** What the finished grouping gives: the keys are exactly those of the items and
      each key's list is its items in their given order, so every item is in the
      list of its key and in no other. */
  lemma GroupedMeans<T(!new)>(items: seq<T>, groups: map<string, seq<T>>, key: T -> string)
    requires GroupedUpTo(items, |items|, groups, key)
    ensures forall k :: k in groups <==> exists x :: x in items && key(x) == k
    ensures forall k :: k in groups ==> groups[k] == Filter(items, KeyIs(k, key))
    ensures forall x :: x in items ==> key(x) in groups && x in groups[key(x)]
    ensures forall k, x :: k in groups && x in groups[k] ==> key(x) == k
  {
    assert items[..|items|] == items;
    forall k ensures k in groups <==> exists x :: x in items && key(x) == k {
      if k in groups {
        var j :| 0 <= j < |items| && key(items[j]) == k;
        assert items[j] in items;
      }
    }
  }

  /** The grouping loop, with `defaultdict(list)`: each item is appended to the list
      of its key. The keys present are exactly those of some item; each key's list
      holds the items with that key in their given order, so every item is in
      exactly one list. */
  method GroupBy<T(!new)>(items: seq<T>, key: T -> string) returns (groups: map<string, seq<T>>)
    ensures forall k :: k in groups <==> exists x :: x in items && key(x) == k
    ensures forall k :: k in groups ==> groups[k] == Filter(items, KeyIs(k, key))
    ensures forall x :: x in items ==> key(x) in groups && x in groups[key(x)]
    ensures forall k, x :: k in groups && x in groups[k] ==> key(x) == k
  {
    groups := map[];
    var i := 0;
    while i < |items|
      invariant 0 <= i <= |items|
      invariant GroupedUpTo(items, i, groups, key)
    {
      var k := key(items[i]);
      var group := if k in groups then groups[k] else [];
      GroupStep(items, i, groups, key);
      groups := groups[k := group + [items[i]]];
      i := i + 1;
    }
    GroupedMeans(items, groups, key);
  }

  /** The event fields the schedule view returns with it. */
  datatype ScheduleEvent = ScheduleEvent(id: nat, name: string, start: int, end: Option<int>, venueName: string, venueAddress: string)

  datatype Schedule = Schedule(event: ScheduleEvent, byDay: map<string, seq<Session>>)

  function SessionsOf(eventId: nat): Session -> bool {
    (s: Session) => s.event == eventId
  }

  /** `PublicEventScheduleAPIView.get`: for a published public event, its sessions
      in start order grouped by day; every session of the event is in the list of
      its day and of no other day, and every list is in start order. */
  method EventSchedule(events: seq<Event>, sessions: seq<Session>, id: nat, render: int -> string) returns (r: Result<Schedule>)
    ensures r.Fail? <==> PublicEvent(events, id).Fail?
    ensures r.Fail? ==> r == Fail(NotFound(NO_EVENT_MATCHES))
    ensures r.Ok? ==>
      var e := PublicEvent(events, id).value;
      r.value.event == ScheduleEvent(e.id, e.name, e.start, e.end, e.venueName, e.venueAddress)
      && (forall s :: s in sessions && s.event == id ==>
            DayOf(render(s.start)) in r.value.byDay && s in r.value.byDay[DayOf(render(s.start))])
      && (forall day, s :: day in r.value.byDay && s in r.value.byDay[day] ==>
            s in sessions && s.event == id && DayOf(render(s.start)) == day)
      && (forall day :: day in r.value.byDay ==> SortedBy(r.value.byDay[day], SessionByStart))
  {
    var found := PublicEvent(events, id);
    if found.Fail? {
      return Fail(found.err);
    }
    var e := found.value;
    var own := Filter(sessions, SessionsOf(id));
    var ordered := SortBy(own, SessionByStart);
    SessionsSortedByStart(own);
    var byDay := GroupBy(ordered, SessionDay(render));
    forall day | day in byDay ensures SortedBy(byDay[day], SessionByStart) {
      FilterSorted(ordered, KeyIs(day, SessionDay(render)), SessionByStart);
    }
    return Ok(Schedule(ScheduleEvent(e.id, e.name, e.start, e.end, e.venueName, e.venueAddress), byDay));
  }

  // ---------------------------------------------------------------------------
  // EventSearchAPIView

  /** The `q` term: in the name, the description or the venue name of the event, or
      in the name of one of its speakers or the title of one of its sessions. */
  predicate MatchesTerm(e: Event, speakers: seq<Speaker>, sessions: seq<Session>, term: string) {
    term == []
    || ContainsIgnoringCase(e.name, term) || ContainsIgnoringCase(e.description, term)
    || ContainsIgnoringCase(e.venueName, term)
    || (exists s :: s in speakers && s.event == e.id && ContainsIgnoringCase(s.fullName, term))
    || (exists s :: s in sessions && s.event == e.id && ContainsIgnoringCase(s.title, term))
  }

  /** A `min_capacity` or `max_capacity` bound: a value that is given, not empty and
      readable by `int`; any other sets no bound. */
  function CapacityBound(q: Query, key: string): (r: Option<int>)
    ensures r.Some? <==> key in q && q[key] != "" && ParseInt(q[key]).Some?
    ensures r.Some? ==> r == ParseInt(q[key])
  {
    if key in q && q[key] != "" then ParseInt(q[key]) else None
  }

  /** The search view's filters, read from the query: the stripped `q` term, the
      `type` text as given, and the capacity bounds. */
  datatype SearchFilters = SearchFilters(term: string, kind: string, minCapacity: Option<int>, maxCapacity: Option<int>)

  function SearchFiltersOf(q: Query): SearchFilters {
    SearchFilters(Strip(Get(q, "q", "")), Get(q, "type", ""), CapacityBound(q, "min_capacity"), CapacityBound(q, "max_capacity"))
  }

  /** Every filter of the search view: listed, upcoming, the `q` term, the `type`
      text in the name or description, and the capacity bounds. */
  predicate InSearch(e: Event, speakers: seq<Speaker>, sessions: seq<Session>, f: SearchFilters, now: int) {
    Listed(e) && e.start > now
    && MatchesTerm(e, speakers, sessions, f.term)
    && (f.kind != [] ==> ContainsIgnoringCase(e.name, f.kind) || ContainsIgnoringCase(e.description, f.kind))
    && (f.minCapacity.Some? ==> e.capacity >= f.minCapacity.value)
    && (f.maxCapacity.Some? ==> e.capacity <= f.maxCapacity.value)
  }

  function InSearchFilter(speakers: seq<Speaker>, sessions: seq<Session>, f: SearchFilters, now: int): Event -> bool {
    (e: Event) => InSearch(e, speakers, sessions, f, now)
  }

  /** The `sort_by` option: `date` (the default), `name`, or `capacity` from the
      largest down; any other value leaves the rows unordered, here in table order. */
  function SearchOrder(events: seq<Event>, sortBy: string): (r: seq<Event>)
    ensures multiset(r) == multiset(events)
    ensures sortBy == "date" ==> SortedBy(r, ByStart)
    ensures sortBy == "name" ==> SortedBy(r, ByName)
    ensures sortBy == "capacity" ==> SortedBy(r, ByCapacityDescending)
  {
    SortedByStart(events);
    SortedByName(events);
    SortedByCapacity(events);
    if sortBy == "date" then SortBy(events, ByStart)
    else if sortBy == "name" then SortBy(events, ByName)
    else if sortBy == "capacity" then SortBy(events, ByCapacityDescending)
    else events
  }

  /** The search view's queryset before the limit: exactly the events passing
      every filter, in the order `sortBy` asks for. */
  function SearchMatches(events: seq<Event>, speakers: seq<Speaker>, sessions: seq<Session>, f: SearchFilters,
                         sortBy: string, now: int): (r: seq<Event>)
    ensures forall e :: e in r <==> e in events && InSearch(e, speakers, sessions, f, now)
    ensures |r| == Count(events, InSearchFilter(speakers, sessions, f, now))
    ensures sortBy == "date" ==> SortedBy(r, ByStart)
    ensures sortBy == "name" ==> SortedBy(r, ByName)
    ensures sortBy == "capacity" ==> SortedBy(r, ByCapacityDescending)
  {
    var m := Filter(events, InSearchFilter(speakers, sessions, f, now));
    var r := SearchOrder(m, sortBy);
    assert forall e :: e in r <==> e in multiset(m);
    r
  }

  /** `queryset[:limit]`: the first `limit` rows, or all of them when there are
      fewer; a negative limit raises. */
  function Limited(s: seq<Event>, limit: int): (r: Result<seq<Event>>)
    ensures r.Fail? <==> limit < 0
    ensures r.Fail? ==> r == Fail(Crash(NEGATIVE_INDEX))
    ensures r.Ok? ==> |r.value| == Min(limit, |s|) && r.value == s[..|r.value|]
  {
    if limit < 0 then Fail(Crash(NEGATIVE_INDEX)) else Ok(s[..Min(limit, |s|)])
  }

  datatype SearchResult = SearchResult(query: string, resultsCount: nat, events: seq<Event>)

  /** `EventSearchAPIView.get`: the upcoming published public events passing every
      filter, in the order `sort_by` (by default `date`) asks for, at most `limit` of
      them (50 unless given, never above 100); `results_count` is how many are
      returned. A `limit` that `int` cannot read raises. */
  function SearchEvents(events: seq<Event>, speakers: seq<Speaker>, sessions: seq<Session>, q: Query, now: int): (r: Result<SearchResult>)
    ensures IntParam(q, "limit", 50).Fail? ==> r == Fail(Crash(NOT_AN_INT))
    ensures IntParam(q, "limit", 50).Ok? ==>
      var limit := Min(IntParam(q, "limit", 50).value, 100);
      var M := SearchMatches(events, speakers, sessions, SearchFiltersOf(q), Get(q, "sort_by", "date"), now);
      (r.Fail? <==> limit < 0) && (r.Fail? ==> r == Fail(Crash(NEGATIVE_INDEX)))
      && (r.Ok? ==>
            |r.value.events| == Min(limit, |M|) && r.value.events == M[..|r.value.events|]
            && r.value.resultsCount == |r.value.events|
            && r.value.query == SearchFiltersOf(q).term)
  {
    match IntParam(q, "limit", 50)
    case Fail(err) => Fail(err)
    case Ok(requested) =>
      var f := SearchFiltersOf(q);
      match Limited(SearchMatches(events, speakers, sessions, f, Get(q, "sort_by", "date"), now), Min(requested, 100))
      case Fail(err) => Fail(err)
      case Ok(page) => Ok(SearchResult(f.term, |page|, page))
  }

  /** Of rows passing every filter, at most `limit` are kept: each kept row passes
      every filter, and when no more match than the limit, every match is kept. */
  lemma LimitedMatches(events: seq<Event>, speakers: seq<Speaker>, sessions: seq<Session>, f: SearchFilters,
                       sortBy: string, now: int, limit: int)
    requires Limited(SearchMatches(events, speakers, sessions, f, sortBy, now), limit).Ok?
    ensures var r := Limited(SearchMatches(events, speakers, sessions, f, sortBy, now), limit).value;
      (forall e :: e in r ==> e in events && InSearch(e, speakers, sessions, f, now))
      && (Count(events, InSearchFilter(speakers, sessions, f, now)) <= limit ==>
            r == SearchMatches(events, speakers, sessions, f, sortBy, now))
  {
    var M := SearchMatches(events, speakers, sessions, f, sortBy, now);
    var r := Limited(M, limit).value;
    forall e | e in r ensures e in M {
      var i :| 0 <= i < |r| && r[i] == e;
      assert M[i] == e;
    }
  }

  /** A leading part of rows in order is in order. */
  lemma PrefixSorted<T>(s: seq<T>, n: nat, le: (T, T) -> bool)
    requires n <= |s| && SortedBy(s, le)
    ensures SortedBy(s[..n], le)
  {
  }

  /** The kept rows come in the order `sortBy` asks for. */
  lemma LimitedKeepsOrder(events: seq<Event>, speakers: seq<Speaker>, sessions: seq<Session>, f: SearchFilters,
                          sortBy: string, now: int, limit: int)
    requires Limited(SearchMatches(events, speakers, sessions, f, sortBy, now), limit).Ok?
    ensures var r := Limited(SearchMatches(events, speakers, sessions, f, sortBy, now), limit).value;
      (sortBy == "date" ==> SortedBy(r, ByStart))
      && (sortBy == "name" ==> SortedBy(r, ByName))
      && (sortBy == "capacity" ==> SortedBy(r, ByCapacityDescending))
  {
    var M := SearchMatches(events, speakers, sessions, f, sortBy, now);
    var r := Limited(M, limit).value;
    if sortBy == "date" { PrefixSorted(M, |r|, ByStart); }
    if sortBy == "name" { PrefixSorted(M, |r|, ByName); }
    if sortBy == "capacity" { PrefixSorted(M, |r|, ByCapacityDescending); }
  }
}
