/** The event service: the business rules of event creation, the unique-slug loop
    and the creation itself. */
module Events {
  import opened Common
  import opened Text
  import opened Store
  import opened OrganizationModels

  const MAX_CAPACITY := 10000
  const MIN_DURATION := 30 * MINUTE
  const MAX_DURATION := 8760 * HOUR

  /** The validated data `create_event` receives. Durations are whole seconds and an
      absent one counts as 0. */
  datatype EventInput = EventInput(
    name: string, slug: Option<string>, description: string, start: int, end: Option<int>,
    durationDays: Option<int>, durationSecs: Option<int>, capacity: int,
    venueName: string, venueAddress: string)

  /** The duration the rules measure: end minus start when an end is given, else the
      days and hours. */
  function TotalDuration(d: EventInput): int {
    if d.end.Some? then d.end.value - d.start else OrZero(d.durationDays) * DAY + OrZero(d.durationSecs)
  }

  const NOT_IN_FUTURE := "Event start date must be in the future"
  const NO_CAPACITY := "Event capacity must be greater than 0"
  const OVER_CAPACITY := "Event capacity cannot exceed 10,000 attendees"
  const TOO_SHORT := "Event duration must be at least 30 minutes"
  const TOO_LONG := "Event duration cannot exceed 365 days"

  /** `_validate_event_creation_rules`: the start strictly after `now`, a capacity of
      1 to 10000, and a duration of 30 minutes to 8760 hours, checked in that order
      with the first failure reported. */
  function CreationRules(d: EventInput, now: int): (r: Option<Err>)
    ensures r.None? <==>
      d.start > now && 0 < d.capacity <= MAX_CAPACITY && MIN_DURATION <= TotalDuration(d) <= MAX_DURATION
    ensures r == Some(Invalid(NOT_IN_FUTURE)) <==> d.start <= now
    ensures r == Some(Invalid(NO_CAPACITY)) <==> d.start > now && d.capacity <= 0
    ensures r == Some(Invalid(OVER_CAPACITY)) <==> d.start > now && d.capacity > MAX_CAPACITY
    ensures r == Some(Invalid(TOO_SHORT)) <==>
      d.start > now && 0 < d.capacity <= MAX_CAPACITY && TotalDuration(d) < MIN_DURATION
    ensures r == Some(Invalid(TOO_LONG)) <==>
      d.start > now && 0 < d.capacity <= MAX_CAPACITY && MIN_DURATION <= TotalDuration(d) && TotalDuration(d) > MAX_DURATION
  {
    if d.start <= now then Some(Invalid(NOT_IN_FUTURE))
    else if d.capacity <= 0 then Some(Invalid(NO_CAPACITY))
    else if d.capacity > MAX_CAPACITY then Some(Invalid(OVER_CAPACITY))
    else if TotalDuration(d) < MIN_DURATION then Some(Invalid(TOO_SHORT))
    else if TotalDuration(d) > MAX_DURATION then Some(Invalid(TOO_LONG))
    else None
  }

  /** The rules measure a given end and ignore the duration fields then: a one-day
      event with a stated duration of 400 days passes. */
  lemma EndOverridesDuration(now: int)
    ensures CreationRules(EventInput("Launch", None, "A launch party", now + 1, Some(now + 1 + DAY),
                                     Some(400), None, 10, "Hall", "Main Street"), now).None?
  {
  }

  predicate SlugTaken(events: seq<Event>, slug: string) {
    exists e :: e in events && e.slug == slug
  }

  /** The `k`-th slug the loop tries: the base itself, then `base-1`, `base-2`, ... */
  function Candidate(base: string, k: nat): string {
    if k == 0 then base else base + "-" + NatToString(k)
  }

  /** The loop never tries a slug twice. */
  lemma CandidateInjective(base: string, a: nat, b: nat)
    requires Candidate(base, a) == Candidate(base, b)
    ensures a == b
  {
    if a != 0 && b != 0 {
      assert Candidate(base, a)[|base| + 1..] == NatToString(a);
      assert Candidate(base, b)[|base| + 1..] == NatToString(b);
      NatToStringInjective(a, b);
    }
  }

  /** The slugs in use. */
  function SlugSet(events: seq<Event>): (r: set<string>)
    ensures |r| <= |events|
    ensures forall s :: s in r ==> SlugTaken(events, s)
  {
    if events == [] then {} else {events[0].slug} + SlugSet(events[1..])
  }

  lemma {:induction false} SlugSetHasAll(events: seq<Event>, s: string)
    requires SlugTaken(events, s)
    ensures s in SlugSet(events)
  {
    if events[0].slug != s {
      var e :| e in events && e.slug == s;
      assert e in events[1..];
      SlugSetHasAll(events[1..], s);
    }
  }

  /** The slugs the loop has tried before its `n`-th. */
  ghost function Tried(base: string, n: nat): set<string> {
    if n == 0 then {} else Tried(base, n - 1) + {Candidate(base, n - 1)}
  }

  lemma {:induction false} TriedExactly(base: string, n: nat, m: nat)
    ensures Candidate(base, m) in Tried(base, n) <==> m < n
  {
    if n > 0 {
      TriedExactly(base, n - 1, m);
      if Candidate(base, m) == Candidate(base, n - 1) { CandidateInjective(base, m, n - 1); }
    }
  }

  lemma {:induction false} TriedSize(base: string, n: nat)
    ensures |Tried(base, n)| == n
  {
    if n > 0 {
      TriedSize(base, n - 1);
      TriedExactly(base, n - 1, n - 1);
    }
  }

  lemma {:induction false} SubsetSize<T>(a: set<T>, b: set<T>)
    requires a <= b
    ensures |a| <= |b|
  {
    if a != {} {
      var x :| x in a;
      SubsetSize(a - {x}, b - {x});
    }
  }

  /** `_generate_unique_slug` on the slugified name `base`: the first of `base`,
      `base-1`, `base-2`, ... that no event uses. The loop ends because each slug it
      rejects is a different one in use. */
  method GenerateUniqueSlug(events: seq<Event>, base: string) returns (slug: string)
    ensures !SlugTaken(events, slug)
    ensures exists k: nat :: slug == Candidate(base, k) && forall j: nat :: j < k ==> SlugTaken(events, Candidate(base, j))
    ensures !SlugTaken(events, base) ==> slug == base
  {
    slug := base;
    var counter: nat := 1;
    while SlugTaken(events, slug)
      invariant counter >= 1 && slug == Candidate(base, counter - 1)
      invariant Tried(base, counter - 1) <= SlugSet(events)
      decreases |events| - (counter - 1)
    {
      SlugSetHasAll(events, slug);
      TriedSize(base, counter);
      SubsetSize(Tried(base, counter), SlugSet(events));
      slug := base + "-" + NatToString(counter);
      counter := counter + 1;
    }
    forall j: nat | j < counter - 1 ensures SlugTaken(events, Candidate(base, j)) {
      TriedExactly(base, counter - 1, j);
    }
  }

  /** No two events share a slug, as the unique column demands. */
  predicate SlugsUnique(events: seq<Event>) {
    forall i, j :: 0 <= i < j < |events| ==> events[i].slug != events[j].slug
  }

  /** `create_event` for `user`: after the rules, the event is saved with the given
      fields, the user as creator, and the supplied slug or, when none is supplied,
      the generated one; a supplied slug already in use breaks the unique column.
      `status` and `isPublic` are the model's defaults for those columns and
      `slugify` is Django's. Slugs stay unique. */
  method CreateEvent(db: Database, user: User, d: EventInput, now: int, slugify: string -> string,
                     status: string, isPublic: bool) returns (r: Result<Event>)
    requires db.Valid()
    modifies db`events, db`nextId
    ensures db.Valid()
    ensures CreationRules(d, now).Some? ==> r == Fail(CreationRules(d, now).value)
    ensures (CreationRules(d, now).None? && d.slug.Some? && d.slug.value != "" && SlugTaken(old(db.events), d.slug.value))
      ==> r == Fail(Crash(INTEGRITY_ERROR))
    ensures r.Ok? <==> (CreationRules(d, now).None?
      && (d.slug.Some? && d.slug.value != "" ==> !SlugTaken(old(db.events), d.slug.value)))
    ensures r.Fail? ==> db.events == old(db.events)
    ensures r.Ok? ==>
      r.value == Event(r.value.id, d.name, r.value.slug, d.description, d.start, d.end,
                       OrZero(d.durationDays), OrZero(d.durationSecs), d.capacity, d.venueName, d.venueAddress,
                       status, isPublic, Some(user.id))
      && !SlugTaken(old(db.events), r.value.slug)
      && (d.slug.Some? && d.slug.value != "" ==> r.value.slug == d.slug.value)
      && ((d.slug.None? || d.slug.value == "") ==>
           exists k: nat :: r.value.slug == Candidate(slugify(d.name), k)
             && forall j: nat :: j < k ==> SlugTaken(old(db.events), Candidate(slugify(d.name), j)))
      && old(db.nextId) <= r.value.id && db.events == old(db.events) + [r.value]
    ensures SlugsUnique(old(db.events)) ==> SlugsUnique(db.events)
  {
    var failed := CreationRules(d, now);
    if failed.Some? {
      return Fail(failed.value);
    }
    var slug: string;
    if d.slug.None? || d.slug.value == "" {
      slug := GenerateUniqueSlug(db.events, slugify(d.name));
    } else {
      slug := d.slug.value;
      if SlugTaken(db.events, slug) {
        return Fail(Crash(INTEGRITY_ERROR));
      }
    }
    slug := SaveSlug(d.name, slug, slugify);
    var id := NewId(db);
    var e := Event(id, d.name, slug, d.description, d.start, d.end, OrZero(d.durationDays), OrZero(d.durationSecs),
                   d.capacity, d.venueName, d.venueAddress, status, isPublic, Some(user.id));
    assert forall i :: 0 <= i < |db.events| ==> db.events[i] in db.events;
    db.AddEvent(e);
    return Ok(e);
  }
}
