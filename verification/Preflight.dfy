/**
 The rollout gate for staff-aware reservations: six queries over reservations and class sessions,
 and an exit code that is zero when all of them are empty.
 */
module Preflight {
  import opened Options
  import opened TextOrder

  type Id = string
  type Instant = int

  /**
   The readings of the clock while one query runs: one for each test of a row, given by the row's id,
   the id of the row beside it, and whether it is the left one of a pair.
   */
  type Clock = (Id, Id, bool) -> Instant

  /** A clock that stands still. */
  function Still(now: Instant): Clock {
    (row, beside, left) => now
  }

  datatype ReservationStatus = PENDING | CONFIRMED | CHECKED_IN | COMPLETED | CANCELLED | NO_SHOW
  datatype SessionStatus = SCHEDULED | SESSION_CANCELLED | SESSION_COMPLETED

  datatype Reservation = Reservation(id: Id, venue: Id, staff: Option<Id>, status: ReservationStatus,
                                     startsAt: Instant, endsAt: Instant, product: Option<Id>, products: seq<Id>)

  datatype Session = Session(id: Id, venue: Id, staff: Option<Id>, status: SessionStatus, startsAt: Instant, endsAt: Instant)

  /** The rows the queries read; venues give their organisation, staff-venue rows the staff of a venue. */
  datatype Tables = Tables(reservations: set<Reservation>, sessions: set<Session>, organizationOf: map<Id, Id>, staffVenues: set<(Id, Id)>)

  /** Primary keys. */
  ghost predicate HasKeys(t: Tables) {
    && (forall a, b :: a in t.reservations && b in t.reservations && a.id == b.id ==> a == b)
    && (forall a, b :: a in t.sessions && b in t.sessions && a.id == b.id ==> a == b)
  }

  // ----- The queries -----

  /** Live, assigned, and not over yet. */
  predicate IsOpenReservation(r: Reservation, now: Instant) {
    (r.status == PENDING || r.status == CONFIRMED || r.status == CHECKED_IN) && r.staff.Some? && r.endsAt > now
  }

  predicate IsOpenSession(c: Session, now: Instant) {
    c.status == SCHEDULED && c.staff.Some? && c.endsAt > now
  }

  predicate SameOrganization(t: Tables, v: Id, w: Id) {
    v in t.organizationOf && w in t.organizationOf && t.organizationOf[v] == t.organizationOf[w]
  }

  function ReservationsWithoutStaffVenue(t: Tables, clock: Clock): set<Reservation> {
    set r | r in t.reservations && IsOpenReservation(r, clock(r.id, r.id, true)) && (r.staff.value, r.venue) !in t.staffVenues
  }

  function SessionsWithoutStaffVenue(t: Tables, clock: Clock): set<Session> {
    set c | c in t.sessions && IsOpenSession(c, clock(c.id, c.id, true)) && (c.staff.value, c.venue) !in t.staffVenues
  }

  function ReservationOverlaps(t: Tables, clock: Clock): set<(Reservation, Reservation)> {
    set a, b | a in t.reservations && b in t.reservations
               && IsOpenReservation(a, clock(a.id, b.id, true)) && IsOpenReservation(b, clock(b.id, a.id, false))
               && Less(a.id, b.id) && b.staff == a.staff && a.startsAt < b.endsAt && a.endsAt > b.startsAt
               && SameOrganization(t, a.venue, b.venue) :: (a, b)
  }

  function MixedOverlaps(t: Tables, clock: Clock): set<(Reservation, Session)> {
    set r, c | r in t.reservations && c in t.sessions
               && IsOpenReservation(r, clock(r.id, c.id, true)) && IsOpenSession(c, clock(c.id, r.id, false))
               && c.staff == r.staff && r.startsAt < c.endsAt && r.endsAt > c.startsAt
               && SameOrganization(t, r.venue, c.venue) :: (r, c)
  }

  function SessionOverlaps(t: Tables, clock: Clock): set<(Session, Session)> {
    set a, b | a in t.sessions && b in t.sessions
               && IsOpenSession(a, clock(a.id, b.id, true)) && IsOpenSession(b, clock(b.id, a.id, false))
               && Less(a.id, b.id) && b.staff == a.staff && a.startsAt < b.endsAt && a.endsAt > b.startsAt
               && SameOrganization(t, a.venue, b.venue) :: (a, b)
  }

  /** A lead product, or none, that is not the first of the listed products. */
  function LeadProductMismatches(t: Tables, clock: Clock): set<Reservation> {
    set r | r in t.reservations && (r.status == PENDING || r.status == CONFIRMED) && r.endsAt > clock(r.id, r.id, true)
            && |r.products| > 0 && r.product != Some(r.products[0])
  }

  // ----- The run -----

  datatype Category =
    | ReservationMissingStaffVenue
    | ClassSessionMissingStaffVenue
    | ReservationReservationOverlap
    | ReservationClassSessionOverlap
    | ClassSessionClassSessionOverlap
    | ReservationLeadProductMismatch

  const CATEGORIES: seq<Category> := [
    ReservationMissingStaffVenue, ClassSessionMissingStaffVenue, ReservationReservationOverlap,
    ReservationClassSessionOverlap, ClassSessionClassSessionOverlap, ReservationLeadProductMismatch]

  /** How many rows the query of a category returns. */
  function RowCount(category: Category, t: Tables, clock: Clock): nat {
    match category
    case ReservationMissingStaffVenue => |ReservationsWithoutStaffVenue(t, clock)|
    case ClassSessionMissingStaffVenue => |SessionsWithoutStaffVenue(t, clock)|
    case ReservationReservationOverlap => |ReservationOverlaps(t, clock)|
    case ReservationClassSessionOverlap => |MixedOverlaps(t, clock)|
    case ClassSessionClassSessionOverlap => |SessionOverlaps(t, clock)|
    case ReservationLeadProductMismatch => |LeadProductMismatches(t, clock)|
  }

  /** No query of a run returns a row; `clocks[k]` is what query k reads. */
  ghost predicate AllClear(t: Tables, clocks: seq<Clock>)
    requires |clocks| == |CATEGORIES|
  {
    forall k :: 0 <= k < |CATEGORIES| ==> RowCount(CATEGORIES[k], t, clocks[k]) == 0
  }

  // ----- What the gate promises about the columns -----

  /** Two reservations of one person in one organisation that share time, neither over at `now`. */
  ghost predicate ReservationsClash(t: Tables, a: Reservation, b: Reservation, now: Instant) {
    && a in t.reservations && b in t.reservations && a != b
    && (a.status == PENDING || a.status == CONFIRMED || a.status == CHECKED_IN)
    && (b.status == PENDING || b.status == CONFIRMED || b.status == CHECKED_IN)
    && a.staff.Some? && b.staff == a.staff && a.startsAt < b.endsAt && b.startsAt < a.endsAt
    && a.venue in t.organizationOf && b.venue in t.organizationOf && t.organizationOf[a.venue] == t.organizationOf[b.venue]
    && now < a.endsAt && now < b.endsAt
  }

  /** A reservation and a class session likewise. */
  ghost predicate ReservationMeetsSession(t: Tables, r: Reservation, c: Session, now: Instant) {
    && r in t.reservations && c in t.sessions
    && (r.status == PENDING || r.status == CONFIRMED || r.status == CHECKED_IN) && c.status == SCHEDULED
    && r.staff.Some? && c.staff == r.staff && r.startsAt < c.endsAt && c.startsAt < r.endsAt
    && r.venue in t.organizationOf && c.venue in t.organizationOf && t.organizationOf[r.venue] == t.organizationOf[c.venue]
    && now < r.endsAt && now < c.endsAt
  }

  /** Two class sessions likewise. */
  ghost predicate SessionsClash(t: Tables, a: Session, b: Session, now: Instant) {
    && a in t.sessions && b in t.sessions && a != b && a.status == SCHEDULED && b.status == SCHEDULED
    && a.staff.Some? && b.staff == a.staff && a.startsAt < b.endsAt && b.startsAt < a.endsAt
    && a.venue in t.organizationOf && b.venue in t.organizationOf && t.organizationOf[a.venue] == t.organizationOf[b.venue]
    && now < a.endsAt && now < b.endsAt
  }

  /** Whoever is booked and not through with it at `now` is staff of the venue. */
  ghost predicate StaffIsOfVenue(t: Tables, now: Instant) {
    && (forall r | r in t.reservations && r.staff.Some? && now < r.endsAt ::
          r.status == PENDING || r.status == CONFIRMED || r.status == CHECKED_IN ==> (r.staff.value, r.venue) in t.staffVenues)
    && (forall c | c in t.sessions && c.staff.Some? && now < c.endsAt ::
          c.status == SCHEDULED ==> (c.staff.value, c.venue) in t.staffVenues)
  }

  /** The first of the listed products leads. */
  ghost predicate LeadProductIsFirst(t: Tables, now: Instant) {
    forall r :: r in t.reservations && (r.status == PENDING || r.status == CONFIRMED) && now < r.endsAt && r.products != []
      ==> r.product.Some? && r.product.value == r.products[0]
  }

  /** The state that the rollout needs, at `now`. */
  ghost predicate IsReady(t: Tables, now: Instant) {
    && (forall a, b :: !ReservationsClash(t, a, b, now))
    && (forall r, c :: !ReservationMeetsSession(t, r, c, now))
    && (forall a, b :: !SessionsClash(t, a, b, now))
    && StaffIsOfVenue(t, now) && LeadProductIsFirst(t, now)
  }

  /** No test of a row reads the clock later than `end`. */
  ghost predicate IsOver(clocks: seq<Clock>, end: Instant) {
    && |clocks| == |CATEGORIES|
    && forall k, row, beside, left :: 0 <= k < |clocks| ==> clocks[k](row, beside, left) <= end
  }

  /** No test of a row reads the clock earlier than `begin`. */
  ghost predicate HasBegun(clocks: seq<Clock>, begin: Instant) {
    && |clocks| == |CATEGORIES|
    && forall k, row, beside, left :: 0 <= k < |clocks| ==> begin <= clocks[k](row, beside, left)
  }

  /** The categories one by one. */
  lemma AllClearOneByOne(t: Tables, clocks: seq<Clock>)
    requires |clocks| == |CATEGORIES|
    ensures AllClear(t, clocks)
       <==> && ReservationsWithoutStaffVenue(t, clocks[0]) == {} && SessionsWithoutStaffVenue(t, clocks[1]) == {}
            && ReservationOverlaps(t, clocks[2]) == {} && MixedOverlaps(t, clocks[3]) == {}
            && SessionOverlaps(t, clocks[4]) == {} && LeadProductMismatches(t, clocks[5]) == {}
  {
    assert AllClear(t, clocks) ==> forall k :: 0 <= k < 6 ==> RowCount(CATEGORIES[k], t, clocks[k]) == 0;
  }

  /** A clash that lasts beyond the readings of the clock is a row. */
  lemma ClashIsRow(t: Tables, clock: Clock, end: Instant, a: Reservation, b: Reservation)
    requires HasKeys(t) && ReservationsClash(t, a, b, end)
    requires forall row, beside, left :: clock(row, beside, left) <= end
    ensures ReservationOverlaps(t, clock) != {}
  {
    LessTotal(a.id, b.id);
    assert (a, b) in ReservationOverlaps(t, clock) || (b, a) in ReservationOverlaps(t, clock);
  }

  lemma MeetingIsRow(t: Tables, clock: Clock, end: Instant, r: Reservation, c: Session)
    requires ReservationMeetsSession(t, r, c, end)
    requires forall row, beside, left :: clock(row, beside, left) <= end
    ensures MixedOverlaps(t, clock) != {}
  {
    assert (r, c) in MixedOverlaps(t, clock);
  }

  lemma SessionClashIsRow(t: Tables, clock: Clock, end: Instant, a: Session, b: Session)
    requires HasKeys(t) && SessionsClash(t, a, b, end)
    requires forall row, beside, left :: clock(row, beside, left) <= end
    ensures SessionOverlaps(t, clock) != {}
  {
    LessTotal(a.id, b.id);
    assert (a, b) in SessionOverlaps(t, clock) || (b, a) in SessionOverlaps(t, clock);
  }

  lemma EmptyMeansStaffed(t: Tables, clock: Clock, clock': Clock, end: Instant)
    requires forall row, beside, left :: clock(row, beside, left) <= end && clock'(row, beside, left) <= end
    requires ReservationsWithoutStaffVenue(t, clock) == {} && SessionsWithoutStaffVenue(t, clock') == {}
    ensures StaffIsOfVenue(t, end)
  {
    forall r | r in t.reservations && r.staff.Some? && end < r.endsAt
      ensures r.status == PENDING || r.status == CONFIRMED || r.status == CHECKED_IN ==> (r.staff.value, r.venue) in t.staffVenues
    {
      assert r !in ReservationsWithoutStaffVenue(t, clock);
    }
    forall c | c in t.sessions && c.staff.Some? && end < c.endsAt
      ensures c.status == SCHEDULED ==> (c.staff.value, c.venue) in t.staffVenues
    {
      assert c !in SessionsWithoutStaffVenue(t, clock');
    }
  }

  lemma EmptyMeansLeading(t: Tables, clock: Clock, end: Instant)
    requires forall row, beside, left :: clock(row, beside, left) <= end
    requires LeadProductMismatches(t, clock) == {}
    ensures LeadProductIsFirst(t, end)
  {
    forall r | r in t.reservations && (r.status == PENDING || r.status == CONFIRMED) && end < r.endsAt && r.products != []
      ensures r.product.Some? && r.product.value == r.products[0]
    {
      assert r !in LeadProductMismatches(t, clock);
    }
  }

  /** Exit code zero: the tables are ready when the run is over. */
  lemma AllClearMeansReady(t: Tables, clocks: seq<Clock>, end: Instant)
    requires HasKeys(t) && IsOver(clocks, end) && AllClear(t, clocks)
    ensures IsReady(t, end)
  {
    AllClearOneByOne(t, clocks);
    forall a, b | ReservationsClash(t, a, b, end) ensures false {
      ClashIsRow(t, clocks[2], end, a, b);
    }
    forall r, c | ReservationMeetsSession(t, r, c, end) ensures false {
      MeetingIsRow(t, clocks[3], end, r, c);
    }
    forall a, b | SessionsClash(t, a, b, end) ensures false {
      SessionClashIsRow(t, clocks[4], end, a, b);
    }
    EmptyMeansStaffed(t, clocks[0], clocks[1], end);
    EmptyMeansLeading(t, clocks[5], end);
  }

  lemma RowIsClash(t: Tables, clock: Clock, begin: Instant, p: (Reservation, Reservation))
    requires p in ReservationOverlaps(t, clock) && forall row, beside, left :: begin <= clock(row, beside, left)
    ensures ReservationsClash(t, p.0, p.1, begin)
  {
    LessTotal(p.0.id, p.1.id);
  }

  lemma SessionRowIsClash(t: Tables, clock: Clock, begin: Instant, p: (Session, Session))
    requires p in SessionOverlaps(t, clock) && forall row, beside, left :: begin <= clock(row, beside, left)
    ensures SessionsClash(t, p.0, p.1, begin)
  {
    LessTotal(p.0.id, p.1.id);
  }

  lemma ReadyMeansNoOverlapRows(t: Tables, pairs: Clock, mixed: Clock, sessions: Clock, begin: Instant)
    requires IsReady(t, begin)
    requires forall row, beside, left :: begin <= pairs(row, beside, left) && begin <= mixed(row, beside, left) && begin <= sessions(row, beside, left)
    ensures ReservationOverlaps(t, pairs) == {} && MixedOverlaps(t, mixed) == {} && SessionOverlaps(t, sessions) == {}
  {
    forall p | p in ReservationOverlaps(t, pairs) ensures false {
      RowIsClash(t, pairs, begin, p);
    }
    forall p | p in MixedOverlaps(t, mixed) ensures false {
      assert ReservationMeetsSession(t, p.0, p.1, begin);
    }
    forall p | p in SessionOverlaps(t, sessions) ensures false {
      SessionRowIsClash(t, sessions, begin, p);
    }
  }

  /** Conversely, tables that are ready when the run begins give exit code zero. */
  lemma ReadyMeansAllClear(t: Tables, clocks: seq<Clock>, begin: Instant)
    requires HasBegun(clocks, begin) && IsReady(t, begin)
    ensures AllClear(t, clocks)
  {
    AllClearOneByOne(t, clocks);
    ReadyMeansNoOverlapRows(t, clocks[2], clocks[3], clocks[4], begin);
    assert forall r :: r !in ReservationsWithoutStaffVenue(t, clocks[0]);
    assert forall c :: c !in SessionsWithoutStaffVenue(t, clocks[1]);
    assert forall r :: r !in LeadProductMismatches(t, clocks[5]);
  }

  /** The queries run one after the other. */
  method RunPreflight(t: Tables, clocks: seq<Clock>) returns (exitCode: int, counts: map<Category, nat>)
    requires |clocks| == |CATEGORIES|
    ensures exitCode == 0 || exitCode == 1
    ensures exitCode == 0 <==> AllClear(t, clocks)
    ensures forall end :: HasKeys(t) && IsOver(clocks, end) && exitCode == 0 ==> IsReady(t, end)
    ensures forall begin :: HasBegun(clocks, begin) && IsReady(t, begin) ==> exitCode == 0
    ensures forall k :: 0 <= k < |CATEGORIES| ==> CATEGORIES[k] in counts && counts[CATEGORIES[k]] == RowCount(CATEGORIES[k], t, clocks[k])
  {
    counts := map[];
    var hasViolations := false;
    for k := 0 to |CATEGORIES|
      invariant hasViolations <==> exists i :: 0 <= i < k && RowCount(CATEGORIES[i], t, clocks[i]) > 0
      invariant forall i :: 0 <= i < k ==> CATEGORIES[i] in counts && counts[CATEGORIES[i]] == RowCount(CATEGORIES[i], t, clocks[i])
    {
      var count := RowCount(CATEGORIES[k], t, clocks[k]);
      counts := counts[CATEGORIES[k] := count];
      hasViolations := hasViolations || count > 0;
    }
    exitCode := if hasViolations then 1 else 0;
    forall end | HasKeys(t) && IsOver(clocks, end) && exitCode == 0 ensures IsReady(t, end) {
      AllClearMeansReady(t, clocks, end);
    }
    forall begin | HasBegun(clocks, begin) && IsReady(t, begin) ensures exitCode == 0 {
      ReadyMeansAllClear(t, clocks, begin);
    }
  }

  // ----- Bookings: what a person is booked for -----

  datatype Kind = ForReservation | ForSession

  datatype Booking = Booking(kind: Kind, id: Id, start: Instant, end: Instant)

  function BookingOf(r: Reservation): Booking { Booking(ForReservation, r.id, r.startsAt, r.endsAt) }

  function SessionBooking(c: Session): Booking { Booking(ForSession, c.id, c.startsAt, c.endsAt) }

  predicate IsAt(t: Tables, venue: Id, organization: Id) {
    venue in t.organizationOf && t.organizationOf[venue] == organization
  }

  /** The open bookings of one person within one organisation. */
  function BookingsOf(t: Tables, staff: Id, organization: Id, now: Instant): set<Booking> {
    (set r | r in t.reservations && IsOpenReservation(r, now) && r.staff.value == staff && IsAt(t, r.venue, organization) :: BookingOf(r))
    + (set c | c in t.sessions && IsOpenSession(c, now) && c.staff.value == staff && IsAt(t, c.venue, organization) :: SessionBooking(c))
  }

  predicate Overlap(a: Booking, b: Booking) {
    a.start < b.end && a.end > b.start
  }

  ghost predicate NoneOverlap(bookings: set<Booking>) {
    forall a, b :: a in bookings && b in bookings && a != b ==> !Overlap(a, b)
  }

  /** Nobody is double-booked within an organisation. */
  ghost predicate NobodyDoubleBooked(t: Tables, now: Instant) {
    forall staff, organization :: NoneOverlap(BookingsOf(t, staff, organization, now))
  }

  ghost predicate OverlapQueriesEmpty(t: Tables, now: Instant) {
    ReservationOverlaps(t, Still(now)) == {} && MixedOverlaps(t, Still(now)) == {} && SessionOverlaps(t, Still(now)) == {}
  }

  // ----- The three overlap queries are empty iff nobody is double-booked -----

  lemma ReservationPairFound(t: Tables, now: Instant, a: Reservation, b: Reservation)
    requires HasKeys(t) && a in t.reservations && b in t.reservations && a != b
    requires IsOpenReservation(a, now) && IsOpenReservation(b, now) && a.staff == b.staff
    requires SameOrganization(t, a.venue, b.venue) && Overlap(BookingOf(a), BookingOf(b))
    ensures (a, b) in ReservationOverlaps(t, Still(now)) || (b, a) in ReservationOverlaps(t, Still(now))
  {
    LessTotal(a.id, b.id);
  }

  lemma SessionPairFound(t: Tables, now: Instant, a: Session, b: Session)
    requires HasKeys(t) && a in t.sessions && b in t.sessions && a != b
    requires IsOpenSession(a, now) && IsOpenSession(b, now) && a.staff == b.staff
    requires SameOrganization(t, a.venue, b.venue) && Overlap(SessionBooking(a), SessionBooking(b))
    ensures (a, b) in SessionOverlaps(t, Still(now)) || (b, a) in SessionOverlaps(t, Still(now))
  {
    LessTotal(a.id, b.id);
  }

  lemma MixedPairFound(t: Tables, now: Instant, r: Reservation, c: Session)
    requires r in t.reservations && c in t.sessions
    requires IsOpenReservation(r, now) && IsOpenSession(c, now) && r.staff == c.staff
    requires SameOrganization(t, r.venue, c.venue) && Overlap(BookingOf(r), SessionBooking(c))
    ensures (r, c) in MixedOverlaps(t, Still(now))
  {
  }

  lemma EmptyQueriesClear(t: Tables, now: Instant, staff: Id, organization: Id, x: Booking, y: Booking)
    requires HasKeys(t) && OverlapQueriesEmpty(t, now)
    requires x in BookingsOf(t, staff, organization, now) && y in BookingsOf(t, staff, organization, now) && x != y
    ensures !Overlap(x, y)
  {
    if Overlap(x, y) {
      if x.kind == ForReservation && y.kind == ForReservation {
        var a :| a in t.reservations && IsOpenReservation(a, now) && a.staff.value == staff && IsAt(t, a.venue, organization) && BookingOf(a) == x;
        var b :| b in t.reservations && IsOpenReservation(b, now) && b.staff.value == staff && IsAt(t, b.venue, organization) && BookingOf(b) == y;
        ReservationPairFound(t, now, a, b);
      } else if x.kind == ForSession && y.kind == ForSession {
        var a :| a in t.sessions && IsOpenSession(a, now) && a.staff.value == staff && IsAt(t, a.venue, organization) && SessionBooking(a) == x;
        var b :| b in t.sessions && IsOpenSession(b, now) && b.staff.value == staff && IsAt(t, b.venue, organization) && SessionBooking(b) == y;
        SessionPairFound(t, now, a, b);
      } else {
        var p, q := if x.kind == ForReservation then x else y, if x.kind == ForReservation then y else x;
        var r :| r in t.reservations && IsOpenReservation(r, now) && r.staff.value == staff && IsAt(t, r.venue, organization) && BookingOf(r) == p;
        var c :| c in t.sessions && IsOpenSession(c, now) && c.staff.value == staff && IsAt(t, c.venue, organization) && SessionBooking(c) == q;
        MixedPairFound(t, now, r, c);
      }
    }
  }

  lemma ReservationOverlapIsDoubleBooking(t: Tables, now: Instant, a: Reservation, b: Reservation)
    requires (a, b) in ReservationOverlaps(t, Still(now))
    ensures !NobodyDoubleBooked(t, now)
  {
    var staff, organization := a.staff.value, t.organizationOf[a.venue];
    var bookings := BookingsOf(t, staff, organization, now);
    LessTotal(a.id, b.id);
    assert BookingOf(a) in bookings && BookingOf(b) in bookings;
    assert !NoneOverlap(bookings);
  }

  lemma SessionOverlapIsDoubleBooking(t: Tables, now: Instant, a: Session, b: Session)
    requires (a, b) in SessionOverlaps(t, Still(now))
    ensures !NobodyDoubleBooked(t, now)
  {
    var staff, organization := a.staff.value, t.organizationOf[a.venue];
    var bookings := BookingsOf(t, staff, organization, now);
    LessTotal(a.id, b.id);
    assert SessionBooking(a) in bookings && SessionBooking(b) in bookings;
    assert !NoneOverlap(bookings);
  }

  lemma MixedOverlapIsDoubleBooking(t: Tables, now: Instant, r: Reservation, c: Session)
    requires (r, c) in MixedOverlaps(t, Still(now))
    ensures !NobodyDoubleBooked(t, now)
  {
    var staff, organization := r.staff.value, t.organizationOf[r.venue];
    var bookings := BookingsOf(t, staff, organization, now);
    assert BookingOf(r) in bookings && SessionBooking(c) in bookings;
    assert !NoneOverlap(bookings);
  }

  /** At one instant, the three overlap queries return nothing iff nobody is double-booked. */
  lemma OverlapQueriesExact(t: Tables, now: Instant)
    requires HasKeys(t)
    ensures OverlapQueriesEmpty(t, now) <==> NobodyDoubleBooked(t, now)
  {
    if OverlapQueriesEmpty(t, now) {
      forall staff, organization ensures NoneOverlap(BookingsOf(t, staff, organization, now)) {
        forall x, y | x in BookingsOf(t, staff, organization, now) && y in BookingsOf(t, staff, organization, now) && x != y
          ensures !Overlap(x, y)
        {
          EmptyQueriesClear(t, now, staff, organization, x, y);
        }
      }
    } else if ReservationOverlaps(t, Still(now)) != {} {
      var p :| p in ReservationOverlaps(t, Still(now));
      ReservationOverlapIsDoubleBooking(t, now, p.0, p.1);
    } else if MixedOverlaps(t, Still(now)) != {} {
      var p :| p in MixedOverlaps(t, Still(now));
      MixedOverlapIsDoubleBooking(t, now, p.0, p.1);
    } else {
      var p :| p in SessionOverlaps(t, Still(now));
      SessionOverlapIsDoubleBooking(t, now, p.0, p.1);
    }
  }
}
