/**
 What the exit code of the rollout gate promises about people's time, and what the counts count.
 */
module PreflightMeaning {
  import opened TextOrder
  import opened Preflight

  // ----- The exit code -----

  /** What is still open at the end was open before. */
  lemma LaterFindsLess(t: Tables, clock: Clock, end: Instant)
    requires forall row, beside, left :: clock(row, beside, left) <= end
    ensures ReservationOverlaps(t, Still(end)) <= ReservationOverlaps(t, clock)
    ensures MixedOverlaps(t, Still(end)) <= MixedOverlaps(t, clock)
    ensures SessionOverlaps(t, Still(end)) <= SessionOverlaps(t, clock)
  {
  }

  /** Exit code zero: within every organisation, nobody's still open bookings overlap. */
  lemma ExitZeroMeansNoDoubleBooking(t: Tables, clocks: seq<Clock>, end: Instant)
    requires HasKeys(t) && IsOver(clocks, end) && AllClear(t, clocks)
    ensures NobodyDoubleBooked(t, end)
  {
    AllClearOneByOne(t, clocks);
    LaterFindsLess(t, clocks[2], end);
    LaterFindsLess(t, clocks[3], end);
    LaterFindsLess(t, clocks[4], end);
    OverlapQueriesExact(t, end);
  }

  /** Conversely, one double booking that is open to the end of the run forces exit code one. */
  lemma DoubleBookingForcesExitOne(t: Tables, clocks: seq<Clock>, end: Instant)
    requires HasKeys(t) && IsOver(clocks, end) && !NobodyDoubleBooked(t, end)
    ensures !AllClear(t, clocks)
  {
    if AllClear(t, clocks) {
      ExitZeroMeansNoDoubleBooking(t, clocks, end);
    }
  }

  function StillClocks(now: Instant): seq<Clock> {
    [Still(now), Still(now), Still(now), Still(now), Still(now), Still(now)]
  }

  /** With the clock standing still, the gate is exact. */
  lemma AllClearIff(t: Tables, now: Instant)
    requires HasKeys(t)
    ensures AllClear(t, StillClocks(now)) <==> IsReady(t, now)
  {
    if AllClear(t, StillClocks(now)) {
      AllClearMeansReady(t, StillClocks(now), now);
    }
    if IsReady(t, now) {
      ReadyMeansAllClear(t, StillClocks(now), now);
    }
  }

  /** A reservation at a venue of an organisation is among its person's open bookings iff it is live and not over. */
  lemma ReservationIsBooked(t: Tables, r: Reservation, now: Instant)
    requires HasKeys(t) && r in t.reservations && r.staff.Some? && r.venue in t.organizationOf
    ensures Booking(ForReservation, r.id, r.startsAt, r.endsAt) in BookingsOf(t, r.staff.value, t.organizationOf[r.venue], now)
       <==> (r.status == PENDING || r.status == CONFIRMED || r.status == CHECKED_IN) && now < r.endsAt
  {
  }

  lemma SessionIsBooked(t: Tables, c: Session, now: Instant)
    requires HasKeys(t) && c in t.sessions && c.staff.Some? && c.venue in t.organizationOf
    ensures Booking(ForSession, c.id, c.startsAt, c.endsAt) in BookingsOf(t, c.staff.value, t.organizationOf[c.venue], now)
       <==> c.status == SCHEDULED && now < c.endsAt
  {
  }

  // ----- Counting pairs -----

  /** The overlapping open pairs, without order. */
  ghost function UnorderedReservationOverlaps(t: Tables, now: Instant): set<set<Reservation>> {
    set a, b | a in t.reservations && b in t.reservations && ReservationsClash(t, a, b, now) :: {a, b}
  }

  ghost function UnorderedSessionOverlaps(t: Tables, now: Instant): set<set<Session>> {
    set a, b | a in t.sessions && b in t.sessions && SessionsClash(t, a, b, now) :: {a, b}
  }

  ghost function Unordered<T>(pairs: set<(T, T)>): set<set<T>> {
    set p | p in pairs :: {p.0, p.1}
  }

  /** No pair occurs in both orders. */
  ghost predicate IsOriented<T>(pairs: set<(T, T)>) {
    forall p :: p in pairs ==> p.0 != p.1 && (p.1, p.0) !in pairs
  }

  lemma SameSetSamePair<T>(p: (T, T), q: (T, T))
    requires {q.0, q.1} == {p.0, p.1}
    ensures q == p || q == (p.1, p.0)
  {
    assert q.0 in {p.0, p.1} && q.1 in {p.0, p.1};
    assert p.0 in {q.0, q.1} && p.1 in {q.0, q.1};
  }

  lemma {:induction false} OrientedPairsCountOnce<T>(pairs: set<(T, T)>)
    requires IsOriented(pairs)
    ensures |Unordered(pairs)| == |pairs|
    decreases |pairs|
  {
    if pairs == {} {
    } else {
      var p :| p in pairs;
      var rest := pairs - {p};
      OrientedPairsCountOnce(rest);
      forall q | q in rest ensures {q.0, q.1} != {p.0, p.1} {
        if {q.0, q.1} == {p.0, p.1} {
          SameSetSamePair(p, q);
        }
      }
      assert Unordered(pairs) == Unordered(rest) + {{p.0, p.1}};
    }
  }

  lemma ReservationPairIsUnordered(t: Tables, now: Instant, p: set<Reservation>)
    requires HasKeys(t) && p in UnorderedReservationOverlaps(t, now)
    ensures p in Unordered(ReservationOverlaps(t, Still(now)))
  {
    var a, b :| a in t.reservations && b in t.reservations && ReservationsClash(t, a, b, now) && p == {a, b};
    ReservationPairFound(t, now, a, b);
    assert {a, b} == {b, a};
  }

  lemma ReservationOverlapIsOriented(t: Tables, now: Instant, p: (Reservation, Reservation))
    requires p in ReservationOverlaps(t, Still(now))
    ensures p.0 != p.1 && (p.1, p.0) !in ReservationOverlaps(t, Still(now))
    ensures {p.0, p.1} in UnorderedReservationOverlaps(t, now)
  {
    LessTotal(p.0.id, p.1.id);
  }

  /** The count of overlapping reservations counts every unordered pair once. */
  lemma ReservationPairsCountedOnce(t: Tables, now: Instant)
    requires HasKeys(t)
    ensures |ReservationOverlaps(t, Still(now))| == |UnorderedReservationOverlaps(t, now)|
  {
    var pairs := ReservationOverlaps(t, Still(now));
    forall p | p in pairs ensures p.0 != p.1 && (p.1, p.0) !in pairs && {p.0, p.1} in UnorderedReservationOverlaps(t, now) {
      ReservationOverlapIsOriented(t, now, p);
    }
    OrientedPairsCountOnce(pairs);
    forall s | s in UnorderedReservationOverlaps(t, now) ensures s in Unordered(pairs) {
      ReservationPairIsUnordered(t, now, s);
    }
    assert Unordered(pairs) == UnorderedReservationOverlaps(t, now);
  }

  lemma SessionPairIsUnordered(t: Tables, now: Instant, p: set<Session>)
    requires HasKeys(t) && p in UnorderedSessionOverlaps(t, now)
    ensures p in Unordered(SessionOverlaps(t, Still(now)))
  {
    var a, b :| a in t.sessions && b in t.sessions && SessionsClash(t, a, b, now) && p == {a, b};
    SessionPairFound(t, now, a, b);
    assert {a, b} == {b, a};
  }

  lemma SessionOverlapIsOriented(t: Tables, now: Instant, p: (Session, Session))
    requires p in SessionOverlaps(t, Still(now))
    ensures p.0 != p.1 && (p.1, p.0) !in SessionOverlaps(t, Still(now))
    ensures {p.0, p.1} in UnorderedSessionOverlaps(t, now)
  {
    LessTotal(p.0.id, p.1.id);
  }

  /** Likewise for class sessions. */
  lemma SessionPairsCountedOnce(t: Tables, now: Instant)
    requires HasKeys(t)
    ensures |SessionOverlaps(t, Still(now))| == |UnorderedSessionOverlaps(t, now)|
  {
    var pairs := SessionOverlaps(t, Still(now));
    forall p | p in pairs ensures p.0 != p.1 && (p.1, p.0) !in pairs && {p.0, p.1} in UnorderedSessionOverlaps(t, now) {
      SessionOverlapIsOriented(t, now, p);
    }
    OrientedPairsCountOnce(pairs);
    forall s | s in UnorderedSessionOverlaps(t, now) ensures s in Unordered(pairs) {
      SessionPairIsUnordered(t, now, s);
    }
    assert Unordered(pairs) == UnorderedSessionOverlaps(t, now);
  }

  // ----- One thing at a time -----

  predicate IsRunning(b: Booking, at: Instant) {
    b.start <= at < b.end
  }

  /** Every booking of the person in the organisation, over or not. */
  ghost predicate IsLiveBooking(t: Tables, staff: Id, organization: Id, b: Booking) {
    exists past :: b in BookingsOf(t, staff, organization, past)
  }

  lemma RunningLaterIsOpen(t: Tables, staff: Id, organization: Id, b: Booking, now: Instant, at: Instant)
    requires IsLiveBooking(t, staff, organization, b) && IsRunning(b, at) && now <= at
    ensures b in BookingsOf(t, staff, organization, now)
  {
  }

  /** After exit code zero, at any instant from the end of the run on, at most one live booking of a person is running. */
  lemma AtMostOneRunning(t: Tables, clocks: seq<Clock>, end: Instant, staff: Id, organization: Id, a: Booking, b: Booking, at: Instant)
    requires HasKeys(t) && IsOver(clocks, end) && AllClear(t, clocks) && end <= at
    requires IsLiveBooking(t, staff, organization, a) && IsLiveBooking(t, staff, organization, b)
    requires IsRunning(a, at) && IsRunning(b, at)
    ensures a == b
  {
    ExitZeroMeansNoDoubleBooking(t, clocks, end);
    RunningLaterIsOpen(t, staff, organization, a, end, at);
    RunningLaterIsOpen(t, staff, organization, b, end, at);
    assert NoneOverlap(BookingsOf(t, staff, organization, end));
  }

  // ----- The time adds up -----

  function TotalDuration(bookings: seq<Booking>): int {
    if bookings == [] then 0 else bookings[0].end - bookings[0].start + TotalDuration(bookings[1..])
  }

  ghost predicate IsSchedule(bookings: seq<Booking>) {
    && (forall k :: 0 <= k < |bookings| ==> bookings[k].start <= bookings[k].end)
    && (forall i, j :: 0 <= i < |bookings| && 0 <= j < |bookings| && i != j ==> !Overlap(bookings[i], bookings[j]))
  }

  function Without(bookings: seq<Booking>, k: nat): seq<Booking>
    requires k < |bookings|
  {
    bookings[..k] + bookings[k + 1..]
  }

  lemma {:induction false} DurationWithout(bookings: seq<Booking>, k: nat)
    requires k < |bookings|
    ensures TotalDuration(bookings)
         == TotalDuration(Without(bookings, k)) + bookings[k].end - bookings[k].start
    decreases k
  {
    if k == 0 {
      assert Without(bookings, 0) == bookings[1..];
    } else {
      DurationWithout(bookings[1..], k - 1);
      assert Without(bookings, k)[0] == bookings[0];
      assert Without(bookings, k)[1..] == Without(bookings[1..], k - 1);
    }
  }

  ghost predicate StartsLast(bookings: seq<Booking>, k: nat) {
    k < |bookings| && forall i :: 0 <= i < |bookings| ==> bookings[i].start <= bookings[k].start
  }

  lemma {:induction false} LatestStart(bookings: seq<Booking>)
    requires bookings != []
    ensures exists k: nat :: StartsLast(bookings, k)
    decreases |bookings|
  {
    if |bookings| == 1 {
      assert StartsLast(bookings, 0);
    } else {
      var rest := bookings[1..];
      LatestStart(rest);
      var j: nat :| StartsLast(rest, j);
      var k := if rest[j].start >= bookings[0].start then j + 1 else 0;
      forall i | 0 <= i < |bookings| ensures bookings[i].start <= bookings[k].start {
        assert i > 0 ==> bookings[i] == rest[i - 1];
      }
      assert StartsLast(bookings, k);
    }
  }

  /** Bookings that do not overlap fit, one after the other, between the earliest start and the latest end. */
  lemma {:induction false} ScheduleFits(bookings: seq<Booking>, earliest: Instant, latest: Instant)
    requires IsSchedule(bookings) && earliest <= latest
    requires forall k :: 0 <= k < |bookings| ==> earliest <= bookings[k].start && bookings[k].end <= latest
    ensures TotalDuration(bookings) <= latest - earliest
    decreases |bookings|
  {
    if bookings == [] {
    } else {
      LatestStart(bookings);
      var k: nat :| StartsLast(bookings, k);
      var last, rest := bookings[k], Without(bookings, k);
      DurationWithout(bookings, k);
      forall i | 0 <= i < |rest|
        ensures rest[i].start <= last.start && earliest <= rest[i].start <= rest[i].end <= latest && !Overlap(rest[i], last)
      {
        assert rest[i] == bookings[if i < k then i else i + 1];
      }
      if last.start == last.end {
        ScheduleFits(rest, earliest, latest);
      } else {
        ScheduleFits(rest, earliest, last.start);
      }
    }
  }

  /** After exit code zero, a person's open bookings within one organisation fit between the earliest start and the latest end. */
  lemma {:induction false} OpenBookingsFit(t: Tables, clocks: seq<Clock>, end: Instant, staff: Id, organization: Id,
                                           bookings: seq<Booking>, earliest: Instant, latest: Instant)
    requires HasKeys(t) && IsOver(clocks, end) && AllClear(t, clocks) && earliest <= latest
    requires forall i, j :: 0 <= i < j < |bookings| ==> bookings[i] != bookings[j]
    requires forall k :: 0 <= k < |bookings| ==> bookings[k] in BookingsOf(t, staff, organization, end)
    requires forall k :: 0 <= k < |bookings| ==> earliest <= bookings[k].start <= bookings[k].end <= latest
    ensures TotalDuration(bookings) <= latest - earliest
  {
    ExitZeroMeansNoDoubleBooking(t, clocks, end);
    assert NoneOverlap(BookingsOf(t, staff, organization, end));
    ScheduleFits(bookings, earliest, latest);
  }
}
