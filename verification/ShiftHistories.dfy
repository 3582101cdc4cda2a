/**
 The shift-total backfill over whole histories: runs with any cutoffs, refunds arriving in
 between, and other services changing totals.  Every refund is taken off its shift exactly once.
 */
module ShiftHistories {
  import opened ShiftBackfill

  // ----- Markers -----

  lemma MarkedIsMarked(p: Payment)
    ensures IsMarked(Marked(p))
    ensures forall s :: Takes(Marked(p), s) == Takes(p, s)
  {
  }

  // ----- Histories -----

  datatype Event =
    | Run(cutoff: Instant)
    | Arrive(payment: Payment)
    | Adjust(shift: ShiftId, amount: int)
    | OpenShift(shift: ShiftId)

  /** One event; other services only change totals and open shifts. */
  function Step(books: Books, e: Event): Books {
    match e
    case Run(cutoff) => Executed(books, cutoff)
    case Arrive(payment) => books.(payments := books.payments + [payment])
    case Adjust(shift, amount) => if shift in books.totals then books.(totals := books.totals[shift := books.totals[shift] + amount]) else books
    case OpenShift(shift) => if shift in books.totals then books else books.(totals := books.totals[shift := 0])
  }

  function After(books: Books, history: seq<Event>): Books {
    if history == [] then books else Step(After(books, history[..|history| - 1]), history[|history| - 1])
  }

  /** The payments of a history as they first were: those of the start, then those that arrived. */
  function AsArrived(books: Books, history: seq<Event>): seq<Payment> {
    if history == [] then books.payments
    else
      var e := history[|history| - 1];
      AsArrived(books, history[..|history| - 1]) + if e.Arrive? then [e.payment] else []
  }

  /** What other services added to the total of a shift. */
  function Adjusted(history: seq<Event>, shift: ShiftId): int {
    if history == [] then 0
    else
      var e := history[|history| - 1];
      Adjusted(history[..|history| - 1], shift) + if e.Adjust? && e.shift == shift then e.amount else 0
  }

  /** The amounts of the shift's payments that have changed. */
  function NewlyMarked(before: seq<Payment>, now: seq<Payment>, shift: ShiftId): nat
    requires |now| == |before|
  {
    if before == [] then 0
    else
      var n := |before| - 1;
      NewlyMarked(before[..n], now[..n], shift) + if now[n] != before[n] then Takes(before[n], shift) else 0
  }

  /** Rows as they arrived, some of them marked since. */
  ghost predicate IsMarkedVersion(before: seq<Payment>, now: seq<Payment>) {
    && |now| == |before|
    && forall k :: 0 <= k < |before| ==> now[k] == before[k] || (!IsMarked(before[k]) && now[k] == Marked(before[k]))
  }

  lemma {:induction false} RunTakes(before: seq<Payment>, now: seq<Payment>, cutoff: Instant, shift: ShiftId)
    requires IsMarkedVersion(before, now)
    ensures NewlyMarked(before, MarkEligible(now, cutoff), shift)
         == NewlyMarked(before, now, shift) + TakenFrom(Eligible(now, cutoff), shift)
    decreases |before|
  {
    if before == [] {
    } else {
      var n := |before| - 1;
      RunTakes(before[..n], now[..n], cutoff, shift);
      assert MarkEligible(now, cutoff)[..n] == MarkEligible(now[..n], cutoff);
      MarkedIsMarked(now[n]);
      MarkedIsMarked(before[n]);
      EligibleStep(now, cutoff, shift);
    }
  }

  /** Where the accounts stand after a history. */
  ghost predicate IsAccounted(books: Books, history: seq<Event>, shift: ShiftId)
    requires shift in books.totals
  {
    && IsMarkedVersion(AsArrived(books, history), After(books, history).payments)
    && shift in After(books, history).totals
    && After(books, history).totals[shift]
       == books.totals[shift] + Adjusted(history, shift) - NewlyMarked(AsArrived(books, history), After(books, history).payments, shift)
  }

  lemma {:induction false} NothingMarkedYet(payments: seq<Payment>, shift: ShiftId)
    ensures NewlyMarked(payments, payments, shift) == 0
    decreases |payments|
  {
    if payments == [] {
    } else {
      NothingMarkedYet(payments[..|payments| - 1], shift);
    }
  }

  /** The run that is event `i` of the history finds row `k` there, and older than its cutoff. */
  ghost predicate RunsOver(books: Books, history: seq<Event>, i: nat, k: nat, createdAt: Instant) {
    i < |history| && history[i].Run? && createdAt < history[i].cutoff && k < |AsArrived(books, history[..i])|
  }

  /** A row has changed iff it arrived as a refund with a shift and without the marker, and a run came over it. */
  ghost predicate ChangedIffRunOver(books: Books, history: seq<Event>, k: nat) {
    var arrived, now := AsArrived(books, history), After(books, history).payments;
    k < |arrived| && |now| == |arrived| ==>
      (now[k] != arrived[k]
       <==> && arrived[k].isRefund && arrived[k].shift.Some? && !CarriesMarker(arrived[k])
            && exists i: nat :: RunsOver(books, history, i, k, arrived[k].createdAt))
  }

  lemma {:induction false} RowsStay(books: Books, history: seq<Event>, i: nat)
    requires i <= |history|
    ensures |After(books, history).payments| == |AsArrived(books, history)|
    ensures |AsArrived(books, history[..i])| <= |AsArrived(books, history)|
    decreases |history|
  {
    if i == |history| {
      assert history[..i] == history;
    }
    if history == [] {
    } else {
      var earlier := history[..|history| - 1];
      RowsStay(books, earlier, if i < |history| then i else |earlier|);
      assert i < |history| ==> earlier[..i] == history[..i];
    }
  }

  /** One more event: a run of it may be the one that comes over the row. */
  lemma RunsOverLater(books: Books, earlier: seq<Event>, e: Event, k: nat, createdAt: Instant)
    ensures (exists i: nat :: RunsOver(books, earlier + [e], i, k, createdAt))
       <==> || (exists i: nat :: RunsOver(books, earlier, i, k, createdAt))
            || (e.Run? && createdAt < e.cutoff && k < |AsArrived(books, earlier)|)
  {
    var history := earlier + [e];
    forall i: nat | i <= |earlier| ensures history[..i] == earlier[..i] {
    }
    assert earlier[..|earlier|] == earlier;
    if i: nat :| RunsOver(books, earlier, i, k, createdAt) {
      assert RunsOver(books, history, i, k, createdAt);
    }
    if e.Run? && createdAt < e.cutoff && k < |AsArrived(books, earlier)| {
      assert RunsOver(books, history, |earlier|, k, createdAt);
    }
    if i: nat :| RunsOver(books, history, i, k, createdAt) {
      assert i < |earlier| ==> RunsOver(books, earlier, i, k, createdAt);
    }
  }

  lemma JustArrived(books: Books, earlier: seq<Event>, createdAt: Instant)
    ensures !exists i: nat :: RunsOver(books, earlier, i, |AsArrived(books, earlier)|, createdAt)
  {
    forall i: nat | i < |earlier| ensures |AsArrived(books, earlier[..i])| <= |AsArrived(books, earlier)| {
      RowsStay(books, earlier, i);
    }
  }

  /** Whatever the history: every row that changed is a refund from before the cutoff of a run, and a run misses none. */
  lemma {:induction false} ChangedIff(books: Books, history: seq<Event>, k: nat)
    ensures ChangedIffRunOver(books, history, k)
    ensures var arrived, now := AsArrived(books, history), After(books, history).payments;
            k < |arrived| && k < |now| ==> now[k] == arrived[k] || now[k] == WithMarker(arrived[k])
    decreases |history|
  {
    if history == [] {
    } else {
      var earlier, e := history[..|history| - 1], history[|history| - 1];
      var arrived := AsArrived(books, history);
      assert history == earlier + [e];
      ChangedIff(books, earlier, k);
      RowsStay(books, earlier, 0);
      if k < |arrived| {
        RunsOverLater(books, earlier, e, k, arrived[k].createdAt);
        if k < |AsArrived(books, earlier)| {
          EligibleIsDue(After(books, earlier).payments[k], if e.Run? then e.cutoff else 0);
        } else {
          JustArrived(books, earlier, arrived[k].createdAt);
        }
      }
    }
  }

  lemma RunKeepsAccounts(books: Books, history: seq<Event>, cutoff: Instant, shift: ShiftId)
    requires shift in books.totals && IsAccounted(books, history, shift)
    ensures IsAccounted(books, history + [Run(cutoff)], shift)
  {
    var arrived, now := AsArrived(books, history), After(books, history);
    var longer := history + [Run(cutoff)];
    assert longer[..|history|] == history && arrived + [] == arrived;
    RunTakes(arrived, now.payments, cutoff, shift);
    TakeOffAllMeaning(now.totals, Eligible(now.payments, cutoff));
  }

  lemma ArrivalKeepsAccounts(books: Books, history: seq<Event>, p: Payment, shift: ShiftId)
    requires shift in books.totals && IsAccounted(books, history, shift)
    ensures IsAccounted(books, history + [Arrive(p)], shift)
  {
    var arrived, now := AsArrived(books, history), After(books, history).payments;
    var longer := history + [Arrive(p)];
    assert longer[..|history|] == history;
    assert (arrived + [p])[..|arrived|] == arrived && (now + [p])[..|now|] == now;
  }

  /**
   Exactly once over histories: the total of an existing shift has changed by what other services
   did, less the amounts of exactly those of its payments that were marked since they arrived; and
   those are the refunds that a run with a later cutoff came over.
   */
  lemma {:induction false} ExactlyOnce(books: Books, history: seq<Event>, shift: ShiftId)
    requires shift in books.totals
    ensures IsAccounted(books, history, shift)
    ensures forall k: nat :: ChangedIffRunOver(books, history, k)
    decreases |history|
  {
    forall k: nat ensures ChangedIffRunOver(books, history, k) {
      ChangedIff(books, history, k);
    }
    if history == [] {
      NothingMarkedYet(books.payments, shift);
    } else {
      var n := |history| - 1;
      var earlier, e := history[..n], history[n];
      ExactlyOnce(books, earlier, shift);
      assert history == earlier + [e];
      match e {
        case Run(cutoff) => RunKeepsAccounts(books, earlier, cutoff, shift);
        case Arrive(p) => ArrivalKeepsAccounts(books, earlier, p, shift);
        case _ => assert AsArrived(books, earlier) + [] == AsArrived(books, earlier);
      }
    }
  }

  // ----- Two runs -----

  function Later(a: Instant, b: Instant): Instant {
    if a >= b then a else b
  }

  lemma MarkedOnce(p: Payment, a: Instant, b: Instant)
    ensures MarkedIfEligible(MarkedIfEligible(p, a), b) == MarkedIfEligible(p, Later(a, b))
  {
    MarkedIsMarked(p);
  }

  lemma {:induction false} TakenOnce(payments: seq<Payment>, a: Instant, b: Instant, shift: ShiftId)
    ensures TakenFrom(Eligible(payments, a), shift) + TakenFrom(Eligible(MarkEligible(payments, a), b), shift)
         == TakenFrom(Eligible(payments, Later(a, b)), shift)
    decreases |payments|
  {
    if payments == [] {
    } else {
      var n := |payments| - 1;
      var p := payments[n];
      TakenOnce(payments[..n], a, b, shift);
      MarkedIsMarked(p);
      assert MarkEligible(payments, a)[..n] == MarkEligible(payments[..n], a);
      EligibleStep(payments, a, shift);
      EligibleStep(MarkEligible(payments, a), b, shift);
      EligibleStep(payments, Later(a, b), shift);
    }
  }

  /** With no refunds arriving in between, two runs are one run at the later cutoff; so a repeated run changes nothing. */
  lemma TwoRunsAreOne(books: Books, a: Instant, b: Instant)
    ensures Executed(Executed(books, a), b) == Executed(books, Later(a, b))
  {
    var once := Executed(books, a);
    forall k | 0 <= k < |books.payments|
      ensures MarkEligible(once.payments, b)[k] == MarkEligible(books.payments, Later(a, b))[k]
    {
      MarkedOnce(books.payments[k], a, b);
    }
    TakeOffAllMeaning(books.totals, Eligible(books.payments, a));
    TakeOffAllMeaning(once.totals, Eligible(once.payments, b));
    TakeOffAllMeaning(books.totals, Eligible(books.payments, Later(a, b)));
    forall s | s in books.totals ensures Executed(once, b).totals[s] == Executed(books, Later(a, b)).totals[s] {
      TakenOnce(books.payments, a, b, s);
    }
    assert Executed(once, b).totals == Executed(books, Later(a, b)).totals;
    assert Executed(once, b).payments == Executed(books, Later(a, b)).payments;
  }

  /** A refund of a missing shift is marked, and taken off nothing. */
  lemma MissingShiftIsMarked(p: Payment, cutoff: Instant)
    requires IsEligible(p, cutoff)
    ensures Executed(Books([p], map[]), cutoff) == Books([Marked(p)], map[])
  {
    var payments := [p];
    assert payments[..0] == [];
    assert Eligible(payments, cutoff) == Eligible([], cutoff) + [p] == [p];
    TakeOffAllMeaning(map[], [p]);
  }
}
