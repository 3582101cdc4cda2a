/** The shift-total backfill script: the eligibility filter, the grouping loop and the transaction. */
module ShiftScript {
  import opened Options
  import opened ShiftBackfill

  /** The update of the rows with the key of the refund: its data as read, with the marker set. */
  function UpdateMarker(payments: seq<Payment>, r: Payment): seq<Payment> {
    seq(|payments|, k requires 0 <= k < |payments| =>
      if payments[k].id == r.id then payments[k].(processorData := Some(DataOf(r)[MARKER := JsonTrue])) else payments[k])
  }

  /** The rows after marking the eligible ones among the first `n`. */
  ghost function MarkedUpTo(payments: seq<Payment>, cutoff: Instant, n: nat): seq<Payment> {
    seq(|payments|, k requires 0 <= k < |payments| => if k < n then MarkedIfEligible(payments[k], cutoff) else payments[k])
  }

  /** The updates of the transaction, in order. */
  ghost function Updated(payments: seq<Payment>, refunds: seq<Payment>): seq<Payment> {
    if refunds == [] then payments
    else UpdateMarker(Updated(payments, refunds[..|refunds| - 1]), refunds[|refunds| - 1])
  }

  lemma MarkOneMore(payments: seq<Payment>, cutoff: Instant, n: nat)
    requires HasKeys(payments) && n < |payments| && IsEligible(payments[n], cutoff)
    ensures UpdateMarker(MarkedUpTo(payments, cutoff, n), payments[n])
         == MarkedUpTo(payments, cutoff, n + 1)
  {
    var before, after := MarkedUpTo(payments, cutoff, n), MarkedUpTo(payments, cutoff, n + 1);
    forall k | 0 <= k < |payments| ensures UpdateMarker(before, payments[n])[k] == after[k] {
      assert before[k].id == payments[k].id;
      assert k != n ==> payments[k].id != payments[n].id;
    }
  }

  lemma MarkNoMore(payments: seq<Payment>, cutoff: Instant, n: nat)
    requires n < |payments| && !IsEligible(payments[n], cutoff)
    ensures MarkedUpTo(payments, cutoff, n + 1) == MarkedUpTo(payments, cutoff, n)
  {
  }

  lemma UpdateOneMore(payments: seq<Payment>, refunds: seq<Payment>, r: Payment)
    ensures Updated(payments, refunds + [r]) == UpdateMarker(Updated(payments, refunds), r)
  {
    assert (refunds + [r])[..|refunds|] == refunds;
  }

  lemma {:induction false} UpdatesMarkEligible(payments: seq<Payment>, cutoff: Instant, n: nat)
    requires HasKeys(payments) && n <= |payments|
    ensures Updated(payments, Eligible(payments[..n], cutoff)) == MarkedUpTo(payments, cutoff, n)
    decreases n
  {
    if n == 0 {
      assert payments[..0] == [];
    } else {
      var rest := Eligible(payments[..n - 1], cutoff);
      var r := payments[n - 1];
      UpdatesMarkEligible(payments, cutoff, n - 1);
      assert payments[..n][..n - 1] == payments[..n - 1];
      if IsEligible(r, cutoff) {
        UpdateOneMore(payments, rest, r);
        MarkOneMore(payments, cutoff, n - 1);
      } else {
        assert rest + [] == rest;
        MarkNoMore(payments, cutoff, n - 1);
      }
    }
  }

  /** The filter keeps exactly the payments that are due. */
  lemma {:induction false} EligibleExact(payments: seq<Payment>, cutoff: Instant)
    ensures forall p :: p in Eligible(payments, cutoff) <==> p in payments && IsDue(p, cutoff)
    decreases |payments|
  {
    if payments == [] {
    } else {
      var n := |payments| - 1;
      EligibleExact(payments[..n], cutoff);
      EligibleIsDue(payments[n], cutoff);
      assert payments == payments[..n] + [payments[n]];
    }
  }

  class Database {
    var payments: seq<Payment>
    var totals: map<ShiftId, int>

    constructor (books: Books)
      ensures payments == books.payments && totals == books.totals
    {
      payments, totals := books.payments, books.totals;
    }

    method FilterEligible(cutoff: Instant) returns (eligible: seq<Payment>)
      ensures eligible == Eligible(payments, cutoff)
      ensures forall p :: p in eligible <==> p in payments && IsDue(p, cutoff)
    {
      EligibleExact(payments, cutoff);
      eligible := Eligible(payments, cutoff);
    }

    /** One pass over the refunds, growing one aggregate per shift. */
    method Group(refunds: seq<Payment>) returns (perShift: map<ShiftId, Aggregate>)
      requires forall k :: 0 <= k < |refunds| ==> refunds[k].shift.Some?
      ensures IsGrouping(perShift, refunds)
    {
      perShift := map[];
      for i := 0 to |refunds|
        invariant IsGrouping(perShift, refunds[..i])
      {
        var r := refunds[i];
        var shift := r.shift.value;
        var agg := if shift in perShift then perShift[shift] else Aggregate(0, 0);
        assert refunds[..i + 1] == refunds[..i] + [r];
        GroupingStep(perShift, refunds[..i], r);
        perShift := perShift[shift := Aggregate(agg.delta + Abs(r.amount), agg.count + 1)];
      }
      assert refunds[..|refunds|] == refunds;
    }

    /** First loop of the transaction: one decrement per shift that exists. */
    method DecrementShifts(perShift: map<ShiftId, Aggregate>)
      modifies this
      ensures payments == old(payments) && totals == TakeOffGroups(old(totals), perShift)
    {
      var todo := perShift.Keys;
      while todo != {}
        invariant todo <= perShift.Keys && payments == old(payments)
        invariant totals.Keys == old(totals).Keys
        invariant forall s :: s in totals ==>
                    totals[s] == if s in perShift && s !in todo then old(totals)[s] - perShift[s].delta else old(totals)[s]
        decreases |todo|
      {
        var shift :| shift in todo;
        if shift in totals {
          totals := totals[shift := totals[shift] - perShift[shift].delta];
        }
        todo := todo - {shift};
      }
    }

    /** Second loop of the transaction: every refund gets its marker. */
    method MarkRefunds(refunds: seq<Payment>)
      modifies this
      ensures totals == old(totals) && payments == Updated(old(payments), refunds)
    {
      for i := 0 to |refunds|
        invariant totals == old(totals) && payments == Updated(old(payments), refunds[..i])
      {
        assert refunds[..i + 1][..i] == refunds[..i];
        payments := UpdateMarker(payments, refunds[i]);
      }
      assert refunds[..|refunds|] == refunds;
    }

    /** A dry run writes nothing; an execution is the refund-by-refund reference. */
    method Run(cutoff: Instant, execute: bool)
      requires HasKeys(payments)
      modifies this
      ensures HasKeys(payments)
      ensures execute ==> IsBackfilled(old(Books(payments, totals)), Books(payments, totals), cutoff)
      ensures Books(payments, totals) == if execute then Executed(old(Books(payments, totals)), cutoff) else old(Books(payments, totals))
    {
      ExecutedIsBackfilled(Books(payments, totals), cutoff);
      var eligible := FilterEligible(cutoff);
      ghost var before := payments;
      UpdatesMarkEligible(payments, cutoff, |payments|);
      assert payments[..|payments|] == payments;
      if |eligible| == 0 {
        assert MarkEligible(before, cutoff) == MarkedUpTo(before, cutoff, |before|) == before;
        return;
      }
      forall k | 0 <= k < |eligible| ensures eligible[k].shift.Some? {
        assert eligible[k] in eligible;
      }
      var perShift := Group(eligible);
      if !execute {
        return;
      }
      GroupedEqualsOneByOne(totals, eligible, perShift);
      DecrementShifts(perShift);
      MarkRefunds(eligible);
      assert MarkEligible(before, cutoff) == MarkedUpTo(before, cutoff, |before|);
    }
  }
}
