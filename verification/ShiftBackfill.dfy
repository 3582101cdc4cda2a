/**
 The shift-total backfill: refunds that were never taken off their shift's sales are taken off
 once, and marked.  Amounts are in cents.
 */
module ShiftBackfill {
  import opened Options

  type ShiftId = nat
  type Instant = int

  /** A JSON value, as far as the marker can tell: `true`, or anything else. */
  datatype Json = JsonTrue | JsonOther(text: string)

  datatype Payment = Payment(id: nat, isRefund: bool, amount: int, shift: Option<ShiftId>, createdAt: Instant, processorData: Option<map<string, Json>>)

  const MARKER: string := "shiftBackfilled"

  function DataOf(p: Payment): map<string, Json> {
    match p.processorData
    case Some(data) => data
    case None => map[]
  }

  /** Only the value `true` counts: a missing key, or any other value, does not. */
  predicate IsMarked(p: Payment) {
    MARKER in DataOf(p) && DataOf(p)[MARKER] == JsonTrue
  }

  function Marked(p: Payment): Payment {
    p.(processorData := Some(DataOf(p)[MARKER := JsonTrue]))
  }

  function Abs(x: int): nat {
    if x >= 0 then x else -x
  }

  predicate IsCandidate(p: Payment, cutoff: Instant) {
    p.isRefund && p.shift.Some? && p.createdAt < cutoff
  }

  predicate IsEligible(p: Payment, cutoff: Instant) {
    IsCandidate(p, cutoff) && !IsMarked(p)
  }

  /** The tables: payments in the order of their creation, and the sales total of every shift. */
  datatype Books = Books(payments: seq<Payment>, totals: map<ShiftId, int>)

  ghost predicate HasKeys(payments: seq<Payment>) {
    forall i, j :: 0 <= i < j < |payments| ==> payments[i].id != payments[j].id
  }

  function Eligible(payments: seq<Payment>, cutoff: Instant): seq<Payment> {
    if payments == [] then []
    else
      var n := |payments| - 1;
      Eligible(payments[..n], cutoff) + if IsEligible(payments[n], cutoff) then [payments[n]] else []
  }

  /** What one payment takes off a shift when it is backfilled. */
  function Takes(p: Payment, shift: ShiftId): nat {
    if p.shift == Some(shift) then Abs(p.amount) else 0
  }

  function TakenFrom(refunds: seq<Payment>, shift: ShiftId): nat {
    if refunds == [] then 0
    else TakenFrom(refunds[..|refunds| - 1], shift) + Takes(refunds[|refunds| - 1], shift)
  }

  // ----- One executed run, as the reference: refund by refund -----

  /** Backfilling a single refund: its shift, if it exists, and its marker. */
  function TakeOff(totals: map<ShiftId, int>, p: Payment): map<ShiftId, int> {
    map s | s in totals :: totals[s] - Takes(p, s)
  }

  function TakeOffAll(totals: map<ShiftId, int>, refunds: seq<Payment>): map<ShiftId, int> {
    if refunds == [] then totals
    else TakeOff(TakeOffAll(totals, refunds[..|refunds| - 1]), refunds[|refunds| - 1])
  }

  function MarkedIfEligible(p: Payment, cutoff: Instant): Payment {
    if IsEligible(p, cutoff) then Marked(p) else p
  }

  function MarkEligible(payments: seq<Payment>, cutoff: Instant): seq<Payment> {
    seq(|payments|, k requires 0 <= k < |payments| => MarkedIfEligible(payments[k], cutoff))
  }

  function Executed(books: Books, cutoff: Instant): Books {
    Books(MarkEligible(books.payments, cutoff), TakeOffAll(books.totals, Eligible(books.payments, cutoff)))
  }

  // ----- Grouped decrements -----

  datatype Aggregate = Aggregate(delta: nat, count: nat)

  /** The deltas of a group of shifts taken off at once; shifts that are missing are skipped. */
  function TakeOffGroups(totals: map<ShiftId, int>, perShift: map<ShiftId, Aggregate>): map<ShiftId, int> {
    map s | s in totals :: if s in perShift then totals[s] - perShift[s].delta else totals[s]
  }

  lemma {:induction false} TakeOffAllMeaning(totals: map<ShiftId, int>, refunds: seq<Payment>)
    ensures TakeOffAll(totals, refunds) == map s | s in totals :: totals[s] - TakenFrom(refunds, s)
    decreases |refunds|
  {
    if refunds == [] {
    } else {
      TakeOffAllMeaning(totals, refunds[..|refunds| - 1]);
    }
  }

  predicate HasRefundOf(refunds: seq<Payment>, shift: ShiftId) {
    exists k | 0 <= k < |refunds| :: refunds[k].shift == Some(shift)
  }

  function CountOf(refunds: seq<Payment>, shift: ShiftId): nat {
    if refunds == [] then 0
    else CountOf(refunds[..|refunds| - 1], shift) + if refunds[|refunds| - 1].shift == Some(shift) then 1 else 0
  }

  /** The map the loop builds: exactly the shifts with refunds, with their sums and counts. */
  ghost predicate IsGrouping(perShift: map<ShiftId, Aggregate>, refunds: seq<Payment>) {
    && (forall s :: s in perShift <==> HasRefundOf(refunds, s))
    && (forall s :: s in perShift ==> perShift[s] == Aggregate(TakenFrom(refunds, s), CountOf(refunds, s)))
  }

  lemma {:induction false} NothingTaken(refunds: seq<Payment>, shift: ShiftId)
    requires !HasRefundOf(refunds, shift)
    ensures TakenFrom(refunds, shift) == 0 && CountOf(refunds, shift) == 0
    decreases |refunds|
  {
    if refunds == [] {
    } else {
      var n := |refunds| - 1;
      assert refunds[n].shift != Some(shift);
      forall k | 0 <= k < n ensures refunds[..n][k].shift != Some(shift) {
        assert refunds[k].shift != Some(shift);
      }
      NothingTaken(refunds[..n], shift);
    }
  }

  /** Decrementing once per shift is decrementing once per refund. */
  lemma GroupedEqualsOneByOne(totals: map<ShiftId, int>, refunds: seq<Payment>, perShift: map<ShiftId, Aggregate>)
    requires IsGrouping(perShift, refunds)
    ensures TakeOffGroups(totals, perShift) == TakeOffAll(totals, refunds)
  {
    TakeOffAllMeaning(totals, refunds);
    forall s | s in totals && s !in perShift ensures TakenFrom(refunds, s) == 0 {
      NothingTaken(refunds, s);
    }
  }

  lemma GroupingStep(perShift: map<ShiftId, Aggregate>, refunds: seq<Payment>, r: Payment)
    requires IsGrouping(perShift, refunds) && r.shift.Some?
    ensures var s := r.shift.value;
            var agg := if s in perShift then perShift[s] else Aggregate(0, 0);
            IsGrouping(perShift[s := Aggregate(agg.delta + Abs(r.amount), agg.count + 1)], refunds + [r])
  {
    var s := r.shift.value;
    var longer := refunds + [r];
    assert longer[..|refunds|] == refunds;
    if s !in perShift {
      NothingTaken(refunds, s);
    }
    forall other: ShiftId ensures HasRefundOf(longer, other) <==> HasRefundOf(refunds, other) || other == s {
      if HasRefundOf(refunds, other) {
        var k :| 0 <= k < |refunds| && refunds[k].shift == Some(other);
        assert longer[k].shift == Some(other);
      }
      assert longer[|refunds|].shift == Some(s);
    }
  }

  // ----- What a run does, column by column -----

  predicate CarriesMarker(p: Payment) {
    p.processorData.Some? && "shiftBackfilled" in p.processorData.value && p.processorData.value["shiftBackfilled"] == JsonTrue
  }

  /** A refund with a shift, from before the cutoff, that was not backfilled yet. */
  predicate IsDue(p: Payment, cutoff: Instant) {
    p.isRefund && p.shift.Some? && p.createdAt < cutoff && !CarriesMarker(p)
  }

  function WithMarker(p: Payment): Payment {
    var data := if p.processorData.Some? then p.processorData.value else map[];
    p.(processorData := Some(data["shiftBackfilled" := JsonTrue]))
  }

  /** The absolute amounts of the shift's refunds that are due. */
  function DueOf(payments: seq<Payment>, shift: ShiftId, cutoff: Instant): int {
    if payments == [] then 0
    else
      var n := |payments| - 1;
      var p := payments[n];
      DueOf(payments[..n], shift, cutoff)
      + if p.shift == Some(shift) && IsDue(p, cutoff) then (if p.amount < 0 then -p.amount else p.amount) else 0
  }

  /** A payment changes iff it is due, and then by its marker alone; every total falls by what is due on its shift. */
  ghost predicate IsBackfilled(before: Books, after: Books, cutoff: Instant) {
    && |after.payments| == |before.payments|
    && (forall k :: 0 <= k < |before.payments| ==> (after.payments[k] != before.payments[k] <==> IsDue(before.payments[k], cutoff)))
    && (forall k :: 0 <= k < |before.payments| && IsDue(before.payments[k], cutoff) ==> after.payments[k] == WithMarker(before.payments[k]))
    && after.totals.Keys == before.totals.Keys
    && forall s :: s in before.totals ==> after.totals[s] == before.totals[s] - DueOf(before.payments, s, cutoff)
  }

  lemma EligibleIsDue(p: Payment, cutoff: Instant)
    ensures IsEligible(p, cutoff) <==> IsDue(p, cutoff)
    ensures Marked(p) == WithMarker(p) && CarriesMarker(Marked(p))
  {
  }

  lemma EligibleStep(payments: seq<Payment>, cutoff: Instant, shift: ShiftId)
    requires payments != []
    ensures var n := |payments| - 1;
            TakenFrom(Eligible(payments, cutoff), shift)
            == TakenFrom(Eligible(payments[..n], cutoff), shift) + if IsEligible(payments[n], cutoff) then Takes(payments[n], shift) else 0
  {
    var n := |payments| - 1;
    var rest := Eligible(payments[..n], cutoff);
    assert rest + [] == rest && (rest + [payments[n]])[..|rest|] == rest;
  }

  lemma {:induction false} TakenIsDue(payments: seq<Payment>, cutoff: Instant, shift: ShiftId)
    ensures TakenFrom(Eligible(payments, cutoff), shift) == DueOf(payments, shift, cutoff)
    decreases |payments|
  {
    if payments == [] {
    } else {
      var n := |payments| - 1;
      TakenIsDue(payments[..n], cutoff, shift);
      EligibleStep(payments, cutoff, shift);
      EligibleIsDue(payments[n], cutoff);
    }
  }

  /** The reference run backfills exactly what is due. */
  lemma ExecutedIsBackfilled(books: Books, cutoff: Instant)
    ensures IsBackfilled(books, Executed(books, cutoff), cutoff)
  {
    forall k | 0 <= k < |books.payments|
      ensures IsEligible(books.payments[k], cutoff) <==> IsDue(books.payments[k], cutoff)
      ensures Marked(books.payments[k]) == WithMarker(books.payments[k]) && CarriesMarker(Marked(books.payments[k]))
    {
      EligibleIsDue(books.payments[k], cutoff);
    }
    TakeOffAllMeaning(books.totals, Eligible(books.payments, cutoff));
    forall s | s in books.totals
      ensures TakenFrom(Eligible(books.payments, cutoff), s) == DueOf(books.payments, s, cutoff)
    {
      TakenIsDue(books.payments, cutoff, s);
    }
  }
}
