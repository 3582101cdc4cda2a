/**
 The backfill of transaction costs for refunds: every refund of a payment with recorded costs gets
 a negative cost row in proportion to the amount refunded.
 */
module RefundCosts {
  import opened Options
  import opened Columns

  /** What a reversal copies unchanged. */
  datatype Terms = Terms(account: nat, transactionType: nat, providerRate: real, venueRate: real,
                         providerStructure: Option<nat>, venueStructure: Option<nat>, profitMargin: real)

  datatype Cost = Cost(terms: Terms, amount: real, providerCost: real, providerFixedFee: real,
                       venueCharge: real, venueFixedFee: real, grossProfit: real)

  datatype Refund = Refund(id: nat, amount: real, original: Option<nat>)

  // ----- One reversal -----

  /** The refunded share; a payment without a positive amount counts as refunded in full. */
  function Share(part: real, whole: real): real {
    if whole > 0.0 then part / whole else 1.0
  }

  function Proportion(column: real, share: real): real {
    column * share
  }

  function Ratio(original: Cost, refunded: real): real {
    Share(refunded, original.amount)
  }

  function Reversal(original: Cost, refundAmount: real): Cost {
    var refunded := Abs(refundAmount);
    var ratio := Ratio(original, refunded);
    Cost(original.terms,
         -refunded,
         -Proportion(original.providerCost, ratio),
         if ratio == 1.0 then -original.providerFixedFee else 0.0,
         -Proportion(original.venueCharge, ratio),
         if ratio == 1.0 then -original.venueFixedFee else 0.0,
         -Proportion(original.grossProfit, ratio))
  }

  /**
   Which side of an exact half of the last decimal the product falls on: it is computed in doubles
   from the column, the amount refunded and the amount paid.  True is away from zero.
   */
  type Direction = (real, real, real) -> bool

  /** The columns keep four decimals of costs; amounts are whole cents already, and fees are copied. */
  function Written(original: Cost, refundAmount: real, away: Direction): Cost {
    var row, refunded, paid := Reversal(original, refundAmount), Abs(refundAmount), original.amount;
    row.(providerCost := Kept(row.providerCost, TENTH_MILLI, away(original.providerCost, refunded, paid)),
         providerFixedFee := Stored(row.providerFixedFee, TENTH_MILLI),
         venueCharge := Kept(row.venueCharge, TENTH_MILLI, away(original.venueCharge, refunded, paid)),
         venueFixedFee := Stored(row.venueFixedFee, TENTH_MILLI),
         grossProfit := Kept(row.grossProfit, TENTH_MILLI, away(original.grossProfit, refunded, paid)))
  }

  // ----- The row that is written, column by column -----

  /** A column of the row holds minus the refunded part of the original's, to the nearest of the fourth decimal. */
  ghost predicate IsPartOf(column: real, original: real, part: real, whole: real) {
    && Fits(column, TENTH_MILLI)
    && IsNear(column, -(if whole > 0.0 then original * part / whole else original), TENTH_MILLI, 1)
  }

  /** A fixed fee is given back with a full refund, and only then. */
  ghost predicate IsFeeBack(fee: real, original: real, part: real, whole: real) {
    fee == if whole <= 0.0 || part == whole then Stored(-original, TENTH_MILLI) else 0.0
  }

  /** The terms are copied; the amount refunded, its part of the three columns and the fees are taken back. */
  ghost predicate Reverses(row: Cost, original: Cost, refundAmount: real) {
    var refunded := if refundAmount < 0.0 then -refundAmount else refundAmount;
    && row.terms == original.terms
    && row.amount == -refunded
    && IsPartOf(row.providerCost, original.providerCost, refunded, original.amount)
    && IsPartOf(row.venueCharge, original.venueCharge, refunded, original.amount)
    && IsPartOf(row.grossProfit, original.grossProfit, refunded, original.amount)
    && IsFeeBack(row.providerFixedFee, original.providerFixedFee, refunded, original.amount)
    && IsFeeBack(row.venueFixedFee, original.venueFixedFee, refunded, original.amount)
  }

  lemma ProportionIsPart(column: real, part: real, whole: real)
    ensures Proportion(column, Share(part, whole)) == if whole > 0.0 then column * part / whole else column
  {
  }

  lemma IsWholeIff(share: real, part: real, whole: real)
    requires whole > 0.0 && share * whole == part
    ensures share == 1.0 <==> part == whole
  {
    assert (share - 1.0) * whole == part - whole;
  }

  lemma ShareIsOneIff(part: real, whole: real)
    ensures Share(part, whole) == 1.0 <==> whole <= 0.0 || part == whole
  {
    if whole > 0.0 {
      IsWholeIff(Share(part, whole), part, whole);
    }
  }

  lemma KeptIsPart(original: real, part: real, whole: real, away: bool)
    ensures IsPartOf(Kept(-Proportion(original, Share(part, whole)), TENTH_MILLI, away), original, part, whole)
  {
    var x := -Proportion(original, Share(part, whole));
    ProportionIsPart(original, part, whole);
    KeptScaled(x, TENTH_MILLI, away);
    RoundNearest(x * TENTH_MILLI, away);
    FitsWhole(Kept(x, TENTH_MILLI, away), TENTH_MILLI, Round(x * TENTH_MILLI, away));
    ScaledError(Kept(x, TENTH_MILLI, away), x, TENTH_MILLI);
  }

  lemma FeeIsBack(original: real, part: real, whole: real)
    ensures IsFeeBack(Stored(if Share(part, whole) == 1.0 then -original else 0.0, TENTH_MILLI), original, part, whole)
  {
    ShareIsOneIff(part, whole);
    FitsZero(TENTH_MILLI);
    StoredKeepsIffFits(0.0, TENTH_MILLI);
  }

  lemma WrittenReverses(original: Cost, refundAmount: real, away: Direction)
    ensures Reverses(Written(original, refundAmount, away), original, refundAmount)
  {
    var refunded, whole := Abs(refundAmount), original.amount;
    KeptIsPart(original.providerCost, refunded, whole, away(original.providerCost, refunded, whole));
    KeptIsPart(original.venueCharge, refunded, whole, away(original.venueCharge, refunded, whole));
    KeptIsPart(original.grossProfit, refunded, whole, away(original.grossProfit, refunded, whole));
    FeeIsBack(original.providerFixedFee, refunded, whole);
    FeeIsBack(original.venueFixedFee, refunded, whole);
  }

  // ----- When a row is balanced -----

  /** Charges less costs, fixed fees included, is the gross profit. */
  predicate IsBalanced(c: Cost) {
    c.grossProfit == (c.venueCharge + c.venueFixedFee) - (c.providerCost + c.providerFixedFee)
  }

  lemma ScaledBalance(c: Cost, k: real)
    requires IsBalanced(c)
    ensures Proportion(c.grossProfit, k)
         == Proportion(c.venueCharge, k) - Proportion(c.providerCost, k) + Proportion(c.venueFixedFee - c.providerFixedFee, k)
    ensures Proportion(c.venueFixedFee - c.providerFixedFee, k) == 0.0
       <==> k == 0.0 || c.venueFixedFee == c.providerFixedFee
  {
    Distribute(c.venueCharge, c.providerCost, c.venueFixedFee - c.providerFixedFee, k);
  }

  lemma Distribute(a: real, b: real, c: real, k: real)
    ensures (a - b + c) * k == a * k - b * k + c * k
    ensures c * k == 0.0 <==> k == 0.0 || c == 0.0
  {
  }

  /** The reversal of a balanced row is balanced iff it is full, or the two fixed fees are equal, or nothing was refunded. */
  lemma ReversalBalancedIff(original: Cost, refundAmount: real)
    requires IsBalanced(original)
    ensures var ratio := Ratio(original, Abs(refundAmount));
            IsBalanced(Reversal(original, refundAmount))
            <==> ratio == 1.0 || ratio == 0.0 || original.venueFixedFee == original.providerFixedFee
  {
    var ratio := Ratio(original, Abs(refundAmount));
    ScaledBalance(original, ratio);
  }

  // ----- All refunds of one payment -----

  /** The amounts refunded, as absolute values. */
  function Refunded(amounts: seq<real>): real {
    if amounts == [] then 0.0 else Refunded(amounts[..|amounts| - 1]) + Abs(amounts[|amounts| - 1])
  }

  function Reversals(original: Cost, amounts: seq<real>): seq<Cost> {
    seq(|amounts|, k requires 0 <= k < |amounts| => Reversal(original, amounts[k]))
  }

  /** The columns of a list of rows, summed. */
  datatype Totals = Totals(amount: real, providerCost: real, providerFixedFee: real, venueCharge: real, venueFixedFee: real, grossProfit: real)

  const NOTHING: Totals := Totals(0.0, 0.0, 0.0, 0.0, 0.0, 0.0)

  function Plus(t: Totals, c: Cost): Totals {
    Totals(t.amount + c.amount, t.providerCost + c.providerCost, t.providerFixedFee + c.providerFixedFee,
           t.venueCharge + c.venueCharge, t.venueFixedFee + c.venueFixedFee, t.grossProfit + c.grossProfit)
  }

  function Sum(rows: seq<Cost>): Totals {
    if rows == [] then NOTHING else Plus(Sum(rows[..|rows| - 1]), rows[|rows| - 1])
  }

  /** One more refund. */
  lemma ReversalsStep(original: Cost, amounts: seq<real>)
    requires amounts != []
    ensures var n := |amounts| - 1;
            Sum(Reversals(original, amounts)) == Plus(Sum(Reversals(original, amounts[..n])), Reversal(original, amounts[n]))
  {
    assert Reversals(original, amounts)[..|amounts| - 1] == Reversals(original, amounts[..|amounts| - 1]);
  }

  datatype Column = ProviderCost | VenueCharge | GrossProfit

  /** A proportional column of a row, and its total over many. */
  function Of(c: Cost, column: Column): real {
    match column
    case ProviderCost => c.providerCost
    case VenueCharge => c.venueCharge
    case GrossProfit => c.grossProfit
  }

  function TotalOf(t: Totals, column: Column): real {
    match column
    case ProviderCost => t.providerCost
    case VenueCharge => t.venueCharge
    case GrossProfit => t.grossProfit
  }

  lemma PlusColumn(t: Totals, c: Cost, column: Column)
    ensures TotalOf(Plus(t, c), column) == TotalOf(t, column) + Of(c, column)
  {
  }

  lemma SharesAdd(column: real, done: real, part: real, whole: real)
    requires whole > 0.0
    ensures Proportion(column, Share(done, whole)) + Proportion(column, Share(part, whole))
         == Proportion(column, Share(done + part, whole))
  {
    assert done / whole + part / whole == (done + part) / whole;
    assert column * (done / whole) + column * (part / whole) == column * (done / whole + part / whole);
  }

  lemma WholeShare(column: real, part: real, whole: real)
    requires whole > 0.0
    ensures Share(part, whole) == 1.0 <==> part == whole
    ensures Proportion(column, 1.0) == column
    ensures Proportion(column, Share(0.0, whole)) == 0.0
  {
    assert part / whole * whole == part;
  }

  /** One column of the reversals, summed. */
  function ReversedColumn(column: real, amounts: seq<real>, whole: real): real {
    if amounts == [] then 0.0
    else
      var n := |amounts| - 1;
      ReversedColumn(column, amounts[..n], whole) - Proportion(column, Share(Abs(amounts[n]), whole))
  }

  lemma {:induction false} ReversedColumnIsShare(column: real, amounts: seq<real>, whole: real)
    requires whole > 0.0
    ensures ReversedColumn(column, amounts, whole)
         == -Proportion(column, Share(Refunded(amounts), whole))
    decreases |amounts|
  {
    if amounts == [] {
      WholeShare(column, 0.0, whole);
    } else {
      var n := |amounts| - 1;
      ReversedColumnIsShare(column, amounts[..n], whole);
      SharesAdd(column, Refunded(amounts[..n]), Abs(amounts[n]), whole);
    }
  }

  lemma {:induction false} SumOfReversals(original: Cost, amounts: seq<real>, column: Column)
    ensures TotalOf(Sum(Reversals(original, amounts)), column)
         == ReversedColumn(Of(original, column), amounts, original.amount)
    decreases |amounts|
  {
    if amounts == [] {
    } else {
      var n := |amounts| - 1;
      SumOfReversals(original, amounts[..n], column);
      ReversalsStep(original, amounts);
      PlusColumn(Sum(Reversals(original, amounts[..n])), Reversal(original, amounts[n]), column);
    }
  }

  lemma {:induction false} SumOfAmounts(original: Cost, amounts: seq<real>)
    ensures Sum(Reversals(original, amounts)).amount == -Refunded(amounts)
    decreases |amounts|
  {
    if amounts == [] {
    } else {
      SumOfAmounts(original, amounts[..|amounts| - 1]);
      ReversalsStep(original, amounts);
    }
  }

  lemma ColumnCancels(column: real, amounts: seq<real>, whole: real)
    requires whole > 0.0 && Refunded(amounts) == whole
    ensures ReversedColumn(column, amounts, whole) == -column
  {
    ReversedColumnIsShare(column, amounts, whole);
    WholeShare(column, Refunded(amounts), whole);
  }

  /** Refunds that add up to the payment cancel its amount, its costs, its charges and its profit. */
  lemma FullRefundCancels(original: Cost, amounts: seq<real>)
    requires original.amount > 0.0 && Refunded(amounts) == original.amount
    ensures var t := Sum(Reversals(original, amounts));
            && t.amount == -original.amount
            && t.providerCost == -original.providerCost
            && t.venueCharge == -original.venueCharge
            && t.grossProfit == -original.grossProfit
  {
    SumOfAmounts(original, amounts);
    SumOfReversals(original, amounts, ProviderCost);
    SumOfReversals(original, amounts, VenueCharge);
    SumOfReversals(original, amounts, GrossProfit);
    ColumnCancels(original.providerCost, amounts, original.amount);
    ColumnCancels(original.venueCharge, amounts, original.amount);
    ColumnCancels(original.grossProfit, amounts, original.amount);
  }

  lemma {:induction false} RefundedPositive(amounts: seq<real>)
    requires forall k :: 0 <= k < |amounts| ==> amounts[k] != 0.0
    ensures amounts != [] ==> Refunded(amounts) > 0.0
    decreases |amounts|
  {
    if amounts == [] {
    } else {
      RefundedPositive(amounts[..|amounts| - 1]);
    }
  }

  /** A part of a list of two or more is less than all of it. */
  lemma {:induction false} PartIsLess(amounts: seq<real>, k: nat)
    requires forall i :: 0 <= i < |amounts| ==> amounts[i] != 0.0
    requires k < |amounts| && |amounts| > 1
    ensures Abs(amounts[k]) < Refunded(amounts)
    decreases |amounts|
  {
    var n := |amounts| - 1;
    var rest := amounts[..n];
    RefundedPositive(rest);
    if k < n {
      assert rest[k] == amounts[k];
      if |rest| > 1 {
        PartIsLess(rest, k);
      } else {
        assert Refunded(rest) == Refunded(rest[..0]) + Abs(rest[0]);
      }
    }
  }

  lemma {:induction false} NoFeesReversed(original: Cost, amounts: seq<real>)
    requires forall k :: 0 <= k < |amounts| ==> Ratio(original, Abs(amounts[k])) != 1.0
    ensures var t := Sum(Reversals(original, amounts));
            && t.providerFixedFee == 0.0
            && t.venueFixedFee == 0.0
    decreases |amounts|
  {
    if amounts == [] {
    } else {
      var n := |amounts| - 1;
      NoFeesReversed(original, amounts[..n]);
      assert Reversals(original, amounts)[..n] == Reversals(original, amounts[..n]);
    }
  }

  lemma RatioOne(original: Cost, refunded: real)
    requires original.amount > 0.0
    ensures Ratio(original, refunded) == 1.0 <==> refunded == original.amount
  {
    WholeShare(0.0, refunded, original.amount);
  }

  lemma FeesOfParts(original: Cost, amounts: seq<real>)
    requires original.amount > 0.0 && Refunded(amounts) == original.amount && |amounts| > 1
    requires forall k :: 0 <= k < |amounts| ==> amounts[k] != 0.0
    ensures var t := Sum(Reversals(original, amounts));
            && t.providerFixedFee == 0.0
            && t.venueFixedFee == 0.0
  {
    forall k | 0 <= k < |amounts| ensures Ratio(original, Abs(amounts[k])) != 1.0 {
      PartIsLess(amounts, k);
      RatioOne(original, Abs(amounts[k]));
    }
    NoFeesReversed(original, amounts);
  }

  /** Fixed fees cancel iff there was a single full refund, or there were no fixed fees. */
  lemma {:induction false} FixedFeesCancelIff(original: Cost, amounts: seq<real>)
    requires original.amount > 0.0 && Refunded(amounts) == original.amount
    requires forall k :: 0 <= k < |amounts| ==> amounts[k] != 0.0
    ensures var t := Sum(Reversals(original, amounts));
            && (t.providerFixedFee + original.providerFixedFee == 0.0 <==> |amounts| == 1 || original.providerFixedFee == 0.0)
            && (t.venueFixedFee + original.venueFixedFee == 0.0 <==> |amounts| == 1 || original.venueFixedFee == 0.0)
  {
    if |amounts| > 1 {
      FeesOfParts(original, amounts);
    } else {
      assert |amounts| == 1;
      assert Refunded(amounts) == Refunded(amounts[..0]) + Abs(amounts[0]);
      RatioOne(original, Abs(amounts[0]));
      assert Sum(Reversals(original, amounts)[..0]) == NOTHING;
    }
  }

  // ----- What the columns keep -----

  function WrittenAll(original: Cost, amounts: seq<real>, away: Direction): seq<Cost> {
    seq(|amounts|, k requires 0 <= k < |amounts| => Written(original, amounts[k], away))
  }

  lemma WrittenStep(original: Cost, amounts: seq<real>, away: Direction)
    requires amounts != []
    ensures var n := |amounts| - 1;
            Sum(WrittenAll(original, amounts, away)) == Plus(Sum(WrittenAll(original, amounts[..n], away)), Written(original, amounts[n], away))
  {
    var n := |amounts| - 1;
    assert WrittenAll(original, amounts, away)[..n] == WrittenAll(original, amounts[..n], away);
  }

  lemma WrittenRow(original: Cost, amount: real, away: Direction, column: Column)
    ensures Of(Written(original, amount, away), column)
         == Kept(Of(Reversal(original, amount), column), TENTH_MILLI, away(Of(original, column), Abs(amount), original.amount))
  {
  }

  /** Whichever way exact halves go, each written column is within half a unit of the fourth decimal per refund of the exact one. */
  lemma {:induction false} WrittenNearExact(original: Cost, amounts: seq<real>, away: Direction, column: Column)
    ensures IsNear(TotalOf(Sum(WrittenAll(original, amounts, away)), column), TotalOf(Sum(Reversals(original, amounts)), column), TENTH_MILLI, |amounts|)
    decreases |amounts|
  {
    if amounts == [] {
    } else {
      var n := |amounts| - 1;
      var row, t, w := Reversal(original, amounts[n]), Sum(Reversals(original, amounts[..n])), Sum(WrittenAll(original, amounts[..n], away));
      WrittenNearExact(original, amounts[..n], away, column);
      ReversalsStep(original, amounts);
      WrittenStep(original, amounts, away);
      PlusColumn(t, row, column);
      PlusColumn(w, Written(original, amounts[n], away), column);
      WrittenRow(original, amounts[n], away, column);
    }
  }

  lemma {:induction false} SumOfWrittenAmounts(original: Cost, amounts: seq<real>, away: Direction)
    ensures Sum(WrittenAll(original, amounts, away)).amount == -Refunded(amounts)
    decreases |amounts|
  {
    if amounts == [] {
    } else {
      SumOfWrittenAmounts(original, amounts[..|amounts| - 1], away);
      WrittenStep(original, amounts, away);
    }
  }

  /** The written reversals cancel the amount exactly, and every cost column up to half a unit per refund. */
  lemma WrittenRefundsCancel(original: Cost, amounts: seq<real>, away: Direction)
    requires original.amount > 0.0 && Refunded(amounts) == original.amount
    ensures var w := Sum(WrittenAll(original, amounts, away));
            && w.amount == -original.amount
            && IsNear(w.providerCost, -original.providerCost, TENTH_MILLI, |amounts|)
            && IsNear(w.venueCharge, -original.venueCharge, TENTH_MILLI, |amounts|)
            && IsNear(w.grossProfit, -original.grossProfit, TENTH_MILLI, |amounts|)
  {
    FullRefundCancels(original, amounts);
    SumOfWrittenAmounts(original, amounts, away);
    WrittenNearExact(original, amounts, away, ProviderCost);
    WrittenNearExact(original, amounts, away, VenueCharge);
    WrittenNearExact(original, amounts, away, GrossProfit);
  }

  /** The columns of a cost row hold four decimals. */
  predicate HasColumns(c: Cost) {
    && Fits(c.providerCost, TENTH_MILLI) && Fits(c.providerFixedFee, TENTH_MILLI)
    && Fits(c.venueCharge, TENTH_MILLI) && Fits(c.venueFixedFee, TENTH_MILLI) && Fits(c.grossProfit, TENTH_MILLI)
  }

  /** What is reversed of a column for an amount, before and after writing. */
  function ReversedShare(column: real, amount: real, whole: real): real {
    -Proportion(column, Share(Abs(amount), whole))
  }

  function WrittenShare(column: real, amount: real, whole: real, away: Direction): real {
    Kept(ReversedShare(column, amount, whole), TENTH_MILLI, away(column, Abs(amount), whole))
  }

  /** What writing the proportions of a column adds to all reversals together. */
  function ColumnChange(column: real, amounts: seq<real>, whole: real, away: Direction): real {
    if amounts == [] then 0.0
    else
      var n := |amounts| - 1;
      ColumnChange(column, amounts[..n], whole, away) + (WrittenShare(column, amounts[n], whole, away) - ReversedShare(column, amounts[n], whole))
  }

  /** One column of the written reversals, summed. */
  function WrittenColumn(column: real, amounts: seq<real>, whole: real, away: Direction): real {
    if amounts == [] then 0.0
    else
      var n := |amounts| - 1;
      WrittenColumn(column, amounts[..n], whole, away) + WrittenShare(column, amounts[n], whole, away)
  }

  lemma {:induction false} WrittenColumnIs(column: real, amounts: seq<real>, whole: real, away: Direction)
    ensures WrittenColumn(column, amounts, whole, away)
         == ReversedColumn(column, amounts, whole) + ColumnChange(column, amounts, whole, away)
    decreases |amounts|
  {
    if amounts == [] {
    } else {
      var n := |amounts| - 1;
      WrittenColumnIs(column, amounts[..n], whole, away);
    }
  }

  lemma WrittenRowShare(original: Cost, amount: real, away: Direction, column: Column)
    ensures Of(Written(original, amount, away), column)
         == WrittenShare(Of(original, column), amount, original.amount, away)
  {
    WrittenRow(original, amount, away, column);
  }

  lemma {:induction false} SumOfWritten(original: Cost, amounts: seq<real>, away: Direction, column: Column)
    ensures TotalOf(Sum(WrittenAll(original, amounts, away)), column)
         == WrittenColumn(Of(original, column), amounts, original.amount, away)
    decreases |amounts|
  {
    if amounts == [] {
    } else {
      var n := |amounts| - 1;
      SumOfWritten(original, amounts[..n], away, column);
      WrittenStep(original, amounts, away);
      PlusColumn(Sum(WrittenAll(original, amounts[..n], away)), Written(original, amounts[n], away), column);
      WrittenRowShare(original, amounts[n], away, column);
    }
  }

  lemma WrittenColumnCancelsIff(column: real, amounts: seq<real>, whole: real, away: Direction)
    requires whole > 0.0 && Refunded(amounts) == whole
    ensures WrittenColumn(column, amounts, whole, away) == -column
       <==> ColumnChange(column, amounts, whole, away) == 0.0
  {
    ColumnCancels(column, amounts, whole);
    WrittenColumnIs(column, amounts, whole, away);
  }

  /**
   The written reversals of a payment that was refunded in full cancel a column iff the rounding of
   the proportions adds up to nothing.
   */
  lemma WrittenCancelIff(original: Cost, amounts: seq<real>, away: Direction, column: Column)
    requires original.amount > 0.0 && Refunded(amounts) == original.amount
    ensures var before := Of(original, column);
            TotalOf(Sum(WrittenAll(original, amounts, away)), column) == -before
            <==> ColumnChange(before, amounts, original.amount, away) == 0.0
  {
    SumOfWritten(original, amounts, away, column);
    WrittenColumnCancelsIff(Of(original, column), amounts, original.amount, away);
  }

  // ----- Exact halves -----

  /** How many of the proportions are exact halves of the last decimal. */
  function Halves(column: real, amounts: seq<real>, whole: real): nat {
    if amounts == [] then 0
    else
      var n := |amounts| - 1;
      Halves(column, amounts[..n], whole) + if IsHalf(ReversedShare(column, amounts[n], whole), TENTH_MILLI) then 1 else 0
  }

  /**
   The direction of exact halves moves a written column by one unit for each of them at most; where
   no proportion is an exact half, it makes no difference to the column, nor to whether it cancels.
   */
  lemma {:induction false} OnlyHalvesGoEitherWay(column: real, amounts: seq<real>, whole: real, away: Direction, other: Direction)
    ensures IsNear(WrittenColumn(column, amounts, whole, away), WrittenColumn(column, amounts, whole, other), TENTH_MILLI, 2 * Halves(column, amounts, whole))
    ensures Halves(column, amounts, whole) == 0 ==> ColumnChange(column, amounts, whole, away) == ColumnChange(column, amounts, whole, other)
    decreases |amounts|
  {
    if amounts == [] {
    } else {
      var n := |amounts| - 1;
      OnlyHalvesGoEitherWay(column, amounts[..n], whole, away, other);
      var x := ReversedShare(column, amounts[n], whole);
      KeptEitherWay(x, TENTH_MILLI, away(column, Abs(amounts[n]), whole), other(column, Abs(amounts[n]), whole));
      NearSum(WrittenColumn(column, amounts[..n], whole, away), WrittenColumn(column, amounts[..n], whole, other),
              WrittenShare(column, amounts[n], whole, away), WrittenShare(column, amounts[n], whole, other), TENTH_MILLI,
              2 * Halves(column, amounts[..n], whole), if IsHalf(x, TENTH_MILLI) then 2 else 0);
    }
  }

  lemma SharesHaveOneSign(column: real, first: real, second: real, whole: real)
    ensures HaveOneSign(ReversedShare(column, first, whole), ReversedShare(column, second, whole))
  {
    ShareIsPositive(column, Abs(first), whole);
    ShareIsPositive(column, Abs(second), whole);
  }

  lemma ShareIsPositive(column: real, part: real, whole: real)
    requires part >= 0.0
    ensures column >= 0.0 ==> Proportion(column, Share(part, whole)) >= 0.0
    ensures column <= 0.0 ==> Proportion(column, Share(part, whole)) <= 0.0
  {
    assert Share(part, whole) >= 0.0;
  }

  lemma TwoParts(column: real, first: real, second: real, whole: real, away: Direction)
    ensures Refunded([first, second]) == Abs(first) + Abs(second)
    ensures WrittenColumn(column, [first, second], whole, away)
         == WrittenShare(column, first, whole, away) + WrittenShare(column, second, whole, away)
    ensures ReversedColumn(column, [first, second], whole)
         == ReversedShare(column, first, whole) + ReversedShare(column, second, whole)
  {
    var one := [first, second][..1];
    assert one == [first] && one[..0] == [];
    assert Refunded(one) == Refunded([]) + Abs(first);
    assert WrittenColumn(column, one, whole, away) == WrittenColumn(column, [], whole, away) + WrittenShare(column, first, whole, away);
    assert ReversedColumn(column, one, whole) == ReversedColumn(column, [], whole) + ReversedShare(column, first, whole);
  }

  lemma TwoSharesCancelIff(column: real, first: real, second: real, whole: real, away: Direction)
    requires whole > 0.0 && Abs(first) + Abs(second) == whole && Fits(column, TENTH_MILLI)
    ensures WrittenShare(column, first, whole, away) + WrittenShare(column, second, whole, away)
         == -column
       <==> !IsHalf(ReversedShare(column, first, whole), TENTH_MILLI) || away(column, Abs(first), whole) != away(column, Abs(second), whole)
  {
    TwoParts(column, first, second, whole, away);
    ColumnCancels(column, [first, second], whole);
    SharesHaveOneSign(column, first, second, whole);
    FitsNegative(column, TENTH_MILLI);
    KeptPartsAdd(ReversedShare(column, first, whole), ReversedShare(column, second, whole), -column,
                 away(column, Abs(first), whole), away(column, Abs(second), whole));
  }

  /**
   Two refunds that add up to the payment cancel a column exactly, unless the proportions are exact
   halves and go the same way; two equal refunds go the same way.
   */
  lemma TwoRefundsCancelIff(original: Cost, first: real, second: real, away: Direction, column: Column)
    requires HasColumns(original) && original.amount > 0.0 && Abs(first) + Abs(second) == original.amount
    ensures var before, whole := Of(original, column), original.amount;
            TotalOf(Sum(WrittenAll(original, [first, second], away)), column) == -before
            <==> !IsHalf(ReversedShare(before, first, whole), TENTH_MILLI) || away(before, Abs(first), whole) != away(before, Abs(second), whole)
  {
    SumOfWritten(original, [first, second], away, column);
    TwoParts(Of(original, column), first, second, original.amount, away);
    TwoSharesCancelIff(Of(original, column), first, second, original.amount, away);
  }

  /** Proportions of at most four decimals leave nothing to round. */
  lemma {:induction false} NoColumnChange(column: real, amounts: seq<real>, whole: real, away: Direction)
    requires forall k :: 0 <= k < |amounts| ==> Fits(ReversedShare(column, amounts[k], whole), TENTH_MILLI)
    ensures ColumnChange(column, amounts, whole, away) == 0.0
    decreases |amounts|
  {
    if amounts == [] {
    } else {
      var n := |amounts| - 1;
      NoColumnChange(column, amounts[..n], whole, away);
      KeptKeepsIffFits(ReversedShare(column, amounts[n], whole), TENTH_MILLI, away(column, Abs(amounts[n]), whole));
    }
  }

  lemma KeptNegative(x: real, away: bool)
    requires Fits(x, TENTH_MILLI)
    ensures Kept(-x, TENTH_MILLI, away) == Stored(-x, TENTH_MILLI) == -x
  {
    FitsNegative(x, TENTH_MILLI);
    KeptKeepsIffFits(-x, TENTH_MILLI, away);
    StoredKeepsIffFits(-x, TENTH_MILLI);
  }

  /** A reversal in full cancels every column of the original exactly, the fixed fees included. */
  lemma FullReversalCancels(original: Cost, refundAmount: real, away: Direction)
    requires HasColumns(original) && Ratio(original, Abs(refundAmount)) == 1.0
    ensures var r := Written(original, refundAmount, away);
            && r.amount == -Abs(refundAmount)
            && r.providerCost == -original.providerCost && r.providerFixedFee == -original.providerFixedFee
            && r.venueCharge == -original.venueCharge && r.venueFixedFee == -original.venueFixedFee
            && r.grossProfit == -original.grossProfit
  {
    WholeShare(original.providerCost, 1.0, 1.0);
    WholeShare(original.venueCharge, 1.0, 1.0);
    WholeShare(original.grossProfit, 1.0, 1.0);
    var refunded, paid := Abs(refundAmount), original.amount;
    KeptNegative(original.providerCost, away(original.providerCost, refunded, paid));
    KeptNegative(original.providerFixedFee, true);
    KeptNegative(original.venueCharge, away(original.venueCharge, refunded, paid));
    KeptNegative(original.venueFixedFee, true);
    KeptNegative(original.grossProfit, away(original.grossProfit, refunded, paid));
  }

  lemma StoredFee(fee: real, full: bool)
    requires Fits(fee, TENTH_MILLI)
    ensures Stored(if full then -fee else 0.0, TENTH_MILLI) == if full then -fee else 0.0
  {
    KeptNegative(fee, true);
    FitsZero(TENTH_MILLI);
    StoredKeepsIffFits(0.0, TENTH_MILLI);
  }

  lemma {:induction false} WrittenFees(original: Cost, amounts: seq<real>, away: Direction)
    requires HasColumns(original)
    ensures var t, w := Sum(Reversals(original, amounts)), Sum(WrittenAll(original, amounts, away));
            w.providerFixedFee == t.providerFixedFee && w.venueFixedFee == t.venueFixedFee
    decreases |amounts|
  {
    if amounts == [] {
    } else {
      var n := |amounts| - 1;
      WrittenFees(original, amounts[..n], away);
      ReversalsStep(original, amounts);
      WrittenStep(original, amounts, away);
      StoredFee(original.providerFixedFee, Ratio(original, Abs(amounts[n])) == 1.0);
      StoredFee(original.venueFixedFee, Ratio(original, Abs(amounts[n])) == 1.0);
    }
  }

  /** As written, too, a fixed fee cancels iff there was a single full refund, or no fee. */
  lemma WrittenFeesCancelIff(original: Cost, amounts: seq<real>, away: Direction)
    requires HasColumns(original) && original.amount > 0.0 && Refunded(amounts) == original.amount
    requires forall k :: 0 <= k < |amounts| ==> amounts[k] != 0.0
    ensures var w := Sum(WrittenAll(original, amounts, away));
            && (w.providerFixedFee == -original.providerFixedFee <==> |amounts| == 1 || original.providerFixedFee == 0.0)
            && (w.venueFixedFee == -original.venueFixedFee <==> |amounts| == 1 || original.venueFixedFee == 0.0)
  {
    FixedFeesCancelIff(original, amounts);
    WrittenFees(original, amounts, away);
  }

  // ----- Written reversals that balance -----

  /** By how much the gross profit misses charges less costs. */
  function Imbalance(c: Cost): real {
    c.grossProfit - ((c.venueCharge + c.venueFixedFee) - (c.providerCost + c.providerFixedFee))
  }

  /** What writing a column of a reversal adds to it. */
  function ChangeOf(original: Cost, refundAmount: real, away: Direction, column: Column): real {
    var x := Of(Reversal(original, refundAmount), column);
    Kept(x, TENTH_MILLI, away(Of(original, column), Abs(refundAmount), original.amount)) - x
  }

  /** What storing a fee adds to it. */
  function FeeChange(fee: real): real {
    Stored(fee, TENTH_MILLI) - fee
  }

  /** What writing the columns adds to the imbalance of a reversal. */
  function BalanceChange(original: Cost, refundAmount: real, away: Direction): real {
    var row := Reversal(original, refundAmount);
    ChangeOf(original, refundAmount, away, GrossProfit)
    - ((ChangeOf(original, refundAmount, away, VenueCharge) + FeeChange(row.venueFixedFee))
       - (ChangeOf(original, refundAmount, away, ProviderCost) + FeeChange(row.providerFixedFee)))
  }

  lemma WrittenImbalance(original: Cost, refundAmount: real, away: Direction)
    ensures Imbalance(Written(original, refundAmount, away))
         == Imbalance(Reversal(original, refundAmount)) + BalanceChange(original, refundAmount, away)
  {
  }

  /** The imbalance of a reversal comes from the fixed fees, which a partial refund leaves out. */
  lemma ReversalImbalance(original: Cost, refundAmount: real)
    requires IsBalanced(original)
    ensures var ratio := Ratio(original, Abs(refundAmount));
            Imbalance(Reversal(original, refundAmount))
            == if ratio == 1.0 then 0.0 else -Proportion(original.venueFixedFee - original.providerFixedFee, ratio)
  {
    var ratio := Ratio(original, Abs(refundAmount));
    ScaledBalance(original, ratio);
    WholeShare(original.venueFixedFee - original.providerFixedFee, 1.0, 1.0);
  }

  /**
   The written reversal of a balanced row is balanced iff the rounding of its columns makes up for
   the share of the fixed fees that a partial refund leaves out; in full it is balanced.
   */
  lemma WrittenBalancedIff(original: Cost, refundAmount: real, away: Direction)
    requires IsBalanced(original)
    ensures var ratio, w := Ratio(original, Abs(refundAmount)), Written(original, refundAmount, away);
            && (IsBalanced(w)
                <==> BalanceChange(original, refundAmount, away)
                     == if ratio == 1.0 then 0.0 else Proportion(original.venueFixedFee - original.providerFixedFee, ratio))
            && (HasColumns(original) && ratio == 1.0 ==> IsBalanced(w))
  {
    var w := Written(original, refundAmount, away);
    ReversalImbalance(original, refundAmount);
    WrittenImbalance(original, refundAmount, away);
    assert IsBalanced(w) <==> Imbalance(w) == 0.0;
    if HasColumns(original) && Ratio(original, Abs(refundAmount)) == 1.0 {
      FullReversalCancels(original, refundAmount, away);
    }
  }

  predicate NoHalves(original: Cost, refundAmount: real) {
    var row := Reversal(original, refundAmount);
    !IsHalf(row.providerCost, TENTH_MILLI) && !IsHalf(row.venueCharge, TENTH_MILLI) && !IsHalf(row.grossProfit, TENTH_MILLI)
  }

  /** Where no proportion is an exact half, the row is written the same whichever way halves go. */
  lemma NoHalvesWrittenTheSame(original: Cost, refundAmount: real, away: Direction, other: Direction)
    requires NoHalves(original, refundAmount)
    ensures Written(original, refundAmount, away) == Written(original, refundAmount, other)
  {
    var row, refunded, paid := Reversal(original, refundAmount), Abs(refundAmount), original.amount;
    EitherWay(row.providerCost, original.providerCost, refunded, paid, away, other);
    EitherWay(row.venueCharge, original.venueCharge, refunded, paid, away, other);
    EitherWay(row.grossProfit, original.grossProfit, refunded, paid, away, other);
  }

  lemma EitherWay(x: real, column: real, refunded: real, paid: real, away: Direction, other: Direction)
    ensures !IsHalf(x, TENTH_MILLI) ==>
              Kept(x, TENTH_MILLI, away(column, refunded, paid)) == Kept(x, TENTH_MILLI, other(column, refunded, paid))
  {
    KeptEitherWay(x, TENTH_MILLI, away(column, refunded, paid), other(column, refunded, paid));
  }

  // ----- A payment whose reversals do not cancel, and do not balance -----

  const NO_TERMS: Terms := Terms(0, 0, 0.0, 0.0, None, None, 0.0)

  /** Two pesos, with costs of the last decimal. */
  const SMALL: Cost := Cost(NO_TERMS, 2.0, 0.0001, 0.0001, 0.0002, 0.0001, 0.0001)

  const TWO_HALVES: seq<real> := [-1.0, -1.0]

  lemma HalfOfSmall()
    ensures ReversedShare(0.0001, -1.0, 2.0) == -0.00005 && ReversedShare(0.0002, -1.0, 2.0) == -0.0001
    ensures IsHalf(-0.00005, TENTH_MILLI) && Fits(-0.0001, TENTH_MILLI)
  {
    assert Share(1.0, 2.0) == 0.5;
    FloorOfInt(0);
    FitsWhole(-0.0001, TENTH_MILLI, -1);
  }

  lemma SmallIsBalanced()
    ensures HasColumns(SMALL) && IsBalanced(SMALL)
  {
    FitsWhole(0.0001, TENTH_MILLI, 1);
    FitsWhole(0.0002, TENTH_MILLI, 2);
  }

  lemma EqualHalvesMiss(original: Cost, away: Direction)
    requires HasColumns(original) && original.amount == 2.0 && original.providerCost == 0.0001
    ensures Sum(WrittenAll(original, TWO_HALVES, away)).providerCost != -original.providerCost
  {
    HalfOfSmall();
    TwoRefundsCancelIff(original, -1.0, -1.0, away, ProviderCost);
  }

  /** Two halves of a provider cost of 0.0001 are both written as 0.0001, or both as nothing. */
  lemma WrittenCanMiss(away: Direction)
    ensures Sum(WrittenAll(SMALL, TWO_HALVES, away)).providerCost != -SMALL.providerCost
  {
    SmallIsBalanced();
    EqualHalvesMiss(SMALL, away);
  }

  lemma HalfUnbalances(original: Cost, away: Direction)
    requires original.amount == 2.0 && original.venueFixedFee == original.providerFixedFee
    requires original.grossProfit == original.providerCost == 0.0001 && original.venueCharge == 0.0002
    ensures !IsBalanced(Written(original, -1.0, away))
  {
    HalfOfSmall();
    var w := Written(original, -1.0, away);
    WrittenRowShare(original, -1.0, away, ProviderCost);
    WrittenRowShare(original, -1.0, away, GrossProfit);
    WrittenRowShare(original, -1.0, away, VenueCharge);
    KeptKeepsIffFits(-0.0001, TENTH_MILLI, away(0.0002, 1.0, 2.0));
    assert w.grossProfit == w.providerCost && w.venueCharge == -0.0001 && w.venueFixedFee == w.providerFixedFee;
  }

  /** Half of the payment: the computed reversal balances, but the charge is written as 0.0001, and cost and profit are the same. */
  lemma WrittenCanUnbalance(away: Direction)
    ensures IsBalanced(Reversal(SMALL, -1.0)) && !IsBalanced(Written(SMALL, -1.0, away))
  {
    SmallIsBalanced();
    ReversalBalancedIff(SMALL, -1.0);
    HalfUnbalances(SMALL, away);
  }

  lemma TwoHalves()
    ensures |TWO_HALVES| == 2 && Refunded(TWO_HALVES) == 2.0
    ensures forall k :: 0 <= k < |TWO_HALVES| ==> TWO_HALVES[k] != 0.0
  {
    var one := TWO_HALVES[..1];
    assert one == [-1.0] && one[..0] == [];
    assert Refunded(one) == Refunded([]) + 1.0;
  }

  /** Two halves leave the fixed fees standing. */
  lemma FeesCanStay(away: Direction)
    ensures Sum(WrittenAll(SMALL, TWO_HALVES, away)).providerFixedFee != -SMALL.providerFixedFee
  {
    SmallIsBalanced();
    TwoHalves();
    WrittenFeesCancelIff(SMALL, TWO_HALVES, away);
  }
}
