/**
 Whole runs of the refund-cost backfill: refunds of many payments in any order, inserts that fail,
 and running again.
 */
module RefundRuns {
  import opened Options
  import opened Columns
  import opened RefundCosts

  // ----- The refunds of a run -----

  /** What one refund does to the cost rows: nothing when it names no payment with costs, or when the insert fails. */
  function Process(costs: map<nat, Cost>, refund: Refund, failing: set<nat>, away: Direction): map<nat, Cost> {
    if refund.original.None? || refund.original.value !in costs || refund.id in failing then costs
    else costs[refund.id := Written(costs[refund.original.value], refund.amount, away)]
  }

  function ProcessAll(costs: map<nat, Cost>, refunds: seq<Refund>, failing: set<nat>, away: Direction): map<nat, Cost> {
    if refunds == [] then costs
    else Process(ProcessAll(costs, refunds[..|refunds| - 1], failing, away), refunds[|refunds| - 1], failing, away)
  }

  /** The refunds that the query selects: those without costs. */
  function WithoutCosts(refunds: seq<Refund>, costs: map<nat, Cost>): seq<Refund> {
    if refunds == [] then []
    else
      var n := |refunds| - 1;
      WithoutCosts(refunds[..n], costs) + if refunds[n].id in costs then [] else [refunds[n]]
  }

  ghost predicate HasKeys(refunds: seq<Refund>) {
    forall i, j :: 0 <= i < j < |refunds| ==> refunds[i].id != refunds[j].id
  }

  ghost predicate ArePending(refunds: seq<Refund>, costs: map<nat, Cost>) {
    && HasKeys(refunds)
    && forall k :: 0 <= k < |refunds| ==> refunds[k].id !in costs
  }

  lemma {:induction false} WithoutCostsExact(refunds: seq<Refund>, costs: map<nat, Cost>)
    ensures forall r :: r in WithoutCosts(refunds, costs) <==> r in refunds && r.id !in costs
    decreases |refunds|
  {
    if refunds == [] {
    } else {
      var n := |refunds| - 1;
      WithoutCostsExact(refunds[..n], costs);
      assert refunds == refunds[..n] + [refunds[n]];
    }
  }

  lemma OneMorePending(rest: seq<Refund>, earlier: seq<Refund>, refund: Refund, costs: map<nat, Cost>)
    requires ArePending(rest, costs) && refund.id !in costs
    requires forall r :: r in rest ==> r in earlier
    requires forall k :: 0 <= k < |earlier| ==> earlier[k].id != refund.id
    ensures ArePending(rest + [refund], costs)
  {
    forall k | 0 <= k < |rest| ensures rest[k].id != refund.id {
      assert rest[k] in rest;
    }
  }

  lemma {:induction false} WithoutCostsArePending(refunds: seq<Refund>, costs: map<nat, Cost>)
    requires HasKeys(refunds)
    ensures ArePending(WithoutCosts(refunds, costs), costs)
    decreases |refunds|
  {
    if refunds == [] {
    } else {
      var n := |refunds| - 1;
      var rest := WithoutCosts(refunds[..n], costs);
      WithoutCostsArePending(refunds[..n], costs);
      if refunds[n].id in costs {
        assert rest + [] == rest;
      } else {
        WithoutCostsExact(refunds[..n], costs);
        OneMorePending(rest, refunds[..n], refunds[n], costs);
      }
    }
  }

  datatype Outcome = Success | Skipped | Failed

  function OutcomeOf(rows: map<nat, Cost>, refund: Refund, failing: set<nat>, dryRun: bool): Outcome {
    if refund.original.None? || refund.original.value !in rows then Skipped
    else if !dryRun && refund.id in failing then Failed
    else Success
  }

  /** What a run counts for refund `k`, given the rows written before it. */
  function OutcomeAt(costs: map<nat, Cost>, refunds: seq<Refund>, failing: set<nat>, away: Direction, dryRun: bool, k: nat): Outcome
    requires k < |refunds|
  {
    OutcomeOf(if dryRun then costs else ProcessAll(costs, refunds[..k], failing, away), refunds[k], failing, dryRun)
  }

  function Tally(costs: map<nat, Cost>, refunds: seq<Refund>, failing: set<nat>, away: Direction, dryRun: bool, outcome: Outcome, n: nat): nat
    requires n <= |refunds|
  {
    if n == 0 then 0
    else Tally(costs, refunds, failing, away, dryRun, outcome, n - 1) + if OutcomeAt(costs, refunds, failing, away, dryRun, n - 1) == outcome then 1 else 0
  }

  // ----- The rows after a run -----

  /** Older rows are untouched. */
  ghost predicate Extends(costs: map<nat, Cost>, after: map<nat, Cost>) {
    forall p :: p in costs ==> p in after && after[p] == costs[p]
  }

  /** A refund of a payment with costs has its written reversal, unless its insert failed; then it has no row. */
  ghost predicate IsReversed(costs: map<nat, Cost>, after: map<nat, Cost>, refund: Refund, failing: set<nat>, away: Direction) {
    refund.original.Some? && refund.original.value in costs ==>
      if refund.id in failing then refund.id !in after
      else refund.id in after && after[refund.id] == Written(costs[refund.original.value], refund.amount, away)
  }

  /** Every new row belongs to one of the refunds. */
  ghost predicate AddsOnly(costs: map<nat, Cost>, after: map<nat, Cost>, refunds: seq<Refund>) {
    forall p :: p in after && p !in costs ==> exists k :: 0 <= k < |refunds| && refunds[k].id == p
  }

  ghost predicate IsProcessed(costs: map<nat, Cost>, after: map<nat, Cost>, refunds: seq<Refund>, failing: set<nat>, away: Direction) {
    && Extends(costs, after)
    && AddsOnly(costs, after, refunds)
    && forall k :: 0 <= k < |refunds| ==> IsReversed(costs, after, refunds[k], failing, away)
  }

  lemma ProcessStep(costs: map<nat, Cost>, before: map<nat, Cost>, refunds: seq<Refund>, failing: set<nat>, away: Direction, n: nat)
    requires ArePending(refunds, costs) && n < |refunds|
    requires IsProcessed(costs, before, refunds[..n], failing, away)
    ensures refunds[n].id !in before
    ensures IsProcessed(costs, Process(before, refunds[n], failing, away), refunds[..n + 1], failing, away)
  {
    var refund, after := refunds[n], Process(before, refunds[n], failing, away);
    var earlier, longer := refunds[..n], refunds[..n + 1];
    forall k | 0 <= k < |earlier| ensures earlier[k].id != refund.id {
    }
    forall k | 0 <= k < |longer| ensures IsReversed(costs, after, longer[k], failing, away) {
      assert k < n ==> longer[k] == earlier[k] && IsReversed(costs, before, earlier[k], failing, away);
    }
    forall p | p in after && p !in costs ensures exists k :: 0 <= k < |longer| && longer[k].id == p {
      if p == refund.id {
        assert longer[n].id == p;
      } else {
        var k :| 0 <= k < |earlier| && earlier[k].id == p;
        assert longer[k].id == p;
      }
    }
  }

  lemma {:induction false} PrefixProcessed(costs: map<nat, Cost>, refunds: seq<Refund>, failing: set<nat>, away: Direction, n: nat)
    requires ArePending(refunds, costs) && n <= |refunds|
    ensures var done := refunds[..n];
            IsProcessed(costs, ProcessAll(costs, done, failing, away), done, failing, away)
    decreases n
  {
    if n == 0 {
    } else {
      PrefixProcessed(costs, refunds, failing, away, n - 1);
      assert refunds[..n][..n - 1] == refunds[..n - 1];
      ProcessStep(costs, ProcessAll(costs, refunds[..n - 1], failing, away), refunds, failing, away, n - 1);
    }
  }

  /**
   After a run over the refunds of any payments, with any inserts failing: older rows are untouched,
   and every refund of a payment with costs has its written reversal, or no row if its insert failed.
   */
  lemma RunProcesses(costs: map<nat, Cost>, refunds: seq<Refund>, failing: set<nat>, away: Direction)
    requires HasKeys(refunds)
    ensures var pending := WithoutCosts(refunds, costs);
            IsProcessed(costs, ProcessAll(costs, pending, failing, away), pending, failing, away)
  {
    var pending := WithoutCosts(refunds, costs);
    WithoutCostsArePending(refunds, costs);
    PrefixProcessed(costs, pending, failing, away, |pending|);
    assert pending[..|pending|] == pending;
  }

  // ----- What a run adds, column by column -----

  /** The row of a refund reverses the row of the payment that the refund names. */
  ghost predicate IsReversalFor(rows: map<nat, Cost>, r: Refund) {
    r.id in rows && r.original.Some? && r.original.value in rows && Reverses(rows[r.id], rows[r.original.value], r.amount)
  }

  ghost predicate IsReversalIn(rows: map<nat, Cost>, refunds: seq<Refund>, id: nat) {
    exists r :: r in refunds && r.id == id && IsReversalFor(rows, r)
  }

  ghost predicate NewRowsReverse(costs: map<nat, Cost>, after: map<nat, Cost>, refunds: seq<Refund>, failing: set<nat>) {
    forall p :: p in after && p !in costs ==> p !in failing && IsReversalIn(after, refunds, p)
  }

  /** Older rows stay, every new row reverses the payment of its refund, and only a failing insert keeps such a refund without a row. */
  ghost predicate AddsReversals(costs: map<nat, Cost>, after: map<nat, Cost>, refunds: seq<Refund>, failing: set<nat>) {
    && (forall p :: p in costs ==> p in after && after[p] == costs[p])
    && NewRowsReverse(costs, after, refunds, failing)
    && forall r :: r in refunds && r.original.Some? && r.original.value in costs && r.id !in failing ==> r.id in after
  }

  lemma ReversalStays(rows: map<nat, Cost>, after: map<nat, Cost>, refunds: seq<Refund>, refund: Refund, id: nat)
    requires Extends(rows, after) && IsReversalIn(rows, refunds, id)
    ensures IsReversalIn(after, refunds + [refund], id)
  {
    var r :| r in refunds && r.id == id && IsReversalFor(rows, r);
    assert r in refunds + [refund];
  }

  lemma ReversalIsAdded(rows: map<nat, Cost>, refunds: seq<Refund>, refund: Refund, failing: set<nat>, away: Direction)
    requires refund.id !in rows && refund.id in Process(rows, refund, failing, away)
    ensures refund.id !in failing && IsReversalIn(Process(rows, refund, failing, away), refunds + [refund], refund.id)
  {
    WrittenReverses(rows[refund.original.value], refund.amount, away);
    assert refund in refunds + [refund];
    assert IsReversalFor(Process(rows, refund, failing, away), refund);
  }

  lemma OneMoreReverses(costs: map<nat, Cost>, before: map<nat, Cost>, refunds: seq<Refund>, refund: Refund, failing: set<nat>, away: Direction)
    requires refund.id !in before && NewRowsReverse(costs, before, refunds, failing)
    ensures NewRowsReverse(costs, Process(before, refund, failing, away), refunds + [refund], failing)
  {
    var after := Process(before, refund, failing, away);
    forall p | p in after && p !in costs ensures p !in failing && IsReversalIn(after, refunds + [refund], p) {
      if p == refund.id {
        ReversalIsAdded(before, refunds, refund, failing, away);
      } else {
        ReversalStays(before, after, refunds, refund, p);
      }
    }
  }

  lemma NextIsUnwritten(costs: map<nat, Cost>, refunds: seq<Refund>, failing: set<nat>, away: Direction, n: nat)
    requires ArePending(refunds, costs) && n < |refunds|
    ensures refunds[n].id !in ProcessAll(costs, refunds[..n], failing, away)
    ensures ProcessAll(costs, refunds[..n + 1], failing, away)
         == Process(ProcessAll(costs, refunds[..n], failing, away), refunds[n], failing, away)
  {
    PrefixProcessed(costs, refunds, failing, away, n);
    ProcessStep(costs, ProcessAll(costs, refunds[..n], failing, away), refunds, failing, away, n);
    assert refunds[..n + 1][..n] == refunds[..n];
  }

  lemma {:induction false} PrefixReverses(costs: map<nat, Cost>, refunds: seq<Refund>, failing: set<nat>, away: Direction, n: nat)
    requires ArePending(refunds, costs) && n <= |refunds|
    ensures NewRowsReverse(costs, ProcessAll(costs, refunds[..n], failing, away), refunds[..n], failing)
    decreases n
  {
    if n == 0 {
    } else {
      PrefixReverses(costs, refunds, failing, away, n - 1);
      NextIsUnwritten(costs, refunds, failing, away, n - 1);
      OneMoreReverses(costs, ProcessAll(costs, refunds[..n - 1], failing, away), refunds[..n - 1], refunds[n - 1], failing, away);
      assert refunds[..n] == refunds[..n - 1] + [refunds[n - 1]];
    }
  }

  /** A run adds reversals, and nothing else. */
  lemma RunAddsReversals(costs: map<nat, Cost>, refunds: seq<Refund>, failing: set<nat>, away: Direction)
    requires HasKeys(refunds)
    ensures AddsReversals(costs, ProcessAll(costs, WithoutCosts(refunds, costs), failing, away), refunds, failing)
  {
    var pending := WithoutCosts(refunds, costs);
    var after := ProcessAll(costs, pending, failing, away);
    RunProcesses(costs, refunds, failing, away);
    WithoutCostsArePending(refunds, costs);
    WithoutCostsExact(refunds, costs);
    PrefixReverses(costs, pending, failing, away, |pending|);
    assert pending[..|pending|] == pending;
    forall p | p in after && p !in costs ensures IsReversalIn(after, refunds, p) {
      var r :| r in pending && r.id == p && IsReversalFor(after, r);
      assert r in refunds;
    }
    forall r | r in refunds && r.original.Some? && r.original.value in costs && r.id !in failing ensures r.id in after {
      if r.id !in costs {
        var k :| 0 <= k < |pending| && pending[k] == r;
        assert IsReversed(costs, after, pending[k], failing, away);
      }
    }
  }

  // ----- The refunds of one payment, among all others -----

  function RefundsOf(refunds: seq<Refund>, payment: nat): seq<Refund> {
    if refunds == [] then []
    else
      var n := |refunds| - 1;
      RefundsOf(refunds[..n], payment) + if refunds[n].original == Some(payment) then [refunds[n]] else []
  }

  function AmountsOf(refunds: seq<Refund>): seq<real> {
    seq(|refunds|, k requires 0 <= k < |refunds| => refunds[k].amount)
  }

  ghost predicate HaveRows(refunds: seq<Refund>, costs: map<nat, Cost>) {
    forall k :: 0 <= k < |refunds| ==> refunds[k].id in costs
  }

  function RowsOf(refunds: seq<Refund>, costs: map<nat, Cost>): seq<Cost>
    requires HaveRows(refunds, costs)
  {
    seq(|refunds|, k requires 0 <= k < |refunds| => costs[refunds[k].id])
  }

  lemma {:induction false} RefundsOfExact(refunds: seq<Refund>, payment: nat)
    ensures forall r :: r in RefundsOf(refunds, payment) <==> r in refunds && r.original == Some(payment)
    decreases |refunds|
  {
    if refunds == [] {
    } else {
      var n := |refunds| - 1;
      RefundsOfExact(refunds[..n], payment);
      assert refunds == refunds[..n] + [refunds[n]];
    }
  }

  /** Whatever else a run processes, the refunds of one payment end with the reversals of that payment alone. */
  lemma ReversalsOfPayment(costs: map<nat, Cost>, refunds: seq<Refund>, failing: set<nat>, away: Direction, payment: nat)
    requires HasKeys(refunds) && payment in costs
    requires forall r :: r in refunds && r.original == Some(payment) ==> r.id !in failing
    ensures var pending := WithoutCosts(refunds, costs);
            var own, after := RefundsOf(pending, payment), ProcessAll(costs, pending, failing, away);
            && HaveRows(own, after)
            && RowsOf(own, after) == WrittenAll(costs[payment], AmountsOf(own), away)
  {
    var pending := WithoutCosts(refunds, costs);
    var own, after := RefundsOf(pending, payment), ProcessAll(costs, pending, failing, away);
    RunProcesses(costs, refunds, failing, away);
    RefundsOfExact(pending, payment);
    WithoutCostsExact(refunds, costs);
    forall k | 0 <= k < |own|
      ensures own[k].id in after && after[own[k].id] == Written(costs[payment], own[k].amount, away)
    {
      assert own[k] in own && own[k] in pending;
      var l :| 0 <= l < |pending| && pending[l] == own[k];
      assert IsReversed(costs, after, pending[l], failing, away);
    }
  }

  /**
   A payment refunded in full by refunds of one run, mixed with any others: their rows cancel its
   amount, each cost column up to half a unit of the fourth decimal per refund, and a column exactly
   iff the rounding of its proportions adds up to nothing.
   */
  lemma RunCancelsPayment(costs: map<nat, Cost>, refunds: seq<Refund>, failing: set<nat>, away: Direction, payment: nat, column: Column)
    requires HasKeys(refunds) && payment in costs && costs[payment].amount > 0.0
    requires forall r :: r in refunds && r.original == Some(payment) ==> r.id !in failing
    requires Refunded(AmountsOf(RefundsOf(WithoutCosts(refunds, costs), payment))) == costs[payment].amount
    ensures var pending := WithoutCosts(refunds, costs);
            var own, after := RefundsOf(pending, payment), ProcessAll(costs, pending, failing, away);
            && HaveRows(own, after)
            && var w, original, amounts := Sum(RowsOf(own, after)), costs[payment], AmountsOf(own);
               && w.amount == -original.amount
               && IsNear(TotalOf(w, column), -Of(original, column), TENTH_MILLI, |own|)
               && (TotalOf(w, column) == -Of(original, column) <==> ColumnChange(Of(original, column), amounts, original.amount, away) == 0.0)
  {
    var own := RefundsOf(WithoutCosts(refunds, costs), payment);
    ReversalsOfPayment(costs, refunds, failing, away, payment);
    WrittenRefundsCancel(costs[payment], AmountsOf(own), away);
    WrittenCancelIff(costs[payment], AmountsOf(own), away, column);
  }

  // ----- Running again -----

  lemma {:induction false} RowsStay(costs: map<nat, Cost>, refunds: seq<Refund>, failing: set<nat>, away: Direction, k: nat, n: nat)
    requires k <= n <= |refunds|
    ensures forall p :: p in ProcessAll(costs, refunds[..k], failing, away) ==> p in ProcessAll(costs, refunds[..n], failing, away)
    decreases n - k
  {
    if k == n {
    } else {
      RowsStay(costs, refunds, failing, away, k, n - 1);
      assert refunds[..n][..n - 1] == refunds[..n - 1];
    }
  }

  /** A refund has a row after the run iff it was a success. */
  lemma RowIffSuccess(costs: map<nat, Cost>, refunds: seq<Refund>, failing: set<nat>, away: Direction, k: nat)
    requires ArePending(refunds, costs) && k < |refunds|
    ensures refunds[k].id in ProcessAll(costs, refunds, failing, away)
       <==> OutcomeAt(costs, refunds, failing, away, false, k) == Success
  {
    PrefixProcessed(costs, refunds, failing, away, k);
    ProcessStep(costs, ProcessAll(costs, refunds[..k], failing, away), refunds, failing, away, k);
    assert refunds[..k + 1][..k] == refunds[..k];
    RowDecidedAtOwnStep(costs, refunds, failing, away, k, |refunds|);
    assert refunds[..|refunds|] == refunds;
  }

  lemma {:induction false} RowDecidedAtOwnStep(costs: map<nat, Cost>, refunds: seq<Refund>, failing: set<nat>, away: Direction, k: nat, n: nat)
    requires HasKeys(refunds) && k < n <= |refunds|
    ensures refunds[k].id in ProcessAll(costs, refunds[..n], failing, away)
       <==> refunds[k].id in ProcessAll(costs, refunds[..k + 1], failing, away)
    decreases n
  {
    if n == k + 1 {
    } else {
      RowDecidedAtOwnStep(costs, refunds, failing, away, k, n - 1);
      assert refunds[..n][..n - 1] == refunds[..n - 1];
    }
  }

  predicate NamesCosts(refund: Refund, rows: map<nat, Cost>) {
    refund.original.Some? && refund.original.value in rows
  }

  lemma {:induction false} NothingToReverse(costs: map<nat, Cost>, refunds: seq<Refund>, failing: set<nat>, away: Direction)
    requires forall r :: r in refunds ==> !NamesCosts(r, costs)
    ensures ProcessAll(costs, refunds, failing, away) == costs
    decreases |refunds|
  {
    if refunds == [] {
    } else {
      NothingToReverse(costs, refunds[..|refunds| - 1], failing, away);
      assert refunds[|refunds| - 1] in refunds;
    }
  }

  /** A run whose inserts succeed writes nothing iff no pending refund names a payment with costs. */
  lemma RunIsIdleIff(costs: map<nat, Cost>, refunds: seq<Refund>, away: Direction)
    requires ArePending(refunds, costs)
    ensures ProcessAll(costs, refunds, {}, away) == costs
       <==> forall r :: r in refunds ==> !NamesCosts(r, costs)
  {
    if forall r :: r in refunds ==> !NamesCosts(r, costs) {
      NothingToReverse(costs, refunds, {}, away);
    } else {
      var r :| r in refunds && NamesCosts(r, costs);
      var k :| 0 <= k < |refunds| && refunds[k] == r;
      PrefixProcessed(costs, refunds, {}, away, |refunds|);
      assert refunds[..|refunds|] == refunds;
      assert IsReversed(costs, ProcessAll(costs, refunds, {}, away), refunds[k], {}, away);
    }
  }

  /** A refund without a row whose payment has costs: the next run writes it. */
  ghost predicate IsLeftOver(refund: Refund, rows: map<nat, Cost>) {
    refund.id !in rows && NamesCosts(refund, rows)
  }

  ghost predicate NoneLeftOver(refunds: seq<Refund>, rows: map<nat, Cost>) {
    forall k :: 0 <= k < |refunds| ==> !IsLeftOver(refunds[k], rows)
  }

  /** What a second run finds without costs was pending in the first. */
  lemma PendingAgain(refunds: seq<Refund>, costs: map<nat, Cost>, after: map<nat, Cost>, r: Refund)
    requires Extends(costs, after)
    ensures r in WithoutCosts(refunds, after) <==> r in WithoutCosts(refunds, costs) && r.id !in after
  {
    WithoutCostsExact(refunds, costs);
    WithoutCostsExact(refunds, after);
  }

  lemma SecondRunFindsLeftOver(costs: map<nat, Cost>, refunds: seq<Refund>, failing: set<nat>, away: Direction)
    requires HasKeys(refunds)
    ensures var pending := WithoutCosts(refunds, costs);
            var after := ProcessAll(costs, pending, failing, away);
            ProcessAll(after, WithoutCosts(refunds, after), {}, away) == after <==> NoneLeftOver(pending, after)
  {
    var pending := WithoutCosts(refunds, costs);
    var after := ProcessAll(costs, pending, failing, away);
    var again := WithoutCosts(refunds, after);
    WithoutCostsArePending(refunds, after);
    RunIsIdleIff(after, again, away);
    RunProcesses(costs, refunds, failing, away);
    forall k | 0 <= k < |pending| ensures IsLeftOver(pending[k], after) ==> pending[k] in again && NamesCosts(pending[k], after) {
      PendingAgain(refunds, costs, after, pending[k]);
    }
    forall r | r in again ensures r in pending && (NamesCosts(r, after) ==> IsLeftOver(r, after)) {
      PendingAgain(refunds, costs, after, r);
    }
  }

  /**
   Positions of refunds in a run: the first refunds a payment with costs, and each later one refunds
   the one before it.  The services refuse refunds of refunds, but the script follows them.
   */
  ghost predicate IsChain(costs: map<nat, Cost>, refunds: seq<Refund>, path: seq<nat>)
    decreases |path|
  {
    && path != []
    && var n := |path| - 1;
       && path[n] < |refunds| && refunds[path[n]].original.Some?
       && if n == 0 then refunds[path[n]].original.value in costs
          else IsChain(costs, refunds, path[..n]) && refunds[path[n]].original.value == refunds[path[n - 1]].id
  }

  /** The insert of the last refund fails, or the run comes to it before the refund that it refunds. */
  ghost predicate IsBroken(costs: map<nat, Cost>, refunds: seq<Refund>, failing: set<nat>, path: seq<nat>)
    requires IsChain(costs, refunds, path)
  {
    var n := |path| - 1;
    refunds[path[n]].id in failing || (n > 0 && path[n] <= path[n - 1])
  }

  ghost predicate NoneBroken(costs: map<nat, Cost>, refunds: seq<Refund>, failing: set<nat>) {
    forall path :: IsChain(costs, refunds, path) ==> !IsBroken(costs, refunds, failing, path)
  }

  lemma RowIsThere(costs: map<nat, Cost>, refunds: seq<Refund>, failing: set<nat>, away: Direction, j: nat, k: nat)
    requires HasKeys(refunds) && j < k <= |refunds| && refunds[j].id in ProcessAll(costs, refunds, failing, away)
    ensures refunds[j].id in ProcessAll(costs, refunds[..k], failing, away)
  {
    assert refunds[..|refunds|] == refunds;
    RowDecidedAtOwnStep(costs, refunds, failing, away, j, |refunds|);
    RowsStay(costs, refunds, failing, away, j + 1, k);
  }

  /** The last refund of a broken chain has no row. */
  lemma BrokenHasNoRow(costs: map<nat, Cost>, refunds: seq<Refund>, failing: set<nat>, away: Direction, path: seq<nat>)
    requires ArePending(refunds, costs) && IsChain(costs, refunds, path) && IsBroken(costs, refunds, failing, path)
    ensures refunds[path[|path| - 1]].id !in ProcessAll(costs, refunds, failing, away)
  {
    var n := |path| - 1;
    RowIffSuccess(costs, refunds, failing, away, path[n]);
    if refunds[path[n]].id !in failing {
      PrefixProcessed(costs, refunds, failing, away, path[n]);
    }
  }

  /** Where a chain ends without a row, one of its refunds is left over. */
  lemma {:induction false} ChainLeavesOver(costs: map<nat, Cost>, refunds: seq<Refund>, after: map<nat, Cost>, path: seq<nat>)
    requires IsChain(costs, refunds, path) && Extends(costs, after) && refunds[path[|path| - 1]].id !in after
    ensures !NoneLeftOver(refunds, after)
    decreases |path|
  {
    var n := |path| - 1;
    if n > 0 && refunds[path[n - 1]].id !in after {
      ChainLeavesOver(costs, refunds, after, path[..n]);
    } else {
      assert IsLeftOver(refunds[path[n]], after);
    }
  }

  ghost predicate EndsChain(costs: map<nat, Cost>, refunds: seq<Refund>, k: nat) {
    exists path :: IsChain(costs, refunds, path) && path[|path| - 1] == k
  }

  lemma ChainGrows(costs: map<nat, Cost>, refunds: seq<Refund>, path: seq<nat>, k: nat)
    requires IsChain(costs, refunds, path) && k < |refunds| && refunds[k].original == Some(refunds[path[|path| - 1]].id)
    ensures IsChain(costs, refunds, path + [k])
  {
    assert (path + [k])[..|path|] == path;
  }

  /** A refund with a row ends a chain. */
  lemma {:induction false} RowEndsChain(costs: map<nat, Cost>, refunds: seq<Refund>, failing: set<nat>, away: Direction, k: nat)
    requires ArePending(refunds, costs) && k < |refunds| && refunds[k].id in ProcessAll(costs, refunds, failing, away)
    ensures EndsChain(costs, refunds, k)
    decreases k
  {
    RowIffSuccess(costs, refunds, failing, away, k);
    var payment := refunds[k].original.value;
    if payment in costs {
      assert IsChain(costs, refunds, [k]);
    } else {
      PrefixProcessed(costs, refunds, failing, away, k);
      var j :| 0 <= j < k && refunds[..k][j].id == payment;
      RowsStay(costs, refunds, failing, away, k, |refunds|);
      assert refunds[..|refunds|] == refunds;
      RowEndsChain(costs, refunds, failing, away, j);
      var path :| IsChain(costs, refunds, path) && path[|path| - 1] == j;
      ChainGrows(costs, refunds, path, k);
    }
  }

  /** What is left over ends a broken chain. */
  lemma LeftOverIsBroken(costs: map<nat, Cost>, refunds: seq<Refund>, failing: set<nat>, away: Direction, k: nat)
    requires ArePending(refunds, costs) && k < |refunds| && IsLeftOver(refunds[k], ProcessAll(costs, refunds, failing, away))
    ensures !NoneBroken(costs, refunds, failing)
  {
    var payment := refunds[k].original.value;
    RowIffSuccess(costs, refunds, failing, away, k);
    if payment in costs {
      PrefixProcessed(costs, refunds, failing, away, k);
      assert IsChain(costs, refunds, [k]) && IsBroken(costs, refunds, failing, [k]);
    } else {
      PrefixProcessed(costs, refunds, failing, away, |refunds|);
      assert refunds[..|refunds|] == refunds;
      var j :| 0 <= j < |refunds| && refunds[j].id == payment;
      RowEndsChain(costs, refunds, failing, away, j);
      var path :| IsChain(costs, refunds, path) && path[|path| - 1] == j;
      ChainGrows(costs, refunds, path, k);
      if j < k {
        RowIsThere(costs, refunds, failing, away, j, k);
      }
      assert IsBroken(costs, refunds, failing, path + [k]);
    }
  }

  /**
   A second run, whose inserts succeed, writes nothing iff among the pending refunds no chain ended
   in one whose insert failed in the first, or which came before the refund that it refunds.
   */
  lemma SecondRunIsIdleIff(costs: map<nat, Cost>, refunds: seq<Refund>, failing: set<nat>, away: Direction)
    requires HasKeys(refunds)
    ensures var pending := WithoutCosts(refunds, costs);
            var after := ProcessAll(costs, pending, failing, away);
            ProcessAll(after, WithoutCosts(refunds, after), {}, away) == after <==> NoneBroken(costs, pending, failing)
  {
    var pending := WithoutCosts(refunds, costs);
    var after := ProcessAll(costs, pending, failing, away);
    SecondRunFindsLeftOver(costs, refunds, failing, away);
    WithoutCostsArePending(refunds, costs);
    RunProcesses(costs, refunds, failing, away);
    if !NoneBroken(costs, pending, failing) {
      var path :| IsChain(costs, pending, path) && IsBroken(costs, pending, failing, path);
      BrokenHasNoRow(costs, pending, failing, away, path);
      ChainLeavesOver(costs, pending, after, path);
    }
    if !NoneLeftOver(pending, after) {
      var k :| 0 <= k < |pending| && IsLeftOver(pending[k], after);
      LeftOverIsBroken(costs, pending, failing, away, k);
    }
  }

  /** No refund of the list refunds another of the list. */
  ghost predicate NoRefundOfRefund(refunds: seq<Refund>) {
    forall r, q :: r in refunds && q in refunds ==> r.original != Some(q.id)
  }

  lemma LongChainHasRefundOfRefund(costs: map<nat, Cost>, refunds: seq<Refund>, path: seq<nat>)
    requires IsChain(costs, refunds, path) && |path| > 1
    ensures !NoRefundOfRefund(refunds)
  {
    var n := |path| - 1;
    assert IsChain(costs, refunds, path[..n]);
    var last, before := refunds[path[n]], refunds[path[n - 1]];
    assert last in refunds && before in refunds && last.original == Some(before.id);
  }

  /** Without refunds of refunds, a second run writes nothing iff no refund of a payment with costs failed in the first. */
  lemma FailedInsertsComeBack(costs: map<nat, Cost>, refunds: seq<Refund>, failing: set<nat>, away: Direction)
    requires HasKeys(refunds) && NoRefundOfRefund(WithoutCosts(refunds, costs))
    ensures var pending := WithoutCosts(refunds, costs);
            var after := ProcessAll(costs, pending, failing, away);
            ProcessAll(after, WithoutCosts(refunds, after), {}, away) == after
            <==> forall r :: r in pending && NamesCosts(r, costs) ==> r.id !in failing
  {
    var pending := WithoutCosts(refunds, costs);
    SecondRunIsIdleIff(costs, refunds, failing, away);
    if r :| r in pending && NamesCosts(r, costs) && r.id in failing {
      var k :| 0 <= k < |pending| && pending[k] == r;
      assert IsChain(costs, pending, [k]) && IsBroken(costs, pending, failing, [k]);
    }
    forall path | IsChain(costs, pending, path)
      ensures var r := pending[path[|path| - 1]]; r in pending && NamesCosts(r, costs) && (IsBroken(costs, pending, failing, path) ==> r.id in failing)
    {
      if |path| > 1 {
        LongChainHasRefundOfRefund(costs, pending, path);
        assert false;
      }
    }
  }

  const ONE_REFUND: seq<Refund> := [Refund(1, -1.0, Some(0))]

  /** A refund whose insert failed is written by the second run. */
  lemma SecondRunCanWrite(original: Cost, away: Direction)
    ensures var costs := map[0 := original];
            var after := ProcessAll(costs, WithoutCosts(ONE_REFUND, costs), {1}, away);
            ProcessAll(after, WithoutCosts(ONE_REFUND, after), {}, away) != after
  {
    var costs := map[0 := original];
    WithoutCostsExact(ONE_REFUND, costs);
    assert ONE_REFUND[0] in WithoutCosts(ONE_REFUND, costs) && NamesCosts(ONE_REFUND[0], costs);
    FailedInsertsComeBack(costs, ONE_REFUND, {1}, away);
  }

  // ----- The script -----

  class Database {
    var costs: map<nat, Cost>

    constructor (rows: map<nat, Cost>)
      ensures costs == rows
    {
      costs := rows;
    }

    /**
     The loop over the refunds without costs.  A dry run counts and writes nothing; a live run
     writes the reversals of all refunds whose payment has costs by then.
     */
    method ProcessRefunds(pending: seq<Refund>, dryRun: bool, failing: set<nat>, away: Direction) returns (success: nat, skipped: nat, errors: nat)
      modifies this
      ensures success == Tally(old(costs), pending, failing, away, dryRun, Success, |pending|)
      ensures skipped == Tally(old(costs), pending, failing, away, dryRun, Skipped, |pending|)
      ensures errors == Tally(old(costs), pending, failing, away, dryRun, Failed, |pending|)
      ensures success + skipped + errors == |pending|
      ensures costs == if dryRun then old(costs) else ProcessAll(old(costs), pending, failing, away)
    {
      success, skipped, errors := 0, 0, 0;
      for i := 0 to |pending|
        invariant success == Tally(old(costs), pending, failing, away, dryRun, Success, i)
        invariant skipped == Tally(old(costs), pending, failing, away, dryRun, Skipped, i)
        invariant errors == Tally(old(costs), pending, failing, away, dryRun, Failed, i)
        invariant success + skipped + errors == i
        invariant costs == if dryRun then old(costs) else ProcessAll(old(costs), pending[..i], failing, away)
      {
        var refund := pending[i];
        assert pending[..i + 1][..i] == pending[..i];
        if refund.original.None? {
          skipped := skipped + 1;
          continue;
        }
        var originalId := refund.original.value;
        if originalId !in costs {
          skipped := skipped + 1;
          continue;
        }
        if dryRun {
          success := success + 1;
        } else if refund.id in failing {
          errors := errors + 1;
        } else {
          costs := costs[refund.id := Written(costs[originalId], refund.amount, away)];
          success := success + 1;
        }
      }
      assert pending[..|pending|] == pending;
    }

    /** The whole run.  Live, it leaves every pending refund of a payment with costs with its written reversal. */
    method Run(refunds: seq<Refund>, dryRun: bool, failing: set<nat>, away: Direction) returns (success: nat, skipped: nat, errors: nat)
      requires HasKeys(refunds)
      modifies this
      ensures var pending := WithoutCosts(refunds, old(costs));
              && success == Tally(old(costs), pending, failing, away, dryRun, Success, |pending|)
              && skipped == Tally(old(costs), pending, failing, away, dryRun, Skipped, |pending|)
              && errors == Tally(old(costs), pending, failing, away, dryRun, Failed, |pending|)
              && success + skipped + errors == |pending|
      ensures dryRun ==> costs == old(costs)
      ensures !dryRun ==> AddsReversals(old(costs), costs, refunds, failing)
      ensures !dryRun ==>
                && costs == ProcessAll(old(costs), WithoutCosts(refunds, old(costs)), failing, away)
                && IsProcessed(old(costs), costs, WithoutCosts(refunds, old(costs)), failing, away)
    {
      RunProcesses(costs, refunds, failing, away);
      RunAddsReversals(costs, refunds, failing, away);
      success, skipped, errors := ProcessRefunds(WithoutCosts(refunds, costs), dryRun, failing, away);
    }
  }
}
