/**
 The backfill of missing custom items: mobile orders whose payments exceed their items get one
 synthetic item for the difference.  Amounts are in cents.
 */
module CustomItems {
  import opened Options

  type Instant = int

  datatype Item = Item(product: Option<string>, total: int, sequence: int)

  datatype Payment = Payment(regular: bool, completed: bool, amount: int, refunded: int)

  datatype Order = Order(id: nat, source: string, venue: string, createdAt: Instant,
                         subtotal: int, tip: int, total: int, items: seq<Item>, payments: seq<Payment>)

  /** The environment of the script: sources, and optionally a venue and a date range. */
  datatype Scope = Scope(sources: set<string>, venue: Option<string>, since: Option<Instant>, until: Option<Instant>)

  ghost predicate HasKeys(orders: seq<Order>) {
    forall i, j :: 0 <= i < j < |orders| ==> orders[i].id != orders[j].id
  }

  predicate Counts(p: Payment) {
    p.regular && p.completed
  }

  /** The payments that the query includes with an order. */
  function IncludedPayments(payments: seq<Payment>): seq<Payment> {
    if payments == [] then []
    else
      var n := |payments| - 1;
      IncludedPayments(payments[..n]) + if Counts(payments[n]) then [payments[n]] else []
  }

  /** The orders that the query selects. */
  predicate IsScanned(o: Order, scope: Scope) {
    && o.source in scope.sources
    && (scope.venue.Some? ==> o.venue == scope.venue.value)
    && (scope.since.Some? ==> scope.since.value <= o.createdAt)
    && (scope.until.Some? ==> o.createdAt <= scope.until.value)
    && exists k | 0 <= k < |o.payments| :: Counts(o.payments[k])
  }

  // ----- What happens to one order -----

  function ItemsTotal(items: seq<Item>): int {
    if items == [] then 0 else ItemsTotal(items[..|items| - 1]) + items[|items| - 1].total
  }

  function PaymentsTotal(payments: seq<Payment>): int {
    if payments == [] then 0 else PaymentsTotal(payments[..|payments| - 1]) + payments[|payments| - 1].amount
  }

  predicate HasRefund(payments: seq<Payment>) {
    exists k | 0 <= k < |payments| :: payments[k].refunded > 0
  }

  /** An item without a product is a custom amount; an empty key counts as none. */
  predicate IsCustom(i: Item) {
    i.product.None? || i.product.value == ""
  }

  predicate HasCustom(items: seq<Item>) {
    exists k | 0 <= k < |items| :: IsCustom(items[k])
  }

  /** The largest of the sequence numbers and -1. */
  function LastSequence(items: seq<Item>): int {
    if items == [] then -1
    else
      var rest := LastSequence(items[..|items| - 1]);
      var s := items[|items| - 1].sequence;
      if s > rest then s else rest
  }

  /** Differences up to this many cents are ignored. */
  const TOLERANCE: int := 1

  datatype Fix = Fix(order: nat, delta: int, newSubtotal: int, tip: int, nextSequence: int)

  datatype Verdict = SkipNoPayments | SkipHasRefund | SkipHasCustom | SkipClean | SkipNegative | Repair(fix: Fix)

  function FixOf(o: Order): Fix {
    var itemsTotal := ItemsTotal(o.items);
    var delta := PaymentsTotal(IncludedPayments(o.payments)) - itemsTotal;
    Fix(o.id, delta, itemsTotal + delta, o.tip, LastSequence(o.items) + 1)
  }

  /** The branches of the classification, in their order. */
  function VerdictOf(o: Order): Verdict {
    var payments := IncludedPayments(o.payments);
    if payments == [] then SkipNoPayments
    else if HasRefund(payments) then SkipHasRefund
    else if HasCustom(o.items) then SkipHasCustom
    else if FixOf(o).delta <= TOLERANCE then SkipClean
    else if FixOf(o).delta < 0 then SkipNegative
    else Repair(FixOf(o))
  }

  function Fixes(orders: seq<Order>, scope: Scope): seq<Fix> {
    if orders == [] then []
    else
      var o := orders[|orders| - 1];
      Fixes(orders[..|orders| - 1], scope) + if IsScanned(o, scope) && VerdictOf(o).Repair? then [FixOf(o)] else []
  }

  /** How many scanned orders got a verdict. */
  function Tally(orders: seq<Order>, scope: Scope, verdict: Verdict): nat {
    if orders == [] then 0
    else
      var o := orders[|orders| - 1];
      Tally(orders[..|orders| - 1], scope, verdict) + if IsScanned(o, scope) && VerdictOf(o) == verdict then 1 else 0
  }

  function Scanned(orders: seq<Order>, scope: Scope): nat {
    if orders == [] then 0
    else Scanned(orders[..|orders| - 1], scope) + if IsScanned(orders[|orders| - 1], scope) then 1 else 0
  }

  // ----- What the transaction of one order writes -----

  function Repaired(o: Order, fix: Fix): Order {
    o.(items := o.items + [Item(None, fix.delta, fix.nextSequence)],
       subtotal := fix.newSubtotal,
       total := fix.newSubtotal + fix.tip)
  }

  function ApplyFix(orders: seq<Order>, fix: Fix): seq<Order> {
    seq(|orders|, k requires 0 <= k < |orders| => if orders[k].id == fix.order then Repaired(orders[k], fix) else orders[k])
  }

  /** The transactions of a list of fixes; those of `failing` orders are rolled back. */
  function ApplyFixes(orders: seq<Order>, fixes: seq<Fix>, failing: set<nat>): seq<Order> {
    if fixes == [] then orders
    else
      var n := |fixes| - 1;
      var before := ApplyFixes(orders, fixes[..n], failing);
      if fixes[n].order in failing then before else ApplyFix(before, fixes[n])
  }

  function FailedCount(fixes: seq<Fix>, failing: set<nat>): nat {
    if fixes == [] then 0
    else FailedCount(fixes[..|fixes| - 1], failing) + if fixes[|fixes| - 1].order in failing then 1 else 0
  }

  // ----- Laws of one order -----

  lemma {:induction false} SequencesBelow(items: seq<Item>)
    ensures LastSequence(items) >= -1
    ensures forall k :: 0 <= k < |items| ==> items[k].sequence <= LastSequence(items)
    decreases |items|
  {
    if items == [] {
    } else {
      SequencesBelow(items[..|items| - 1]);
      forall k | 0 <= k < |items| - 1 ensures items[k].sequence <= LastSequence(items) {
        assert items[k] == items[..|items| - 1][k];
      }
    }
  }

  lemma {:induction false} IncludedIffCounts(payments: seq<Payment>)
    ensures IncludedPayments(payments) == []
       <==> forall k :: 0 <= k < |payments| ==> !Counts(payments[k])
    decreases |payments|
  {
    if payments == [] {
    } else {
      var n := |payments| - 1;
      IncludedIffCounts(payments[..n]);
      forall k | 0 <= k < n ensures payments[k] == payments[..n][k] {
      }
    }
  }

  /**
   Which orders are repaired: those without a refund and without a custom item whose payments
   exceed their items by at least two cents.  The negative and the no-payment skips never happen.
   */
  lemma RepairedIff(o: Order, scope: Scope)
    requires IsScanned(o, scope)
    ensures VerdictOf(o) != SkipNegative && VerdictOf(o) != SkipNoPayments
    ensures VerdictOf(o).Repair? <==>
              && !HasRefund(IncludedPayments(o.payments)) && !HasCustom(o.items)
              && PaymentsTotal(IncludedPayments(o.payments)) >= ItemsTotal(o.items) + 2
  {
    IncludedIffCounts(o.payments);
  }

  /** A repaired order balances to the cent, and its new line comes after all others. */
  lemma RepairBalances(o: Order)
    requires VerdictOf(o).Repair?
    ensures var r := Repaired(o, FixOf(o));
            && ItemsTotal(r.items) == PaymentsTotal(IncludedPayments(r.payments))
            && r.subtotal == ItemsTotal(r.items) && r.total == r.subtotal + r.tip
            && |r.items| == |o.items| + 1 && r.items[..|o.items|] == o.items
            && r.items[|o.items|].sequence >= 0
            && (forall k :: 0 <= k < |o.items| ==> o.items[k].sequence < r.items[|o.items|].sequence)
            && VerdictOf(r) == SkipHasCustom
  {
    var r := Repaired(o, FixOf(o));
    assert r.items[..|o.items|] == o.items;
    SequencesBelow(o.items);
    assert IsCustom(r.items[|o.items|]);
  }

  /** An order that is one cent short stays so. */
  lemma OneCentIsSkipped()
    ensures exists o: Order :: PaymentsTotal(IncludedPayments(o.payments)) == ItemsTotal(o.items) + 1
                        && !HasRefund(IncludedPayments(o.payments)) && !HasCustom(o.items) && VerdictOf(o) == SkipClean
  {
    var paid := Payment(true, true, 101, 0);
    var o := Order(0, "APP", "v", 0, 100, 0, 100, [Item(Some("p"), 100, 0)], [paid]);
    assert o.items[..0] == [] && o.payments[..0] == [];
    assert IncludedPayments(o.payments) == IncludedPayments([]) + [paid] == [paid];
    assert [paid][..0] == [] && PaymentsTotal([paid]) == PaymentsTotal([]) + 101;
    assert ItemsTotal(o.items) == ItemsTotal([]) + 100;
    assert VerdictOf(o) == SkipClean;
  }

  // ----- Laws of a run -----

  /** Repaired and skipped orders partition the scanned ones; two of the five skip counts are always zero. */
  lemma {:induction false} VerdictsPartition(orders: seq<Order>, scope: Scope)
    ensures Scanned(orders, scope)
         == |Fixes(orders, scope)| + Tally(orders, scope, SkipHasRefund) + Tally(orders, scope, SkipHasCustom) + Tally(orders, scope, SkipClean)
    ensures Tally(orders, scope, SkipNegative) == 0
    ensures Tally(orders, scope, SkipNoPayments) == 0
    decreases |orders|
  {
    if orders == [] {
    } else {
      var o := orders[|orders| - 1];
      VerdictsPartition(orders[..|orders| - 1], scope);
      if IsScanned(o, scope) {
        RepairedIff(o, scope);
      }
    }
  }

  function OrderAfter(o: Order, scope: Scope, failing: set<nat>): Order {
    if IsScanned(o, scope) && VerdictOf(o).Repair? && o.id !in failing then Repaired(o, FixOf(o)) else o
  }

  /** The rows after the fixes of the first `n` orders. */
  ghost predicate AreOrdersAfter(orders: seq<Order>, after: seq<Order>, scope: Scope, failing: set<nat>, n: nat) {
    && |after| == |orders|
    && forall k :: 0 <= k < |orders| ==> after[k] == if k < n then OrderAfter(orders[k], scope, failing) else orders[k]
  }

  lemma ApplyOneMore(orders: seq<Order>, fixes: seq<Fix>, fix: Fix, failing: set<nat>)
    ensures ApplyFixes(orders, fixes + [fix], failing)
         == var before := ApplyFixes(orders, fixes, failing); if fix.order in failing then before else ApplyFix(before, fix)
  {
    assert (fixes + [fix])[..|fixes|] == fixes;
  }

  predicate NeedsFix(o: Order, scope: Scope) {
    IsScanned(o, scope) && VerdictOf(o).Repair?
  }

  /** What the order at `n` adds to the transactions of the orders before it. */
  lemma ApplyFixesStep(orders: seq<Order>, scope: Scope, failing: set<nat>, n: nat)
    requires n < |orders|
    ensures ApplyFixes(orders, Fixes(orders[..n + 1], scope), failing)
         == var before := ApplyFixes(orders, Fixes(orders[..n], scope), failing);
            if NeedsFix(orders[n], scope) && orders[n].id !in failing then ApplyFix(before, FixOf(orders[n])) else before
  {
    var fixes := Fixes(orders[..n], scope);
    assert orders[..n + 1][..n] == orders[..n];
    if NeedsFix(orders[n], scope) {
      assert FixOf(orders[n]).order == orders[n].id;
      ApplyOneMore(orders, fixes, FixOf(orders[n]), failing);
    } else {
      assert fixes + [] == fixes;
    }
  }

  lemma NextOrderAfter(orders: seq<Order>, after: seq<Order>, after': seq<Order>, scope: Scope, failing: set<nat>, n: nat)
    requires HasKeys(orders) && n < |orders| && AreOrdersAfter(orders, after, scope, failing, n)
    requires after' == if NeedsFix(orders[n], scope) && orders[n].id !in failing then ApplyFix(after, FixOf(orders[n])) else after
    ensures AreOrdersAfter(orders, after', scope, failing, n + 1)
  {
  }

  lemma {:induction false} OrdersAfter(orders: seq<Order>, scope: Scope, failing: set<nat>, n: nat)
    requires HasKeys(orders) && n <= |orders|
    ensures AreOrdersAfter(orders, ApplyFixes(orders, Fixes(orders[..n], scope), failing), scope, failing, n)
    decreases n
  {
    if n == 0 {
    } else {
      OrdersAfter(orders, scope, failing, n - 1);
      ApplyFixesStep(orders, scope, failing, n - 1);
      NextOrderAfter(orders, ApplyFixes(orders, Fixes(orders[..n - 1], scope), failing),
                     ApplyFixes(orders, Fixes(orders[..n], scope), failing), scope, failing, n - 1);
    }
  }

  /** A second run: whatever was repaired is skipped as having a custom item. */
  lemma SecondVerdict(o: Order, scope: Scope, failing: set<nat>)
    ensures var o' := OrderAfter(o, scope, failing);
            IsScanned(o', scope) && VerdictOf(o').Repair? <==> IsScanned(o, scope) && VerdictOf(o).Repair? && o.id in failing
  {
    if IsScanned(o, scope) && VerdictOf(o).Repair? {
      RepairBalances(o);
    }
  }

  lemma {:induction false} NoFixesIff(orders: seq<Order>, scope: Scope)
    ensures Fixes(orders, scope) == []
       <==> forall k :: 0 <= k < |orders| ==> !(IsScanned(orders[k], scope) && VerdictOf(orders[k]).Repair?)
    decreases |orders|
  {
    if orders == [] {
    } else {
      var n := |orders| - 1;
      NoFixesIff(orders[..n], scope);
      forall k | 0 <= k < n ensures orders[k] == orders[..n][k] {
      }
    }
  }

  /** The second run finds work iff a transaction of the first run failed. */
  lemma SecondRunFindsFailures(orders: seq<Order>, scope: Scope, failing: set<nat>)
    requires HasKeys(orders)
    ensures var after := ApplyFixes(orders, Fixes(orders, scope), failing);
            Fixes(after, scope) == []
            <==> forall k :: 0 <= k < |orders| && IsScanned(orders[k], scope) && VerdictOf(orders[k]).Repair? ==> orders[k].id !in failing
  {
    var after := ApplyFixes(orders, Fixes(orders, scope), failing);
    assert orders[..|orders|] == orders;
    OrdersAfter(orders, scope, failing, |orders|);
    NoFixesIff(after, scope);
    forall k | 0 <= k < |orders|
      ensures IsScanned(after[k], scope) && VerdictOf(after[k]).Repair?
         <==> IsScanned(orders[k], scope) && VerdictOf(orders[k]).Repair? && orders[k].id in failing
    {
      SecondVerdict(orders[k], scope, failing);
    }
  }

  // ----- What a run does, column by column -----

  function Total(amounts: seq<int>): int {
    if amounts == [] then 0 else Total(amounts[..|amounts| - 1]) + amounts[|amounts| - 1]
  }

  function AmountsOf(payments: seq<Payment>): seq<int> {
    seq(|payments|, k requires 0 <= k < |payments| => if payments[k].regular && payments[k].completed then payments[k].amount else 0)
  }

  function TotalsOf(items: seq<Item>): seq<int> {
    seq(|items|, k requires 0 <= k < |items| => items[k].total)
  }

  /** The amounts of the regular, completed payments, together. */
  function Paid(o: Order): int {
    Total(AmountsOf(o.payments))
  }

  function Listed(o: Order): int {
    Total(TotalsOf(o.items))
  }

  /**
   In scope, paid at all, nothing of it refunded, every item with a product, and paid more than a cent
   above its items.
   */
  ghost predicate LacksItem(o: Order, scope: Scope) {
    && o.source in scope.sources && (scope.venue.None? || o.venue == scope.venue.value)
    && (scope.since.None? || o.createdAt >= scope.since.value) && (scope.until.None? || o.createdAt <= scope.until.value)
    && (exists p :: p in o.payments && p.regular && p.completed)
    && (forall p :: p in o.payments && p.regular && p.completed ==> p.refunded <= 0)
    && (forall i :: i in o.items ==> i.product.Some? && i.product.value != "")
    && Paid(o) - Listed(o) > 1
  }

  /** One item more, without a product, for what was paid above the items and numbered behind them all; and the totals that follow. */
  ghost predicate GetsItem(o: Order, after: Order) {
    && after == o.(items := after.items, subtotal := after.subtotal, total := after.total)
    && |after.items| == |o.items| + 1 && after.items[..|o.items|] == o.items
    && after.subtotal == Paid(o) && after.total == Paid(o) + o.tip
    && var item := after.items[|o.items|];
       && item.product.None? && item.total == Paid(o) - Listed(o) && item.sequence >= 0
       && (forall i :: i in o.items ==> i.sequence < item.sequence)
       && (item.sequence == 0 || exists i :: i in o.items && i.sequence == item.sequence - 1)
  }

  ghost predicate AddsItems(orders: seq<Order>, after: seq<Order>, scope: Scope, failing: set<nat>) {
    && |after| == |orders|
    && forall k :: 0 <= k < |orders| ==>
         if LacksItem(orders[k], scope) && orders[k].id !in failing then GetsItem(orders[k], after[k]) else after[k] == orders[k]
  }

  ghost function Where(orders: seq<Order>, holds: Order -> bool): set<nat> {
    set k: nat | k < |orders| && holds(orders[k])
  }

  ghost function Lacks(scope: Scope): Order -> bool {
    o => LacksItem(o, scope)
  }

  lemma OneMoreAmount(amounts: seq<int>, more: int)
    ensures Total(amounts + [more]) == Total(amounts) + more
  {
    assert (amounts + [more])[..|amounts|] == amounts;
  }

  lemma IncludedStep(payments: seq<Payment>)
    requires payments != []
    ensures var n := |payments| - 1;
            PaymentsTotal(IncludedPayments(payments))
            == PaymentsTotal(IncludedPayments(payments[..n])) + if payments[n].regular && payments[n].completed then payments[n].amount else 0
  {
    var n := |payments| - 1;
    var rest := IncludedPayments(payments[..n]);
    assert (rest + [payments[n]])[..|rest|] == rest && rest + [] == rest;
  }

  lemma {:induction false} PaidIsIncluded(payments: seq<Payment>)
    ensures Total(AmountsOf(payments)) == PaymentsTotal(IncludedPayments(payments))
    decreases |payments|
  {
    if payments == [] {
    } else {
      var n := |payments| - 1;
      var amounts := AmountsOf(payments[..n]);
      PaidIsIncluded(payments[..n]);
      IncludedStep(payments);
      OneMoreAmount(amounts, AmountsOf(payments)[n]);
      assert AmountsOf(payments) == amounts + [AmountsOf(payments)[n]];
    }
  }

  lemma {:induction false} ListedIsTotal(items: seq<Item>)
    ensures Total(TotalsOf(items)) == ItemsTotal(items)
    decreases |items|
  {
    if items == [] {
    } else {
      var n := |items| - 1;
      ListedIsTotal(items[..n]);
      OneMoreAmount(TotalsOf(items[..n]), items[n].total);
      assert TotalsOf(items) == TotalsOf(items[..n]) + [items[n].total];
    }
  }

  lemma {:induction false} IncludedExact(payments: seq<Payment>)
    ensures forall p :: p in IncludedPayments(payments) <==> p in payments && p.regular && p.completed
    decreases |payments|
  {
    if payments == [] {
    } else {
      var n := |payments| - 1;
      IncludedExact(payments[..n]);
      assert payments == payments[..n] + [payments[n]];
    }
  }

  lemma HasRefundIff(payments: seq<Payment>)
    ensures HasRefund(IncludedPayments(payments)) <==> exists p :: p in payments && p.regular && p.completed && p.refunded > 0
  {
    IncludedExact(payments);
    if p :| p in payments && p.regular && p.completed && p.refunded > 0 {
      var included := IncludedPayments(payments);
      var k :| 0 <= k < |included| && included[k] == p;
    }
  }

  lemma HasCustomIff(items: seq<Item>)
    ensures HasCustom(items) <==> exists i :: i in items && (i.product.None? || i.product.value == "")
  {
    if i :| i in items && (i.product.None? || i.product.value == "") {
      var k :| 0 <= k < |items| && items[k] == i;
      assert IsCustom(items[k]);
    }
  }

  lemma IsScannedIff(o: Order, scope: Scope)
    ensures IsScanned(o, scope)
       <==> && o.source in scope.sources && (scope.venue.None? || o.venue == scope.venue.value)
            && (scope.since.None? || o.createdAt >= scope.since.value) && (scope.until.None? || o.createdAt <= scope.until.value)
            && exists p :: p in o.payments && p.regular && p.completed
  {
    if p :| p in o.payments && p.regular && p.completed {
      var k :| 0 <= k < |o.payments| && o.payments[k] == p;
      assert Counts(o.payments[k]);
    }
  }

  /** Why a scanned order is skipped: refunds come first, then custom items, then the balance. */
  lemma SkippedIff(o: Order, scope: Scope)
    requires IsScanned(o, scope)
    ensures VerdictOf(o) == SkipHasRefund <==> exists p :: p in o.payments && p.regular && p.completed && p.refunded > 0
    ensures VerdictOf(o) == SkipHasCustom
       <==> && (forall p :: p in o.payments && p.regular && p.completed ==> p.refunded <= 0)
            && exists i :: i in o.items && (i.product.None? || i.product.value == "")
  {
    RepairedIff(o, scope);
    HasRefundIff(o.payments);
    HasCustomIff(o.items);
  }

  /** The orders that are repaired are those that lack an item. */
  lemma NeedsFixIff(o: Order, scope: Scope)
    ensures NeedsFix(o, scope) <==> LacksItem(o, scope)
  {
    IsScannedIff(o, scope);
    if IsScanned(o, scope) {
      RepairedIff(o, scope);
      HasRefundIff(o.payments);
      HasCustomIff(o.items);
      PaidIsIncluded(o.payments);
      ListedIsTotal(o.items);
    }
  }

  lemma {:induction false} LastSequenceIsUsed(items: seq<Item>)
    ensures LastSequence(items) == -1 || exists i :: i in items && i.sequence == LastSequence(items)
    decreases |items|
  {
    if items == [] {
    } else {
      var n := |items| - 1;
      LastSequenceIsUsed(items[..n]);
      assert items == items[..n] + [items[n]];
    }
  }

  lemma RepairedGetsItem(o: Order)
    ensures GetsItem(o, Repaired(o, FixOf(o)))
  {
    var r := Repaired(o, FixOf(o));
    PaidIsIncluded(o.payments);
    ListedIsTotal(o.items);
    SequencesBelow(o.items);
    LastSequenceIsUsed(o.items);
    assert r.items[..|o.items|] == o.items;
  }

  /** Exactly the orders that lack an item get one, unless their transaction fails. */
  lemma AfterAddsItems(orders: seq<Order>, after: seq<Order>, scope: Scope, failing: set<nat>)
    requires AreOrdersAfter(orders, after, scope, failing, |orders|)
    ensures AddsItems(orders, after, scope, failing)
  {
    forall k | 0 <= k < |orders|
      ensures if LacksItem(orders[k], scope) && orders[k].id !in failing then GetsItem(orders[k], after[k]) else after[k] == orders[k]
    {
      NeedsFixIff(orders[k], scope);
      RepairedGetsItem(orders[k]);
    }
  }

  lemma WhereStep(orders: seq<Order>, holds: Order -> bool)
    requires orders != []
    ensures var n := |orders| - 1;
            |Where(orders, holds)| == |Where(orders[..n], holds)| + if holds(orders[n]) then 1 else 0
  {
    var n := |orders| - 1;
    var rest := Where(orders[..n], holds);
    if holds(orders[n]) {
      assert Where(orders, holds) == rest + {n};
    } else {
      assert Where(orders, holds) == rest;
    }
  }

  /** The fixes are as many as the orders that lack an item. */
  lemma {:induction false} FixesAreLacking(orders: seq<Order>, scope: Scope)
    ensures |Fixes(orders, scope)| == |Where(orders, Lacks(scope))|
    decreases |orders|
  {
    if orders == [] {
    } else {
      FixesAreLacking(orders[..|orders| - 1], scope);
      NeedsFixIff(orders[|orders| - 1], scope);
      WhereStep(orders, Lacks(scope));
    }
  }

  // ----- The script -----

  datatype Report = Report(repaired: nat, failed: nat, needing: nat,
                           skippedHasCustom: nat, skippedClean: nat, skippedNegative: nat, skippedNoPayments: nat, skippedHasRefund: nat)

  class Store {
    var orders: seq<Order>

    constructor (rows: seq<Order>)
      ensures orders == rows
    {
      orders := rows;
    }

    /** The classification loop. */
    method Classify(scope: Scope) returns (fixes: seq<Fix>, report: Report)
      ensures fixes == Fixes(orders, scope)
      ensures report == Report(0, 0, |fixes|, Tally(orders, scope, SkipHasCustom), Tally(orders, scope, SkipClean),
                               Tally(orders, scope, SkipNegative), Tally(orders, scope, SkipNoPayments), Tally(orders, scope, SkipHasRefund))
    {
      fixes := [];
      var hasCustom, clean, negative, noPayments, hasRefund := 0, 0, 0, 0, 0;
      for i := 0 to |orders|
        invariant fixes == Fixes(orders[..i], scope)
        invariant hasCustom == Tally(orders[..i], scope, SkipHasCustom) && clean == Tally(orders[..i], scope, SkipClean)
        invariant negative == Tally(orders[..i], scope, SkipNegative) && noPayments == Tally(orders[..i], scope, SkipNoPayments)
        invariant hasRefund == Tally(orders[..i], scope, SkipHasRefund)
      {
        var o := orders[i];
        assert orders[..i + 1][..i] == orders[..i];
        if !IsScanned(o, scope) {
          continue;
        }
        var payments := IncludedPayments(o.payments);
        if payments == [] {
          noPayments := noPayments + 1;
          continue;
        }
        if HasRefund(payments) {
          hasRefund := hasRefund + 1;
          continue;
        }
        if HasCustom(o.items) {
          hasCustom := hasCustom + 1;
          continue;
        }
        var itemsTotal := ItemsTotal(o.items);
        var delta := PaymentsTotal(payments) - itemsTotal;
        if delta <= TOLERANCE {
          clean := clean + 1;
          continue;
        }
        if delta < 0 {
          negative := negative + 1;
          continue;
        }
        fixes := fixes + [Fix(o.id, delta, itemsTotal + delta, o.tip, LastSequence(o.items) + 1)];
      }
      assert orders[..|orders|] == orders;
      report := Report(0, 0, |fixes|, hasCustom, clean, negative, noPayments, hasRefund);
    }

    /** The repair loop: one transaction per fix; a failing one leaves its order alone and is counted. */
    method Repair(fixes: seq<Fix>, failing: set<nat>) returns (ok: nat, failed: nat)
      modifies this
      ensures orders == ApplyFixes(old(orders), fixes, failing)
      ensures failed == FailedCount(fixes, failing) && ok + failed == |fixes|
    {
      ok, failed := 0, 0;
      for i := 0 to |fixes|
        invariant orders == ApplyFixes(old(orders), fixes[..i], failing)
        invariant failed == FailedCount(fixes[..i], failing) && ok + failed == i
      {
        assert fixes[..i + 1][..i] == fixes[..i];
        if fixes[i].order in failing {
          failed := failed + 1;
        } else {
          orders := ApplyFix(orders, fixes[i]);
          ok := ok + 1;
        }
      }
      assert fixes[..|fixes|] == fixes;
    }

    method Run(scope: Scope, execute: bool, failing: set<nat>) returns (report: Report)
      requires HasKeys(orders)
      modifies this
      ensures HasKeys(orders)
      ensures !execute ==> orders == old(orders)
      ensures execute ==> AreOrdersAfter(old(orders), orders, scope, failing, |old(orders)|)
      ensures execute ==> AddsItems(old(orders), orders, scope, failing)
      ensures report.needing == |Where(old(orders), Lacks(scope))|
      ensures Scanned(old(orders), scope) == report.needing + report.skippedHasRefund + report.skippedHasCustom + report.skippedClean
      ensures report.skippedNegative == 0 && report.skippedNoPayments == 0
      ensures execute ==> report.repaired + report.failed == report.needing && report.failed == FailedCount(Fixes(old(orders), scope), failing)
    {
      var fixes;
      fixes, report := Classify(scope);
      VerdictsPartition(orders, scope);
      assert orders[..|orders|] == orders;
      OrdersAfter(orders, scope, failing, |orders|);
      AfterAddsItems(orders, ApplyFixes(orders, Fixes(orders, scope), failing), scope, failing);
      FixesAreLacking(orders, scope);
      if |fixes| == 0 || !execute {
        return;
      }
      var ok, failed := Repair(fixes, failing);
      report := report.(repaired := ok, failed := failed);
    }
  }
}
