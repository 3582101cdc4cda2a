/**
 The order and shift history of the demo seed: per-line rounding against the order total, and the
 closing of each day's shift.  Amounts are in cents; rounding is to the nearest cent.
 */
module SeedShifts {

  // ----- Rounding to cents -----

  /** `r` is a nearest integer to `n / d`, whichever way halves go. */
  predicate IsNearest(r: int, n: int, d: int) {
    -d <= 2 * (r * d - n) <= d
  }

  /** The nearest integer, halves up. */
  function Rounded(n: int, d: int): (r: int)
    requires d > 0
    ensures IsNearest(r, n, d)
  {
    (2 * n + d) / (2 * d)
  }

  // ----- Lines and orders -----

  datatype Line = Line(price: nat, quantity: nat, modifiers: seq<nat>)

  function SumOf(prices: seq<nat>): nat {
    if prices == [] then 0 else SumOf(prices[..|prices| - 1]) + prices[|prices| - 1]
  }

  lemma OneMorePrice(prices: seq<nat>, price: nat)
    ensures SumOf(prices + [price]) == SumOf(prices) + price
  {
    assert (prices + [price])[..|prices|] == prices;
  }

  function Base(line: Line): nat {
    line.price * line.quantity + SumOf(line.modifiers)
  }

  function Subtotal(lines: seq<Line>): nat {
    if lines == [] then 0 else Subtotal(lines[..|lines| - 1]) + Base(lines[|lines| - 1])
  }

  function Products(lines: seq<Line>): nat {
    if lines == [] then 0 else Products(lines[..|lines| - 1]) + lines[|lines| - 1].quantity
  }

  datatype ItemRow = ItemRow(quantity: nat, unitPrice: nat, tax: int, total: int)

  datatype OrderRow = OrderRow(subtotal: int, tax: int, total: int, tip: int, items: seq<ItemRow>)

  function ItemTotals(items: seq<ItemRow>): int {
    if items == [] then 0 else ItemTotals(items[..|items| - 1]) + items[|items| - 1].total
  }

  function ItemTaxes(items: seq<ItemRow>): int {
    if items == [] then 0 else ItemTaxes(items[..|items| - 1]) + items[|items| - 1].tax
  }

  /** Item rows whose tax and total are nearest cents of 16 % and 116 % of their lines. */
  ghost predicate AreItemsOf(items: seq<ItemRow>, lines: seq<Line>) {
    && |items| == |lines|
    && forall k :: 0 <= k < |lines| ==>
         && items[k].quantity == lines[k].quantity && items[k].unitPrice == lines[k].price
         && IsNearest(items[k].tax, (lines[k].price * lines[k].quantity + SumOf(lines[k].modifiers)) * 16, 100)
         && IsNearest(items[k].total, (lines[k].price * lines[k].quantity + SumOf(lines[k].modifiers)) * 116, 100)
  }

  /** The order row: tax rounded once, on the subtotal. */
  ghost predicate IsOrderOf(order: OrderRow, lines: seq<Line>) {
    && order.subtotal == Subtotal(lines)
    && IsNearest(order.tax, order.subtotal * 16, 100)
    && order.total == order.subtotal + order.tax
    && AreItemsOf(order.items, lines)
  }

  function Distance(x: int, y: int): nat {
    if x >= y then x - y else y - x
  }

  lemma {:induction false} ItemsNearLines(items: seq<ItemRow>, lines: seq<Line>)
    requires AreItemsOf(items, lines)
    ensures Distance(25 * ItemTotals(items), 29 * Subtotal(lines)) <= 12 * |lines|
    ensures Distance(25 * ItemTaxes(items), 4 * Subtotal(lines)) <= 12 * |lines|
    decreases |lines|
  {
    if lines == [] {
    } else {
      var n := |lines| - 1;
      FirstItems(items, lines, n);
      ItemsNearLines(items[..n], lines[..n]);
    }
  }

  /**
   Rounding line by line and rounding once differ by at most 12 (n + 1) / 25 cents, in the totals
   and in the taxes; that is less than (n + 1) / 2.
   */
  lemma LineRoundingBound(order: OrderRow, lines: seq<Line>)
    requires IsOrderOf(order, lines)
    ensures 25 * Distance(ItemTotals(order.items), order.total) <= 12 * (|lines| + 1)
    ensures 25 * Distance(ItemTaxes(order.items), order.tax) <= 12 * (|lines| + 1)
  {
    ItemsNearLines(order.items, lines);
    assert 2 * (order.tax * 100 - order.subtotal * 16) == 8 * (25 * order.tax - 4 * order.subtotal);
  }

  /** A nearest integer to an integer is that integer. */
  lemma NearestOfWhole(r: int, q: int, n: int)
    requires IsNearest(r, n, 100) && n == 100 * q
    ensures r == q
  {
  }

  ghost predicate InQuarters(lines: seq<Line>) {
    forall k :: 0 <= k < |lines| ==> Base(lines[k]) % 25 == 0
  }

  lemma QuarterLineIsExact(base: nat, tax: int, total: int)
    requires base % 25 == 0 && IsNearest(tax, base * 16, 100) && IsNearest(total, base * 116, 100)
    ensures 100 * total == 116 * base && 100 * tax == 16 * base
  {
    var q := base / 25;
    assert base == 25 * q;
    NearestOfWhole(total, 29 * q, base * 116);
    NearestOfWhole(tax, 4 * q, base * 16);
  }

  lemma {:induction false} SubtotalInQuarters(lines: seq<Line>)
    requires InQuarters(lines)
    ensures Subtotal(lines) % 25 == 0
    decreases |lines|
  {
    if lines == [] {
    } else {
      var n := |lines| - 1;
      SubtotalInQuarters(lines[..n]);
    }
  }

  lemma {:induction false} QuarterLinesAreExact(items: seq<ItemRow>, lines: seq<Line>)
    requires AreItemsOf(items, lines) && InQuarters(lines)
    ensures 100 * ItemTotals(items) == 116 * Subtotal(lines)
    ensures 100 * ItemTaxes(items) == 16 * Subtotal(lines)
    decreases |lines|
  {
    if lines == [] {
    } else {
      var n := |lines| - 1;
      FirstItems(items, lines, n);
      QuarterLinesAreExact(items[..n], lines[..n]);
      QuarterLineIsExact(Base(lines[n]), items[n].tax, items[n].total);
    }
  }

  lemma FirstItems(items: seq<ItemRow>, lines: seq<Line>, n: nat)
    requires AreItemsOf(items, lines) && n <= |lines|
    ensures AreItemsOf(items[..n], lines[..n])
  {
  }

  /** With every line a multiple of 25 cents, whole pesos in particular, nothing is lost. */
  lemma QuarterOrdersAreExact(order: OrderRow, lines: seq<Line>)
    requires IsOrderOf(order, lines) && InQuarters(lines)
    ensures ItemTotals(order.items) == order.total && ItemTaxes(order.items) == order.tax
  {
    QuarterLinesAreExact(order.items, lines);
    SubtotalInQuarters(lines);
    var q := Subtotal(lines) / 25;
    assert Subtotal(lines) == 25 * q;
    NearestOfWhole(order.tax, 4 * q, order.subtotal * 16);
  }

  function Copies(n: nat): seq<Line> {
    seq(n, _ => Line(22, 1, []))
  }

  function CopiedItems(n: nat): seq<ItemRow> {
    seq(n, _ => ItemRow(1, 22, 4, 26))
  }

  lemma {:induction false} CopiesAdd(n: nat)
    ensures Subtotal(Copies(n)) == 22 * n && ItemTotals(CopiedItems(n)) == 26 * n
    decreases n
  {
    if n == 0 {
    } else {
      CopiesAdd(n - 1);
      assert Copies(n)[..n - 1] == Copies(n - 1) && CopiedItems(n)[..n - 1] == CopiedItems(n - 1);
      assert Base(Line(22, 1, [])) == 22;
    }
  }

  /**
   The bound is tight: 24 lines of 22 cents, an order outside the seed, whose prices are whole pesos.
   Rounded one by one they come to 624 cents, the order to 612.
   */
  lemma LineRoundingBoundIsTight()
    ensures exists order, lines :: IsOrderOf(order, lines) && |lines| == 24 && 25 * (ItemTotals(order.items) - order.total) == 12 * 25
  {
    var lines := Copies(24);
    var order := OrderRow(528, 84, 612, 0, CopiedItems(24));
    CopiesAdd(24);
    forall k | 0 <= k < 24 ensures Base(lines[k]) == 22 {
    }
    assert IsOrderOf(order, lines) && ItemTotals(order.items) == 624;
  }

  // ----- Payments -----

  datatype PaymentMethod = CASH | CREDIT_CARD | DEBIT_CARD

  datatype Payment = Payment(amount: int, tip: int, paidBy: PaymentMethod, fee: int, net: int)

  function Gross(p: Payment): int {
    p.amount + p.tip
  }

  /**
   A payment of total and tip.  Fee and net amount are nearest cents: binary products that stand for
   half a cent may be rounded either way.
   */
  ghost predicate IsPaymentOf(p: Payment, total: int, tip: int, paidBy: PaymentMethod) {
    && p.amount == total && p.tip == tip && p.paidBy == paidBy
    && if paidBy == CASH then p.fee == 0 && p.net == Gross(p)
       else IsNearest(p.fee, Gross(p) * 25, 1000) && IsNearest(p.net, Gross(p) * 975, 1000)
  }

  lemma NearestParts(gross: int, fee: int, net: int)
    requires IsNearest(fee, gross * 25, 1000) && IsNearest(net, gross * 975, 1000)
    ensures gross % 40 != 20 ==> fee + net == gross
    ensures -1 <= fee + net - gross <= 1
  {
    var a, b := 40 * fee - gross, 40 * net - 39 * gross;
    assert 2 * (fee * 1000 - gross * 25) == 50 * a && 2 * (net * 1000 - gross * 975) == 50 * b;
    assert -20 <= a <= 20 && -20 <= b <= 20;
    assert a + b == 40 * (fee + net - gross);
    if a == 20 {
      assert gross == 40 * (fee - 1) + 20;
    } else if a == -20 {
      assert gross == 40 * fee + 20;
    }
  }

  /** Fee and net amount add up to what was paid, unless a card payment leaves half a cent on both sides; then they are off by a cent at most. */
  lemma FeeAndNetAddUp(p: Payment, total: int, tip: int, paidBy: PaymentMethod)
    requires IsPaymentOf(p, total, tip, paidBy)
    ensures paidBy == CASH || Gross(p) % 40 != 20 ==> p.fee + p.net == Gross(p)
    ensures -1 <= p.fee + p.net - Gross(p) <= 1
  {
    if paidBy == CASH {
    } else {
      NearestParts(Gross(p), p.fee, p.net);
    }
  }

  /** With half a cent on both sides, the nearest cents may come to one too few, to the amount, and to one too many. */
  lemma HalfCentsGoEitherWay(total: int, tip: int, paidBy: PaymentMethod, off: int)
    requires paidBy != CASH && (total + tip) % 40 == 20 && -1 <= off <= 1
    ensures exists p :: IsPaymentOf(p, total, tip, paidBy) && p.fee + p.net == Gross(p) + off
  {
    var gross := total + tip;
    var q := gross / 40;
    assert gross == 40 * q + 20;
    var fee, net := if off == 1 then q + 1 else q, if off == -1 then 39 * q + 19 else 39 * q + 20;
    var p := Payment(total, tip, paidBy, fee, net);
    assert IsNearest(fee, gross * 25, 1000) && IsNearest(net, gross * 975, 1000);
    assert IsPaymentOf(p, total, tip, paidBy);
  }

  function PaidAmounts(payments: seq<Payment>): int {
    if payments == [] then 0 else PaidAmounts(payments[..|payments| - 1]) + payments[|payments| - 1].amount
  }

  function PaidTips(payments: seq<Payment>): int {
    if payments == [] then 0 else PaidTips(payments[..|payments| - 1]) + payments[|payments| - 1].tip
  }

  /** Amounts and tips of the payments made in cash, or of those made by card. */
  function PaidIn(payments: seq<Payment>, cash: bool): int {
    if payments == [] then 0
    else
      var p := payments[|payments| - 1];
      PaidIn(payments[..|payments| - 1], cash) + if (p.paidBy == CASH) == cash then Gross(p) else 0
  }

  /** Cash and card together are everything that was paid. */
  lemma {:induction false} CashAndCardAreAll(payments: seq<Payment>)
    ensures PaidIn(payments, true) + PaidIn(payments, false)
         == PaidAmounts(payments) + PaidTips(payments)
    decreases |payments|
  {
    if payments == [] {
    } else {
      CashAndCardAreAll(payments[..|payments| - 1]);
    }
  }

  // ----- A day -----

  /** The random choices of one order, as inputs. */
  datatype SeedOrder = SeedOrder(lines: seq<Line>, tip: nat, paidBy: PaymentMethod)

  const STARTING_CASH: int := 200000

  datatype ShiftRow = ShiftRow(startingCash: int, totalSales: int, totalTips: int, totalOrders: nat, totalProducts: nat,
                               totalCash: int, totalCard: int, endingCash: int, cashDeclared: int, cardDeclared: int, cashDifference: int)

  /** The difference that the seed plants on two days of the history. */
  function PlantedDifference(daysAgo: nat): int {
    if daysAgo == 6 then -3750 else if daysAgo == 13 then 1200 else 0
  }

  method MakeItems(lines: seq<Line>) returns (items: seq<ItemRow>, products: nat)
    ensures AreItemsOf(items, lines) && products == Products(lines)
  {
    items, products := [], 0;
    for k := 0 to |lines|
      invariant AreItemsOf(items, lines[..k]) && products == Products(lines[..k])
    {
      var line := lines[k];
      assert lines[..k + 1][..k] == lines[..k];
      items := items + [ItemRow(line.quantity, line.price, Rounded(Base(line) * 16, 100), Rounded(Base(line) * 116, 100))];
      products := products + line.quantity;
    }
    assert lines[..|lines|] == lines;
  }

  method MakeOrder(seedOrder: SeedOrder) returns (order: OrderRow, payment: Payment, products: nat)
    ensures IsOrderOf(order, seedOrder.lines) && order.tip == seedOrder.tip
    ensures IsPaymentOf(payment, order.total, seedOrder.tip, seedOrder.paidBy)
    ensures products == Products(seedOrder.lines)
  {
    var subtotal := 0;
    for k := 0 to |seedOrder.lines|
      invariant subtotal == Subtotal(seedOrder.lines[..k])
    {
      assert seedOrder.lines[..k + 1][..k] == seedOrder.lines[..k];
      subtotal := subtotal + Base(seedOrder.lines[k]);
    }
    assert seedOrder.lines[..|seedOrder.lines|] == seedOrder.lines;
    var tax := Rounded(subtotal * 16, 100);
    var items;
    items, products := MakeItems(seedOrder.lines);
    order := OrderRow(subtotal, tax, subtotal + tax, seedOrder.tip, items);
    var gross := order.total + seedOrder.tip;
    if seedOrder.paidBy != CASH {
      payment := Payment(order.total, seedOrder.tip, seedOrder.paidBy, Rounded(gross * 25, 1000), Rounded(gross * 975, 1000));
    } else {
      payment := Payment(order.total, seedOrder.tip, seedOrder.paidBy, 0, gross);
    }
  }

  function AllProducts(orders: seq<SeedOrder>): nat {
    if orders == [] then 0 else AllProducts(orders[..|orders| - 1]) + Products(orders[|orders| - 1].lines)
  }

  /** One order row and one payment per order, each paying the order. */
  ghost predicate AreDayRows(seedOrders: seq<SeedOrder>, orders: seq<OrderRow>, payments: seq<Payment>) {
    && |orders| == |payments| == |seedOrders|
    && forall k :: 0 <= k < |seedOrders| ==>
         && IsOrderOf(orders[k], seedOrders[k].lines) && orders[k].tip == seedOrders[k].tip
         && IsPaymentOf(payments[k], orders[k].total, orders[k].tip, seedOrders[k].paidBy)
  }

  lemma OneMoreOrder(seedOrders: seq<SeedOrder>, orders: seq<OrderRow>, payments: seq<Payment>, s: SeedOrder, o: OrderRow, p: Payment)
    requires AreDayRows(seedOrders, orders, payments)
    requires IsOrderOf(o, s.lines) && o.tip == s.tip && IsPaymentOf(p, o.total, o.tip, s.paidBy)
    ensures AreDayRows(seedOrders + [s], orders + [o], payments + [p])
  {
  }

  lemma OneMorePayment(payments: seq<Payment>, p: Payment)
    ensures var more := payments + [p];
            && PaidAmounts(more) == PaidAmounts(payments) + p.amount
            && PaidTips(more) == PaidTips(payments) + p.tip
            && PaidIn(more, true) == PaidIn(payments, true) + (if p.paidBy == CASH then Gross(p) else 0)
            && PaidIn(more, false) == PaidIn(payments, false) + (if p.paidBy == CASH then 0 else Gross(p))
  {
    assert (payments + [p])[..|payments|] == payments;
  }

  lemma OneMoreProducts(orders: seq<SeedOrder>, s: SeedOrder)
    ensures AllProducts(orders + [s]) == AllProducts(orders) + Products(s.lines)
  {
    assert (orders + [s])[..|orders|] == orders;
  }

  /** A shift that closes on its payments. */
  ghost predicate IsClosedOn(shift: ShiftRow, payments: seq<Payment>) {
    && shift.totalSales == PaidAmounts(payments)
    && shift.totalTips == PaidTips(payments)
    && shift.totalOrders == |payments|
    && shift.totalCash == PaidIn(payments, true)
    && shift.totalCard == PaidIn(payments, false) == shift.cardDeclared
    && shift.totalCash + shift.totalCard == shift.totalSales + shift.totalTips
    && shift.cashDeclared - shift.totalCash == shift.cashDifference
    && shift.startingCash == 200000
    && shift.endingCash == shift.startingCash + shift.cashDeclared
  }

  method SeedDay(seedOrders: seq<SeedOrder>, daysAgo: nat) returns (orders: seq<OrderRow>, payments: seq<Payment>, shift: ShiftRow)
    ensures AreDayRows(seedOrders, orders, payments)
    ensures IsClosedOn(shift, payments)
    ensures shift.cashDifference == (if daysAgo == 6 then -3750 else if daysAgo == 13 then 1200 else 0)
    ensures shift.totalProducts == AllProducts(seedOrders)
  {
    orders, payments := [], [];
    var dayCash, dayCard, dayTips, daySales, dayProducts := 0, 0, 0, 0, 0;
    for i := 0 to |seedOrders|
      invariant AreDayRows(seedOrders[..i], orders, payments)
      invariant daySales == PaidAmounts(payments) && dayTips == PaidTips(payments)
      invariant dayCash == PaidIn(payments, true) && dayCard == PaidIn(payments, false)
      invariant dayProducts == AllProducts(seedOrders[..i])
    {
      assert seedOrders[..i + 1] == seedOrders[..i] + [seedOrders[i]];
      var order, payment, products := MakeOrder(seedOrders[i]);
      OneMoreOrder(seedOrders[..i], orders, payments, seedOrders[i], order, payment);
      OneMorePayment(payments, payment);
      OneMoreProducts(seedOrders[..i], seedOrders[i]);
      orders := orders + [order];
      payments := payments + [payment];
      dayProducts := dayProducts + products;
      daySales := daySales + order.total;
      dayTips := dayTips + order.tip;
      if seedOrders[i].paidBy != CASH {
        dayCard := dayCard + order.total + order.tip;
      } else {
        dayCash := dayCash + order.total + order.tip;
      }
    }
    assert seedOrders[..|seedOrders|] == seedOrders;
    CashAndCardAreAll(payments);
    var diff := PlantedDifference(daysAgo);
    shift := ShiftRow(STARTING_CASH, daySales, dayTips, |seedOrders|, dayProducts, dayCash, dayCard,
                      STARTING_CASH + dayCash + diff, dayCash + diff, dayCard, diff);
  }

  // ----- The history -----

  function AllPaid(days: seq<seq<Payment>>): int {
    if days == [] then 0 else AllPaid(days[..|days| - 1]) + PaidAmounts(days[|days| - 1]) + PaidTips(days[|days| - 1])
  }

  function AllClosed(shifts: seq<ShiftRow>): int {
    if shifts == [] then 0 else AllClosed(shifts[..|shifts| - 1]) + shifts[|shifts| - 1].totalCash + shifts[|shifts| - 1].totalCard
  }

  function OrderCount(days: seq<seq<SeedOrder>>): nat {
    if days == [] then 0 else OrderCount(days[..|days| - 1]) + |days[|days| - 1]|
  }

  lemma OneMoreDay(payments: seq<seq<Payment>>, shifts: seq<ShiftRow>, p: seq<Payment>, shift: ShiftRow)
    ensures AllPaid(payments + [p]) == AllPaid(payments) + PaidAmounts(p) + PaidTips(p)
    ensures AllClosed(shifts + [shift]) == AllClosed(shifts) + shift.totalCash + shift.totalCard
  {
    assert (payments + [p])[..|payments|] == payments && (shifts + [shift])[..|shifts|] == shifts;
  }

  /** The whole history, oldest day first: every shift closes on its own payments, and together they closed on all of them. */
  method SeedHistory(days: seq<seq<SeedOrder>>) returns (shifts: seq<ShiftRow>, payments: seq<seq<Payment>>, totalOrders: nat)
    ensures |shifts| == |payments| == |days|
    ensures forall d :: 0 <= d < |days| ==> IsClosedOn(shifts[d], payments[d]) && |payments[d]| == |days[d]|
    ensures forall d :: 0 <= d < |days| ==> shifts[d].cashDifference == (if |days| - d == 6 then -3750 else if |days| - d == 13 then 1200 else 0)
    ensures AllClosed(shifts) == AllPaid(payments) && totalOrders == OrderCount(days)
  {
    shifts, payments, totalOrders := [], [], 0;
    for d := 0 to |days|
      invariant |shifts| == |payments| == d
      invariant forall e :: 0 <= e < d ==> IsClosedOn(shifts[e], payments[e]) && |payments[e]| == |days[e]|
      invariant forall e :: 0 <= e < d ==> shifts[e].cashDifference == PlantedDifference(|days| - e)
      invariant AllClosed(shifts) == AllPaid(payments) && totalOrders == OrderCount(days[..d])
    {
      assert days[..d + 1][..d] == days[..d];
      var orders, dayPayments, shift := SeedDay(days[d], |days| - d);
      OneMoreDay(payments, shifts, dayPayments, shift);
      shifts := shifts + [shift];
      payments := payments + [dayPayments];
      totalOrders := totalOrders + |days[d]|;
    }
    assert days[..|days|] == days;
  }
}
