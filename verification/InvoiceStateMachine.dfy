/** The invoice lifecycle and its arithmetic, as pure functions. Money is integer cents. */
module InvoiceStateMachine {
  import opened Prelude

  datatype Status = Draft | Sent | PartiallyPaid | Paid | Void

  datatype PaymentStatus = Unpaid | PartPaid | FullyPaid

  datatype Error = NotFound | IllegalTransition | NegativeTotal | IntegrityError

  predicate CanEdit(s: Status) { s != Void }
  predicate CanSend(s: Status) { s == Draft }
  predicate CanRecordPayment(s: Status) { s in {Sent, PartiallyPaid, Paid} }
  predicate CanVoid(s: Status) { s != Void }

  function NextPaymentStatus(paid: int, total: int): PaymentStatus {
    if paid <= 0 then Unpaid else if paid >= total then FullyPaid else PartPaid
  }

  function NextInvoiceStatus(current: Status, p: PaymentStatus): Status {
    if current !in {Sent, PartiallyPaid, Paid} then current
    else if p == FullyPaid then Paid
    else if p == PartPaid then PartiallyPaid
    else Sent
  }

  // ===== line amounts =====

  /** Half away from zero, to a whole number of cents. */
  function RoundHalfUp(x: real): int {
    if x >= 0.0 then (x + 0.5).Floor else -((-x + 0.5).Floor)
  }

  function LineAmount(quantity: real, unitPriceCents: int): int { RoundHalfUp(quantity * unitPriceCents as real) }

  datatype LineRequest = LineRequest(quantity: real, unitPriceCents: int)

  datatype Line = Line(quantity: real, unitPriceCents: int, amountCents: int)

  function BuildLine(l: LineRequest): Line {
    Line(l.quantity, l.unitPriceCents, LineAmount(l.quantity, l.unitPriceCents))
  }

  function BuildLines(ls: seq<LineRequest>): seq<Line> {
    if ls == [] then [] else BuildLines(ls[..|ls| - 1]) + [BuildLine(ls[|ls| - 1])]
  }

  function Subtotal(lines: seq<Line>): int {
    if lines == [] then 0 else Subtotal(lines[..|lines| - 1]) + lines[|lines| - 1].amountCents
  }

  function ComputeTotals(lines: seq<Line>, tax: int, discount: int): Result<(int, int), Error> {
    var total := Subtotal(lines) + tax - discount;
    if total < 0 then Err(NegativeTotal) else Ok((Subtotal(lines), total))
  }

  /** The unrounded value of the lines. */
  function Exact(ls: seq<LineRequest>): real {
    if ls == [] then 0.0
    else Exact(ls[..|ls| - 1]) + ls[|ls| - 1].quantity * ls[|ls| - 1].unitPriceCents as real
  }

  /** `n` is the whole number nearest to `x`, a half going away from zero. */
  predicate Nearest(x: real, n: int) {
    if x >= 0.0 then n as real - 0.5 <= x < n as real + 0.5 else n as real - 0.5 < x <= n as real + 0.5
  }

  lemma RoundingMeaning(x: real, n: int)
    ensures RoundHalfUp(x) == n <==> Nearest(x, n)
  {
    if x >= 0.0 {
      assert (x + 0.5).Floor == n <==> n as real <= x + 0.5 < n as real + 1.0;
    } else {
      assert (-x + 0.5).Floor == -n <==> (-n) as real <= -x + 0.5 < (-n) as real + 1.0;
    }
  }

  /** The line as asked for, its amount the nearest cent to quantity times price. */
  predicate IsBuilt(line: Line, asked: LineRequest) {
    && line.quantity == asked.quantity && line.unitPriceCents == asked.unitPriceCents
    && Nearest(asked.quantity * asked.unitPriceCents as real, line.amountCents)
  }

  /** One line for each asked for, in the same order. */
  predicate AreBuilt(lines: seq<Line>, asked: seq<LineRequest>) {
    |lines| == |asked| && forall k :: 0 <= k < |asked| ==> IsBuilt(lines[k], asked[k])
  }

  lemma {:induction false} LinesAreBuilt(asked: seq<LineRequest>)
    ensures AreBuilt(BuildLines(asked), asked)
  {
    if asked != [] {
      var last := asked[|asked| - 1];
      LinesAreBuilt(asked[..|asked| - 1]);
      RoundingMeaning(last.quantity * last.unitPriceCents as real, BuildLine(last).amountCents);
    }
  }

  lemma RoundingError(x: real)
    ensures -0.5 <= RoundHalfUp(x) as real - x <= 0.5
  {}

  lemma RoundingMonotone(x: real, y: real)
    requires x <= y
    ensures RoundHalfUp(x) <= RoundHalfUp(y)
  {}

  lemma RoundingExact(n: int)
    ensures RoundHalfUp(n as real) == n
  {
    assert (n as real + 0.5).Floor == n;
    assert (-(n as real) + 0.5).Floor == -n;
  }

  lemma BuildSnoc(ls: seq<LineRequest>)
    requires ls != []
    ensures Subtotal(BuildLines(ls)) == Subtotal(BuildLines(ls[..|ls| - 1])) + BuildLine(ls[|ls| - 1]).amountCents
  {
    var front := BuildLines(ls[..|ls| - 1]);
    assert (front + [BuildLine(ls[|ls| - 1])])[..|front|] == front;
  }

  /** A subtotal is off by at most half a cent a line. */
  lemma {:induction false} SubtotalError(ls: seq<LineRequest>)
    ensures -0.5 * |ls| as real <= Subtotal(BuildLines(ls)) as real - Exact(ls) <= 0.5 * |ls| as real
  {
    if ls != [] {
      var last := ls[|ls| - 1];
      SubtotalError(ls[..|ls| - 1]);
      BuildSnoc(ls);
      RoundingError(last.quantity * last.unitPriceCents as real);
    }
  }

  /** Whole quantities lose nothing. */
  lemma {:induction false} WholeQuantitiesExact(ls: seq<LineRequest>)
    requires forall i :: 0 <= i < |ls| ==> ls[i].quantity == ls[i].quantity.Floor as real
    ensures Subtotal(BuildLines(ls)) as real == Exact(ls)
  {
    if ls != [] {
      var last := ls[|ls| - 1];
      WholeQuantitiesExact(ls[..|ls| - 1]);
      BuildSnoc(ls);
      var n := last.quantity.Floor * last.unitPriceCents;
      assert last.quantity * last.unitPriceCents as real == n as real;
      RoundingExact(n);
    }
  }

  /** Raising quantities and prices never lowers the subtotal. */
  lemma {:induction false} SubtotalMonotone(a: seq<LineRequest>, b: seq<LineRequest>)
    requires |a| == |b|
    requires forall i :: 0 <= i < |a| ==>
               0.0 <= a[i].quantity <= b[i].quantity && 0 <= a[i].unitPriceCents <= b[i].unitPriceCents
    ensures Subtotal(BuildLines(a)) <= Subtotal(BuildLines(b))
  {
    if a != [] {
      var n := |a| - 1;
      SubtotalMonotone(a[..n], b[..n]);
      BuildSnoc(a);
      BuildSnoc(b);
      ProductMonotone(a[n].quantity, b[n].quantity, a[n].unitPriceCents as real, b[n].unitPriceCents as real);
      RoundingMonotone(a[n].quantity * a[n].unitPriceCents as real, b[n].quantity * b[n].unitPriceCents as real);
    }
  }

  lemma ProductMonotone(q: real, r: real, p: real, s: real)
    requires 0.0 <= q <= r && 0.0 <= p <= s
    ensures q * p <= r * s
  {
    assert q * p <= r * p;
    assert r * p <= r * s;
  }

  /** The quantity the three-decimal column keeps. */
  function Stored(quantity: real): real { RoundHalfUp(quantity * 1000.0) as real / 1000.0 }

  function Times(a: real, b: real): real { a * b }

  lemma TimesGrows(a: real, b: real, c: real)
    requires a > 0.0 && b < c
    ensures Times(a, b) < Times(a, c)
  {}

  lemma TimesQuotient(a: real, b: real)
    requires a != 0.0
    ensures Times(a, b / a) == b
  {}

  /** A price at which a gap between two quantities shows. */
  lemma WitnessPrice(gap: real) returns (price: int)
    requires gap > 0.0
    ensures price >= 0 && Times(gap, price as real) > 2.0
  {
    var x := 2.0 / gap;
    TimesQuotient(gap, 2.0);
    price := x.Floor + 1;
    TimesGrows(gap, x, price as real);
  }

  lemma FarApart(high: real, low: real, price: int)
    requires Times(high - low, price as real) > 2.0
    ensures LineAmount(high, price) != LineAmount(low, price)
  {
    var x, y := high * price as real, low * price as real;
    assert Times(high - low, price as real) == x - y;
    RoundingError(x);
    RoundingError(y);
  }

  /** The amount of a line follows from the quantity kept in the table, at every price, exactly when
      the table keeps the quantity: when it has at most three decimals. */
  lemma StoredQuantityIff(q: real)
    requires q >= 0.0
    ensures (forall price: int :: price >= 0 ==> LineAmount(q, price) == LineAmount(Stored(q), price)) <==>
        Stored(q) == q
  {
    if Stored(q) != q {
      var s := Stored(q);
      var price;
      if q > s {
        price := WitnessPrice(q - s);
        FarApart(q, s, price);
      } else {
        price := WitnessPrice(s - q);
        FarApart(s, q, price);
      }
      assert LineAmount(q, price) != LineAmount(s, price);
    }
  }

  /** One such quantity and price: 0.0004 of something at 100.00. */
  lemma StoredQuantityLosesCents()
    ensures LineAmount(0.0004, 10000) == 4 && LineAmount(Stored(0.0004), 10000) == 0
  {}
}
