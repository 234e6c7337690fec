/** The invoicing service over its tables, one committed transaction at a time, and what
    whole runs of it can and cannot do. */
module Invoicing {
  import opened Prelude
  import opened InvoiceStateMachine

  datatype Invoice = Invoice(
    orgId: string,
    number: nat,
    status: Status,
    lines: seq<Line>,
    subtotal: int,
    tax: int,
    discount: int,
    total: int,
    amountPaid: int,
    paymentStatus: PaymentStatus,
    isDeleted: bool)

  datatype Payment = Payment(orgId: string, invoiceId: string, amount: int, key: Option<string>)

  /** `numbers[org]` is the org's invoice counter, which lives outside the transactions. */
  datatype Db = Db(invoices: map<string, Invoice>, payments: seq<Payment>, numbers: map<string, nat>)

  datatype Command =
    | Create(orgId: string, id: string, lines: seq<LineRequest>, tax: int, discount: int)
    | Update(orgId: string, id: string, newTax: Option<int>, newDiscount: Option<int>,
        newLines: Option<seq<LineRequest>>)
    | Delete(orgId: string, id: string)
    | Send(orgId: string, id: string)
    | Pay(orgId: string, id: string, amount: int, key: Option<string>)
    | Annul(orgId: string, id: string)

  datatype Answer = Done(invoice: Invoice) | Recorded(payment: Payment) | Replayed(payment: Payment)

  /** What the request schemas let through. */
  predicate Valid(c: Command) {
    match c
    case Create(_, _, lines, tax, discount) => lines != [] && GoodLines(lines) && tax >= 0 && discount >= 0
    case Update(_, _, tax, discount, lines) =>
      && (tax.Some? ==> tax.value >= 0) && (discount.Some? ==> discount.value >= 0)
      && (lines.Some? ==> GoodLines(lines.value))
    case Pay(_, _, amount, _) => amount > 0
    case _ => true
  }

  predicate GoodLines(lines: seq<LineRequest>) {
    forall i :: 0 <= i < |lines| ==> lines[i].quantity > 0.0 && lines[i].unitPriceCents >= 0
  }

  function Load(db: Db, orgId: string, id: string): Option<Invoice> {
    if id in db.invoices && db.invoices[id].orgId == orgId && !db.invoices[id].isDeleted
    then Some(db.invoices[id]) else None
  }

  function Counter(db: Db, orgId: string): nat { if orgId in db.numbers then db.numbers[orgId] else 0 }

  /** The payment an org has already recorded under a key. */
  function FindPayment(payments: seq<Payment>, orgId: string, key: string): Option<Payment> {
    if payments == [] then None
    else if payments[0].orgId == orgId && payments[0].key == Some(key) then Some(payments[0])
    else FindPayment(payments[1..], orgId, key)
  }

  // ===== what the calls are for =====

  /** A row of the organisation that is not deleted. */
  ghost predicate Visible(db: Db, orgId: string, id: string) {
    id in db.invoices && db.invoices[id].orgId == orgId && !db.invoices[id].isDeleted
  }

  /** The same tables with one row replaced. */
  ghost function With(db: Db, id: string, i: Invoice): Db { db.(invoices := db.invoices[id := i]) }

  /** The two status columns agree with the money. */
  ghost predicate Matches(i: Invoice) {
    && (i.paymentStatus == Unpaid <==> i.amountPaid <= 0)
    && (i.paymentStatus == PartPaid <==> 0 < i.amountPaid < i.total)
    && (i.status == Sent <==> i.status !in {Draft, Void} && i.paymentStatus == Unpaid)
    && (i.status == PartiallyPaid <==> i.status !in {Draft, Void} && i.paymentStatus == PartPaid)
    && (i.status == Paid <==> i.status !in {Draft, Void} && i.paymentStatus == FullyPaid)
  }

  /** What the invoice comes to with these amounts. */
  ghost predicate Adds(i: Invoice) {
    i.subtotal == Subtotal(i.lines) && i.total == i.subtotal + i.tax - i.discount >= 0
  }

  /** What an edit may leave as it was: everything but the supplied fields and what follows from them. */
  ghost predicate IsEdit(i: Invoice, tax: Option<int>, discount: Option<int>, lines: Option<seq<LineRequest>>,
      j: Invoice)
  {
    && j.tax == (if tax.Some? then tax.value else i.tax)
    && j.discount == (if discount.Some? then discount.value else i.discount)
    && (if lines.Some? then AreBuilt(j.lines, lines.value) else j.lines == i.lines)
    && j.orgId == i.orgId && j.number == i.number && j.amountPaid == i.amountPaid && j.isDeleted == i.isDeleted
    && (if tax.None? && discount.None? && lines.None? then j == i
        else Adds(j) && Matches(j) && (j.status == Draft <==> i.status == Draft) && j.status != Void)
  }

  /** What the total of an edited invoice would be. */
  ghost function EditedTotal(i: Invoice, tax: Option<int>, discount: Option<int>,
      lines: Option<seq<LineRequest>>): int
  {
    Subtotal(if lines.Some? then BuildLines(lines.value) else i.lines)
    + (if tax.Some? then tax.value else i.tax) - (if discount.Some? then discount.value else i.discount)
  }

  ghost predicate IsDraft(orgId: string, number: nat, lines: seq<LineRequest>, tax: int, discount: int, i: Invoice) {
    && i.orgId == orgId && i.number == number && i.status == Draft && AreBuilt(i.lines, lines)
    && i.tax == tax && i.discount == discount && Adds(i) && Matches(i) && i.amountPaid == 0 && !i.isDeleted
  }

  ghost predicate IsPaidInto(i: Invoice, amount: int, j: Invoice) {
    && j.amountPaid == i.amountPaid + amount && Matches(j) && j.status in {Sent, PartiallyPaid, Paid}
    && j == i.(amountPaid := j.amountPaid, paymentStatus := j.paymentStatus, status := j.status)
  }

  /** The organisation has recorded a payment under the key, on whatever invoice. */
  ghost predicate KeyTaken(db: Db, orgId: string, key: string) {
    exists i :: 0 <= i < |db.payments| && db.payments[i].orgId == orgId && db.payments[i].key == Some(key)
  }

  // ===== the specification of each call =====

  function Recomputed(i: Invoice, totals: (int, int)): Invoice {
    var p := NextPaymentStatus(i.amountPaid, totals.1);
    i.(subtotal := totals.0, total := totals.1, paymentStatus := p, status := NextInvoiceStatus(i.status, p))
  }

  function Edited(i: Invoice, tax: Option<int>, discount: Option<int>, lines: Option<seq<LineRequest>>):
      Result<Invoice, Error> {
    var edited := i.(tax := if tax.Some? then tax.value else i.tax,
                     discount := if discount.Some? then discount.value else i.discount,
                     lines := if lines.Some? then BuildLines(lines.value) else i.lines);
    if tax.None? && discount.None? && lines.None? then Ok(i)
    else match ComputeTotals(edited.lines, edited.tax, edited.discount)
      case Err(e) => Err(e)
      case Ok(totals) => Ok(Recomputed(edited, totals))
  }

  function PaidInto(i: Invoice, amount: int): Invoice {
    var p := NextPaymentStatus(i.amountPaid + amount, i.total);
    i.(amountPaid := i.amountPaid + amount, paymentStatus := p, status := NextInvoiceStatus(i.status, p))
  }

  function Apply(db: Db, c: Command): (Db, Result<Answer, Error>) {
    match c
    case Create(orgId, id, lines, tax, discount) =>
      var n := Counter(db, orgId) + 1;
      var counted := db.(numbers := db.numbers[orgId := n]);
      (match ComputeTotals(BuildLines(lines), tax, discount)
       case Err(e) => (counted, Err(e))
       case Ok(totals) =>
         if id in db.invoices then (counted, Err(IntegrityError))
         else
           var invoice := Invoice(orgId, n, Draft, BuildLines(lines), totals.0, tax, discount, totals.1, 0, Unpaid,
               false);
           (counted.(invoices := db.invoices[id := invoice]), Ok(Done(invoice))))
    case Update(orgId, id, tax, discount, lines) =>
      (match Load(db, orgId, id)
       case None => (db, Err(NotFound))
       case Some(i) =>
         if !CanEdit(i.status) then (db, Err(IllegalTransition))
         else match Edited(i, tax, discount, lines)
           case Err(e) => (db, Err(e))
           case Ok(edited) => (db.(invoices := db.invoices[id := edited]), Ok(Done(edited))))
    case Delete(orgId, id) =>
      (match Load(db, orgId, id)
       case None => (db, Err(NotFound))
       case Some(i) => Saved(db, id, i.(isDeleted := true)))
    case Send(orgId, id) =>
      (match Load(db, orgId, id)
       case None => (db, Err(NotFound))
       case Some(i) => if !CanSend(i.status) then (db, Err(IllegalTransition)) else Saved(db, id, i.(status := Sent)))
    case Annul(orgId, id) =>
      (match Load(db, orgId, id)
       case None => (db, Err(NotFound))
       case Some(i) => if !CanVoid(i.status) then (db, Err(IllegalTransition)) else Saved(db, id, i.(status := Void)))
    case Pay(orgId, id, amount, key) =>
      (match Load(db, orgId, id)
       case None => (db, Err(NotFound))
       case Some(i) =>
         if !CanRecordPayment(i.status) then (db, Err(IllegalTransition))
         else
           var existing := if key.Some? then FindPayment(db.payments, orgId, key.value) else None;
           if existing.Some? then
             // the lookup is skipped for an empty key; the unique index is not
             (if key.value != "" then (db, Ok(Replayed(existing.value))) else (db, Err(IntegrityError)))
           else
             var payment := Payment(orgId, id, amount, key);
             (db.(invoices := db.invoices[id := PaidInto(i, amount)], payments := db.payments + [payment]),
              Ok(Recorded(payment))))
  }

  function Saved(db: Db, id: string, i: Invoice): (Db, Result<Answer, Error>) {
    (db.(invoices := db.invoices[id := i]), Ok(Done(i)))
  }

  lemma EditMeaning(i: Invoice, tax: Option<int>, discount: Option<int>, lines: Option<seq<LineRequest>>)
    requires i.status != Void
    ensures var r := Edited(i, tax, discount, lines);
      && (r.Err? <==> (tax.Some? || discount.Some? || lines.Some?) && EditedTotal(i, tax, discount, lines) < 0)
      && (r.Err? ==> r.error == NegativeTotal) && (r.Ok? ==> IsEdit(i, tax, discount, lines, r.value))
  {
    if lines.Some? { LinesAreBuilt(lines.value); }
  }

  /** An edit is refused for a row that is not there, is void, or would come to less than nothing;
      otherwise the row is the old one with the supplied fields and what follows from them. */
  lemma UpdateMeaning(db: Db, orgId: string, id: string, tax: Option<int>, discount: Option<int>,
                      lines: Option<seq<LineRequest>>)
    ensures var (after, r) := Apply(db, Update(orgId, id, tax, discount, lines));
      && (r == Err(NotFound) <==> !Visible(db, orgId, id))
      && (r == Err(IllegalTransition) <==> Visible(db, orgId, id) && db.invoices[id].status == Void)
      && (r == Err(NegativeTotal) <==>
            && Visible(db, orgId, id) && db.invoices[id].status != Void
            && (tax.Some? || discount.Some? || lines.Some?) && EditedTotal(db.invoices[id], tax, discount, lines) < 0)
      && (r.Err? ==> after == db && r.error != IntegrityError)
      && (r.Ok? ==> r.value.Done? && after == With(db, id, r.value.invoice)
                    && IsEdit(db.invoices[id], tax, discount, lines, r.value.invoice))
  {
    if Visible(db, orgId, id) && db.invoices[id].status != Void { EditMeaning(db.invoices[id], tax, discount, lines); }
  }

  // ===== the service =====

  class Service {
    var db: Db

    constructor ()
      ensures db == Db(map[], [], map[])
    {
      db := Db(map[], [], map[]);
    }

    method CreateInvoice(orgId: string, id: string, lines: seq<LineRequest>, tax: int, discount: int)
      returns (r: Result<Answer, Error>)
      modifies this
      ensures (db, r) == Apply(old(db), Create(orgId, id, lines, tax, discount))
      ensures db.numbers == old(db).numbers[orgId := Counter(old(db), orgId) + 1] && db.payments == old(db).payments
      ensures r.Ok? <==> id !in old(db).invoices && Subtotal(BuildLines(lines)) + tax - discount >= 0
      ensures r.Err? ==> db.invoices == old(db).invoices
      ensures r.Ok? ==> r.value.Done? && db.invoices == old(db).invoices[id := r.value.invoice]
                        && IsDraft(orgId, Counter(old(db), orgId) + 1, lines, tax, discount, r.value.invoice)
    {
      LinesAreBuilt(lines);
      db := db.(numbers := db.numbers[orgId := Counter(db, orgId) + 1]);
      var items := BuildLines(lines);
      var totals := ComputeTotals(items, tax, discount);
      if totals.Err? { return Err(totals.error); }
      if id in db.invoices { return Err(IntegrityError); }
      var invoice := Invoice(orgId, db.numbers[orgId], Draft, items, totals.value.0, tax, discount, totals.value.1, 0,
          Unpaid, false);
      db := db.(invoices := db.invoices[id := invoice]);
      return Ok(Done(invoice));
    }

    /** Fields change on the loaded row only; an error before the commit leaves the tables alone. */
    method UpdateInvoice(orgId: string, id: string, tax: Option<int>, discount: Option<int>,
        lines: Option<seq<LineRequest>>)
      returns (r: Result<Answer, Error>)
      modifies this
      ensures (db, r) == Apply(old(db), Update(orgId, id, tax, discount, lines))
      ensures r == Err(NotFound) <==> !Visible(old(db), orgId, id)
      ensures r == Err(IllegalTransition) <==> Visible(old(db), orgId, id) && old(db).invoices[id].status == Void
      ensures r == Err(NegativeTotal) <==>
        && Visible(old(db), orgId, id) && old(db).invoices[id].status != Void
        && (tax.Some? || discount.Some? || lines.Some?) && EditedTotal(old(db).invoices[id], tax, discount, lines) < 0
      ensures r.Err? ==> db == old(db) && r.error != IntegrityError
      ensures r.Ok? ==> r.value.Done? && db == With(old(db), id, r.value.invoice)
                        && IsEdit(old(db).invoices[id], tax, discount, lines, r.value.invoice)
    {
      UpdateMeaning(db, orgId, id, tax, discount, lines);
      var loaded := Load(db, orgId, id);
      if loaded.None? { return Err(NotFound); }
      var invoice := loaded.value;
      if !CanEdit(invoice.status) { return Err(IllegalTransition); }
      var recompute := false;
      if tax.Some? {
        invoice := invoice.(tax := tax.value);
        recompute := true;
      }
      if discount.Some? {
        invoice := invoice.(discount := discount.value);
        recompute := true;
      }
      if lines.Some? {
        invoice := invoice.(lines := BuildLines(lines.value));
        recompute := true;
      }
      if recompute {
        var totals := ComputeTotals(invoice.lines, invoice.tax, invoice.discount);
        if totals.Err? { return Err(totals.error); }
        invoice := invoice.(subtotal := totals.value.0);
        invoice := invoice.(total := totals.value.1);
        var p := NextPaymentStatus(invoice.amountPaid, invoice.total);
        invoice := invoice.(paymentStatus := p);
        invoice := invoice.(status := NextInvoiceStatus(invoice.status, p));
      }
      db := db.(invoices := db.invoices[id := invoice]);
      return Ok(Done(invoice));
    }

    method SoftDeleteInvoice(orgId: string, id: string) returns (r: Result<Answer, Error>)
      modifies this
      ensures (db, r) == Apply(old(db), Delete(orgId, id))
      ensures if Visible(old(db), orgId, id)
        then r.Ok? && db == With(old(db), id, old(db).invoices[id].(isDeleted := true))
        else r == Err(NotFound) && db == old(db)
    {
      var loaded := Load(db, orgId, id);
      if loaded.None? { return Err(NotFound); }
      var invoice := loaded.value.(isDeleted := true);
      db := db.(invoices := db.invoices[id := invoice]);
      return Ok(Done(invoice));
    }

    method SendInvoice(orgId: string, id: string) returns (r: Result<Answer, Error>)
      modifies this
      ensures (db, r) == Apply(old(db), Send(orgId, id))
      ensures r == Err(NotFound) <==> !Visible(old(db), orgId, id)
      ensures r.Ok? <==> Visible(old(db), orgId, id) && old(db).invoices[id].status == Draft
      ensures if r.Ok? then db == With(old(db), id, old(db).invoices[id].(status := Sent))
              else db == old(db) && r.error in {NotFound, IllegalTransition}
    {
      var loaded := Load(db, orgId, id);
      if loaded.None? { return Err(NotFound); }
      if !CanSend(loaded.value.status) { return Err(IllegalTransition); }
      var invoice := loaded.value.(status := Sent);
      db := db.(invoices := db.invoices[id := invoice]);
      return Ok(Done(invoice));
    }

    method RecordPayment(orgId: string, id: string, amount: int, key: Option<string>) returns (r: Result<Answer, Error>)
      modifies this
      ensures (db, r) == Apply(old(db), Pay(orgId, id, amount, key))
      ensures r == Err(NotFound) <==> !Visible(old(db), orgId, id)
      ensures r == Err(IllegalTransition) <==>
        Visible(old(db), orgId, id) && (old(db).invoices[id].status == Draft || old(db).invoices[id].status == Void)
      ensures r == Err(IntegrityError) <==>
        && Visible(old(db), orgId, id) && old(db).invoices[id].status in {Sent, PartiallyPaid, Paid}
        && key == Some("") && KeyTaken(old(db), orgId, "")
      ensures r.Ok? && r.value.Recorded? <==>
        && Visible(old(db), orgId, id) && old(db).invoices[id].status in {Sent, PartiallyPaid, Paid}
        && (key.Some? ==> !KeyTaken(old(db), orgId, key.value))
      ensures r.Err? ==> db == old(db) && r.error != NegativeTotal
      ensures r.Ok? && r.value.Recorded? ==>
        && r.value.payment == Payment(orgId, id, amount, key) && db.payments == old(db).payments + [r.value.payment]
        && db.numbers == old(db).numbers
        && exists j :: db.invoices == old(db).invoices[id := j] && IsPaidInto(old(db).invoices[id], amount, j)
      ensures r.Ok? && !r.value.Recorded? ==>
        && r.value.Replayed? && db == old(db)
        && r.value.payment in db.payments && r.value.payment.orgId == orgId && r.value.payment.key == key
    {
      if key.Some? { FindPaymentFinds(db.payments, orgId, key.value); }
      var loaded := Load(db, orgId, id);
      if loaded.None? { return Err(NotFound); }
      var invoice := loaded.value;
      if !CanRecordPayment(invoice.status) { return Err(IllegalTransition); }
      if key.Some? && key.value != "" {
        var existing := FindPayment(db.payments, orgId, key.value);
        if existing.Some? { return Ok(Replayed(existing.value)); }
      }
      var payment := Payment(orgId, id, amount, key);
      invoice := invoice.(amountPaid := invoice.amountPaid + amount);
      var p := NextPaymentStatus(invoice.amountPaid, invoice.total);
      invoice := invoice.(paymentStatus := p);
      invoice := invoice.(status := NextInvoiceStatus(invoice.status, p));
      if key.Some? && FindPayment(db.payments, orgId, key.value).Some? { return Err(IntegrityError); }
      assert IsPaidInto(db.invoices[id], amount, invoice);
      db := db.(invoices := db.invoices[id := invoice], payments := db.payments + [payment]);
      return Ok(Recorded(payment));
    }

    method VoidInvoice(orgId: string, id: string) returns (r: Result<Answer, Error>)
      modifies this
      ensures (db, r) == Apply(old(db), Annul(orgId, id))
      ensures r == Err(NotFound) <==> !Visible(old(db), orgId, id)
      ensures r.Ok? <==> Visible(old(db), orgId, id) && old(db).invoices[id].status != Void
      ensures if r.Ok? then db == With(old(db), id, old(db).invoices[id].(status := Void))
              else db == old(db) && r.error in {NotFound, IllegalTransition}
    {
      var loaded := Load(db, orgId, id);
      if loaded.None? { return Err(NotFound); }
      if !CanVoid(loaded.value.status) { return Err(IllegalTransition); }
      var invoice := loaded.value.(status := Void);
      db := db.(invoices := db.invoices[id := invoice]);
      return Ok(Done(invoice));
    }
  }

  // ===== the ledger invariant =====

  function PaidOn(payments: seq<Payment>, id: string): int {
    if payments == [] then 0
    else PaidOn(payments[..|payments| - 1], id) +
         (if payments[|payments| - 1].invoiceId == id then payments[|payments| - 1].amount else 0)
  }

  ghost predicate LineSound(l: Line) { l.amountCents == LineAmount(l.quantity, l.unitPriceCents) }

  /** What the stored figures of one invoice mean. */
  ghost predicate Sound(i: Invoice) {
    && (forall k :: 0 <= k < |i.lines| ==> LineSound(i.lines[k]))
    && i.subtotal == Subtotal(i.lines)
    && i.total == i.subtotal + i.tax - i.discount >= 0
    && i.amountPaid >= 0
    && Matches(i)
    && (i.status == Draft ==> i.amountPaid == 0)
  }

  ghost predicate KeysOnce(payments: seq<Payment>) {
    forall i, j :: 0 <= i < j < |payments| && payments[i].orgId == payments[j].orgId && payments[i].key.Some? ==>
      payments[i].key != payments[j].key
  }

  ghost predicate NumbersDistinct(db: Db) {
    && (forall id :: id in db.invoices ==> db.invoices[id].number <= Counter(db, db.invoices[id].orgId))
    && (forall a, b | a in db.invoices && b in db.invoices && a != b && db.invoices[a].orgId == db.invoices[b].orgId ::
          db.invoices[a].number != db.invoices[b].number)
  }

  ghost predicate InvoicesSound(db: Db) {
    forall id :: id in db.invoices ==> Sound(db.invoices[id]) && db.invoices[id].amountPaid == PaidOn(db.payments, id)
  }

  ghost predicate PaymentsSound(db: Db) {
    forall i :: 0 <= i < |db.payments| ==>
      && db.payments[i].amount > 0 && db.payments[i].invoiceId in db.invoices
      && db.invoices[db.payments[i].invoiceId].orgId == db.payments[i].orgId
  }

  ghost predicate Ledger(db: Db) {
    InvoicesSound(db) && PaymentsSound(db) && KeysOnce(db.payments) && NumbersDistinct(db)
  }

  lemma {:induction false} BuiltLinesSound(ls: seq<LineRequest>)
    ensures |BuildLines(ls)| == |ls| && forall k :: 0 <= k < |ls| ==> LineSound(BuildLines(ls)[k])
  {
    if ls != [] { BuiltLinesSound(ls[..|ls| - 1]); }
  }

  lemma {:induction false} FindPaymentFinds(payments: seq<Payment>, orgId: string, key: string)
    ensures FindPayment(payments, orgId, key).Some? ==>
              var p := FindPayment(payments, orgId, key).value; p in payments && p.orgId == orgId && p.key == Some(key)
    ensures FindPayment(payments, orgId, key).None? ==>
              forall i :: 0 <= i < |payments| ==> !(payments[i].orgId == orgId && payments[i].key == Some(key))
  {
    if payments != [] { FindPaymentFinds(payments[1..], orgId, key); }
  }

  lemma PaidOnSnoc(payments: seq<Payment>, p: Payment, id: string)
    ensures PaidOn(payments + [p], id) == PaidOn(payments, id) + (if p.invoiceId == id then p.amount else 0)
  {
    assert (payments + [p])[..|payments|] == payments;
  }

  lemma {:induction false} NothingPaidYet(payments: seq<Payment>, id: string)
    requires forall i :: 0 <= i < |payments| ==> payments[i].invoiceId != id
    ensures PaidOn(payments, id) == 0
  {
    if payments != [] { NothingPaidYet(payments[..|payments| - 1], id); }
  }

  lemma EditKeepsSound(i: Invoice, c: Command)
    requires Sound(i) && c.Update? && Valid(c) && CanEdit(i.status)
    ensures var r := Edited(i, c.newTax, c.newDiscount, c.newLines);
      r.Ok? ==>
        && Sound(r.value) && r.value.amountPaid == i.amountPaid
        && r.value.orgId == i.orgId && r.value.number == i.number
  {
    if c.newLines.Some? { BuiltLinesSound(c.newLines.value); }
  }

  lemma PaymentKeepsSound(i: Invoice, amount: int)
    requires Sound(i) && CanRecordPayment(i.status) && amount > 0
    ensures Sound(PaidInto(i, amount))
  {}

  lemma SaveKeepsLedger(db: Db, id: string, i: Invoice)
    requires Ledger(db) && id in db.invoices && Sound(i)
    requires i.amountPaid == db.invoices[id].amountPaid && i.orgId == db.invoices[id].orgId &&
        i.number == db.invoices[id].number
    ensures Ledger(db.(invoices := db.invoices[id := i]))
  {
    SaveKeepsNumbers(db, id, i);
  }

  lemma SaveKeepsNumbers(db: Db, id: string, i: Invoice)
    requires NumbersDistinct(db) && id in db.invoices
    requires i.orgId == db.invoices[id].orgId && i.number == db.invoices[id].number
    ensures NumbersDistinct(db.(invoices := db.invoices[id := i]))
  {}

  lemma CountKeepsNumbers(db: Db, orgId: string)
    requires NumbersDistinct(db)
    ensures NumbersDistinct(db.(numbers := db.numbers[orgId := Counter(db, orgId) + 1]))
  {}

  lemma InsertKeepsNumbers(db: Db, id: string, i: Invoice)
    requires NumbersDistinct(db) && id !in db.invoices && i.number == Counter(db, i.orgId) + 1
    ensures NumbersDistinct(Db(db.invoices[id := i], db.payments, db.numbers[i.orgId := i.number]))
  {}

  lemma InsertKeepsSums(db: Db, id: string, i: Invoice)
    requires InvoicesSound(db) && PaymentsSound(db) && id !in db.invoices && Sound(i) && i.amountPaid == 0
    ensures InvoicesSound(db.(invoices := db.invoices[id := i])) && PaymentsSound(db.(invoices := db.invoices[id := i]))
  {
    NothingPaidYet(db.payments, id);
  }

  lemma CreateKeepsLedger(db: Db, c: Command)
    requires Ledger(db) && c.Create? && Valid(c)
    ensures Ledger(Apply(db, c).0)
  {
    BuiltLinesSound(c.lines);
    CountKeepsNumbers(db, c.orgId);
    var r := Apply(db, c).1;
    if r.Ok? {
      InsertKeepsNumbers(db, c.id, r.value.invoice);
      InsertKeepsSums(db, c.id, r.value.invoice);
    }
  }

  lemma PaymentKeepsSums(db: Db, p: Payment)
    requires InvoicesSound(db) && PaymentsSound(db) && p.amount > 0
    requires Load(db, p.orgId, p.invoiceId).Some? && CanRecordPayment(db.invoices[p.invoiceId].status)
    ensures var after := db.(invoices := db.invoices[p.invoiceId := PaidInto(db.invoices[p.invoiceId], p.amount)],
                             payments := db.payments + [p]);
      InvoicesSound(after) && PaymentsSound(after)
  {
    PaymentKeepsSound(db.invoices[p.invoiceId], p.amount);
    forall id | id in db.invoices
      ensures PaidOn(db.payments + [p], id) == PaidOn(db.payments, id) + (if p.invoiceId == id then p.amount else 0)
    {
      PaidOnSnoc(db.payments, p, id);
    }
  }

  lemma NewKeyKeepsOnce(payments: seq<Payment>, p: Payment)
    requires KeysOnce(payments)
    requires p.key.Some? ==> FindPayment(payments, p.orgId, p.key.value).None?
    ensures KeysOnce(payments + [p])
  {
    if p.key.Some? { FindPaymentFinds(payments, p.orgId, p.key.value); }
  }

  lemma PayKeepsLedger(db: Db, c: Command)
    requires Ledger(db) && c.Pay? && Valid(c)
    ensures Ledger(Apply(db, c).0)
  {
    var r := Apply(db, c).1;
    if r.Ok? && r.value.Recorded? {
      var p := r.value.payment;
      PaymentKeepsSums(db, p);
      NewKeyKeepsOnce(db.payments, p);
      SaveKeepsNumbers(db, c.id, PaidInto(db.invoices[c.id], c.amount));
    }
  }

  /** Every call keeps the whole ledger, whether it succeeds or is refused. */
  lemma CommandKeepsLedger(db: Db, c: Command)
    requires Ledger(db) && Valid(c)
    ensures Ledger(Apply(db, c).0)
  {
    match c {
      case Create(_, _, _, _, _) => CreateKeepsLedger(db, c);
      case Pay(_, _, _, _) => PayKeepsLedger(db, c);
      case Update(orgId, id, tax, discount, lines) =>
        var loaded := Load(db, orgId, id);
        if loaded.Some? && CanEdit(loaded.value.status) {
          EditKeepsSound(loaded.value, c);
          var r := Edited(loaded.value, tax, discount, lines);
          if r.Ok? { SaveKeepsLedger(db, id, r.value); }
        }
      case Delete(orgId, id) =>
        if Load(db, orgId, id).Some? { SaveKeepsLedger(db, id, db.invoices[id].(isDeleted := true)); }
      case Send(orgId, id) =>
        var loaded := Load(db, orgId, id);
        if loaded.Some? && CanSend(loaded.value.status) { SaveKeepsLedger(db, id, loaded.value.(status := Sent)); }
      case Annul(orgId, id) =>
        var loaded := Load(db, orgId, id);
        if loaded.Some? && CanVoid(loaded.value.status) { SaveKeepsLedger(db, id, loaded.value.(status := Void)); }
    }
  }

  function Run(db: Db, cs: seq<Command>): Db
    decreases |cs|
  {
    if cs == [] then db else Run(Apply(db, cs[0]).0, cs[1..])
  }

  ghost predicate AllValid(cs: seq<Command>) { forall i :: 0 <= i < |cs| ==> Valid(cs[i]) }

  lemma {:induction false} RunKeepsLedger(db: Db, cs: seq<Command>)
    requires Ledger(db) && AllValid(cs)
    ensures Ledger(Run(db, cs))
    decreases |cs|
  {
    if cs != [] {
      CommandKeepsLedger(db, cs[0]);
      RunKeepsLedger(Apply(db, cs[0]).0, cs[1..]);
    }
  }

  /** In every reachable state the stored figures are the sums they stand for. */
  lemma EveryReachableLedger(cs: seq<Command>)
    requires AllValid(cs)
    ensures Ledger(Run(Db(map[], [], map[]), cs))
  {
    RunKeepsLedger(Db(map[], [], map[]), cs);
  }

  /** Repeating a payment under its key moves no money, whatever invoice it names. */
  lemma ReplayChangesNothing(db: Db, c: Command, again: Command)
    requires c.Pay? && again.Pay? && c.key.Some? && again.key == c.key && again.orgId == c.orgId
    requires Apply(db, c).1.Ok? && Apply(db, c).1.value.Recorded?
    ensures Apply(Apply(db, c).0, again).0 == Apply(db, c).0
  {
    var after := Apply(db, c).0;
    FindPaymentFinds(after.payments, c.orgId, c.key.value);
    assert after.payments[|db.payments|] == Payment(c.orgId, c.id, c.amount, c.key);
  }

  /** The key was already used for another invoice of the organisation. */
  ghost predicate KeyElsewhere(db: Db, c: Command)
    requires c.Pay?
  {
    c.key.Some? && exists p :: p in db.payments && p.orgId == c.orgId && p.key == c.key && p.invoiceId != c.id
  }

  lemma OneHolder(payments: seq<Payment>, p: Payment, q: Payment)
    requires KeysOnce(payments) && p in payments && q in payments && p.orgId == q.orgId && p.key == q.key && p.key.Some?
    ensures p == q
  {
    var i :| 0 <= i < |payments| && payments[i] == p;
    var j :| 0 <= j < |payments| && payments[j] == q;
  }

  /** A successful call answers with a payment on the invoice it names exactly when its key has
      not been used for another one. */
  lemma AnswerIsOwnIff(db: Db, c: Command)
    requires Ledger(db) && c.Pay? && Apply(db, c).1.Ok?
    ensures !Apply(db, c).1.value.Done?
    ensures Apply(db, c).1.value.payment.invoiceId == c.id <==> !KeyElsewhere(db, c)
  {
    if c.key.Some? {
      FindPaymentFinds(db.payments, c.orgId, c.key.value);
      var found := FindPayment(db.payments, c.orgId, c.key.value);
      if found.Some? && KeyElsewhere(db, c) {
        var p :| p in db.payments && p.orgId == c.orgId && p.key == c.key && p.invoiceId != c.id;
        OneHolder(db.payments, p, found.value);
      }
    }
  }

  /** Any two payable invoices of one organisation show it: pay the first, then the second under
      the same key, and the second is answered with the first one's payment and stays unpaid. */
  lemma OtherInvoiceAnswered(db: Db, first: Command, second: Command)
    requires first.Pay? && second.Pay? && first.id != second.id && first.orgId == second.orgId
    requires first.key.Some? && first.key.value != "" && second.key == first.key
    requires FindPayment(db.payments, first.orgId, first.key.value).None?
    requires Load(db, first.orgId, first.id).Some? && CanRecordPayment(db.invoices[first.id].status)
    requires Load(db, first.orgId, second.id).Some? && CanRecordPayment(db.invoices[second.id].status)
    ensures var paid, answer := Apply(db, first).0, Apply(Apply(db, first).0, second).1;
      && answer.Ok? && answer.value.Replayed?
      && answer.value.payment == Payment(first.orgId, first.id, first.amount, first.key)
      && Apply(paid, second).0 == paid && paid.invoices[second.id] == db.invoices[second.id]
  {
    FindPaymentFinds(db.payments, first.orgId, first.key.value);
    FindSnoc(db.payments, Payment(first.orgId, first.id, first.amount, first.key), first.orgId, first.key.value);
  }

  /** Creating and sending leaves the invoice payable, and every other row as it was. */
  lemma CreatedAndSent(db: Db, orgId: string, id: string, line: LineRequest)
    requires id !in db.invoices && line.quantity >= 0.0 && line.unitPriceCents >= 0
    ensures var sent := Apply(Apply(db, Create(orgId, id, [line], 0, 0)).0, Send(orgId, id)).0;
      && Load(sent, orgId, id).Some? && sent.invoices[id].status == Sent && sent.payments == db.payments
      && forall k :: k in db.invoices ==> k in sent.invoices && sent.invoices[k] == db.invoices[k]
  {
    assert [line][..0] == [] && BuildLines([]) == [];
    var lines := BuildLines([line]);
    assert lines == [BuildLine(line)];
    assert lines[..0] == [] && Subtotal([]) == 0;
    assert Subtotal(lines) == LineAmount(line.quantity, line.unitPriceCents);
    assert line.quantity * line.unitPriceCents as real >= 0.0;
    assert ComputeTotals(lines, 0, 0).Ok?;
  }

  /** From empty tables: two invoices of one organisation, each created and sent, then one payment
      under one key for each. */
  lemma ReplayedOnOther(orgId: string, line: LineRequest, amount: int) returns (cs: seq<Command>)
    requires line.quantity > 0.0 && line.unitPriceCents >= 0 && amount > 0
    ensures AllValid(cs) && |cs| == 5
    ensures var db := Run(Db(map[], [], map[]), cs);
      var again := Apply(db, Pay(orgId, "B", amount, Some("k")));
      && again.0 == db && again.1 == Ok(Replayed(Payment(orgId, "A", amount, Some("k"))))
  {
    var start := Db(map[], [], map[]);
    var makeA, makeB := Create(orgId, "A", [line], 0, 0), Create(orgId, "B", [line], 0, 0);
    cs := [makeA, Send(orgId, "A"), makeB, Send(orgId, "B"), Pay(orgId, "A", amount, Some("k"))];
    var one := Apply(Apply(start, makeA).0, Send(orgId, "A")).0;
    CreatedAndSent(start, orgId, "A", line);
    ApplyKeepsOthers(start, orgId, line, one);
    var two := Apply(Apply(one, makeB).0, Send(orgId, "B")).0;
    CreatedAndSent(one, orgId, "B", line);
    OtherInvoiceAnswered(two, cs[4], Pay(orgId, "B", amount, Some("k")));
    RunFive(start, cs);
  }

  lemma ApplyKeepsOthers(start: Db, orgId: string, line: LineRequest, one: Db)
    requires start == Db(map[], [], map[])
    requires one == Apply(Apply(start, Create(orgId, "A", [line], 0, 0)).0, Send(orgId, "A")).0
    ensures "B" !in one.invoices
  {}

  lemma RunFive(db: Db, cs: seq<Command>)
    requires |cs| == 5
    ensures Run(db, cs) == Apply(Apply(Apply(Apply(Apply(db, cs[0]).0, cs[1]).0, cs[2]).0, cs[3]).0, cs[4]).0
  {
    var d1 := Apply(db, cs[0]).0;
    var d2 := Apply(d1, cs[1]).0;
    var d3 := Apply(d2, cs[2]).0;
    var d4 := Apply(d3, cs[3]).0;
    RunOne(db, cs);
    RunOne(d1, cs[1..]);
    RunOne(d2, cs[2..]);
    RunOne(d3, cs[3..]);
    RunOne(d4, cs[4..]);
    assert cs[5..] == [];
  }

  lemma RunOne(db: Db, cs: seq<Command>)
    requires cs != []
    ensures Run(db, cs) == Run(Apply(db, cs[0]).0, cs[1..])
  {}

  lemma {:induction false} FindSnoc(payments: seq<Payment>, p: Payment, orgId: string, key: string)
    requires FindPayment(payments, orgId, key).None? && p.orgId == orgId && p.key == Some(key)
    ensures FindPayment(payments + [p], orgId, key) == Some(p)
  {
    if payments != [] {
      assert (payments + [p])[1..] == payments[1..] + [p];
      FindSnoc(payments[1..], p, orgId, key);
    }
  }

  // ===== what whole runs cannot do =====

  function Rank(s: Status): nat {
    match s
    case Draft => 0
    case Sent => 1
    case PartiallyPaid => 2
    case Paid => 3
    case Void => 4
  }

  /** An edit that lifts the total of a paid invoice above what has been paid. */
  ghost predicate LiftsTotal(db: Db, c: Command, id: string) {
    && c.Update? && c.id == id && Load(db, c.orgId, id).Some?
    && var i := db.invoices[id];
      && i.status == Paid
      && Edited(i, c.newTax, c.newDiscount, c.newLines).Ok?
      && Edited(i, c.newTax, c.newDiscount, c.newLines).value.total > i.amountPaid
  }

  /** What one call may do to one invoice. */
  ghost predicate MayBecome(i: Invoice, j: Invoice) {
    && j.amountPaid >= i.amountPaid
    && (i.status != Draft ==> j.status != Draft)
    && (i.amountPaid > 0 ==> j.status in {PartiallyPaid, Paid, Void})
    && (i.status == Void ==> j == i.(isDeleted := j.isDeleted))
    && (i.isDeleted ==> j == i)
  }

  /** What a call that loads row `i` and succeeds writes in its place. */
  ghost predicate Touch(i: Invoice, c: Command, j: Invoice) {
    match c
    case Create(_, _, _, _, _) => false
    case Update(_, _, tax, discount, lines) => CanEdit(i.status) && Edited(i, tax, discount, lines) == Ok(j)
    case Delete(_, _) => j == i.(isDeleted := true)
    case Send(_, _) => CanSend(i.status) && j == i.(status := Sent)
    case Annul(_, _) => CanVoid(i.status) && j == i.(status := Void)
    case Pay(_, _, amount, _) => CanRecordPayment(i.status) && j == PaidInto(i, amount)
  }

  /** A call leaves a row as it was, or is about that row and writes it as `Touch` says. */
  lemma RowAfter(db: Db, c: Command, id: string)
    requires id in db.invoices
    ensures id in Apply(db, c).0.invoices
    ensures var j := Apply(db, c).0.invoices[id];
      j == db.invoices[id] || (c.id == id && Load(db, c.orgId, id).Some? && Touch(db.invoices[id], c, j))
  {}

  lemma EditWrites(db: Db, c: Command, id: string)
    requires c.Update? && c.id == id && Load(db, c.orgId, id).Some? && CanEdit(db.invoices[id].status)
    requires Edited(db.invoices[id], c.newTax, c.newDiscount, c.newLines).Ok?
    ensures id in Apply(db, c).0.invoices
    ensures Apply(db, c).0.invoices[id] == Edited(db.invoices[id], c.newTax, c.newDiscount, c.newLines).value
  {}

  lemma TouchMayBecome(i: Invoice, c: Command, j: Invoice)
    requires Sound(i) && !i.isDeleted && Valid(c) && Touch(i, c, j)
    ensures MayBecome(i, j)
    ensures Rank(j.status) < Rank(i.status) ==>
        c.Update? && i.status == Paid && j.total > i.amountPaid && j.status == PartiallyPaid
  {
    match c {
      case Update(_, _, _, _, _) => EditMayBecome(i, c);
      case Pay(_, _, amount, _) => PayMayBecome(i, amount);
      case _ =>
    }
  }

  lemma OneCall(db: Db, c: Command, id: string)
    requires Ledger(db) && Valid(c) && id in db.invoices
    ensures id in Apply(db, c).0.invoices
    ensures MayBecome(db.invoices[id], Apply(db, c).0.invoices[id])
  {
    var i, j := db.invoices[id], Apply(db, c).0.invoices[id];
    assert Sound(i);
    RowAfter(db, c, id);
    if j != i { TouchMayBecome(i, c, j); }
  }

  lemma BackMeansLifted(db: Db, c: Command, id: string)
    requires Ledger(db) && Valid(c) && id in db.invoices && id in Apply(db, c).0.invoices
    requires Rank(Apply(db, c).0.invoices[id].status) < Rank(db.invoices[id].status)
    ensures LiftsTotal(db, c, id)
  {
    var i, j := db.invoices[id], Apply(db, c).0.invoices[id];
    assert Sound(i);
    RowAfter(db, c, id);
    TouchMayBecome(i, c, j);
  }

  lemma LiftedMeansBack(db: Db, c: Command, id: string)
    requires Ledger(db) && Valid(c) && id in db.invoices && LiftsTotal(db, c, id)
    ensures id in Apply(db, c).0.invoices && Apply(db, c).0.invoices[id].status == PartiallyPaid
  {
    var i := db.invoices[id];
    assert Sound(i);
    EditWrites(db, c, id);
    EditMayBecome(i, c);
  }

  /** A call moves a status back exactly when it is an edit that lifts a paid total, and then
      to partially paid. */
  lemma BackIffLifted(db: Db, c: Command, id: string)
    requires Ledger(db) && Valid(c) && id in db.invoices
    ensures id in Apply(db, c).0.invoices
    ensures Rank(Apply(db, c).0.invoices[id].status) < Rank(db.invoices[id].status) <==> LiftsTotal(db, c, id)
    ensures LiftsTotal(db, c, id) ==> Apply(db, c).0.invoices[id].status == PartiallyPaid
  {
    RowAfter(db, c, id);
    if LiftsTotal(db, c, id) {
      LiftedMeansBack(db, c, id);
    } else if Rank(Apply(db, c).0.invoices[id].status) < Rank(db.invoices[id].status) {
      BackMeansLifted(db, c, id);
    }
  }

  lemma EditMayBecome(i: Invoice, c: Command)
    requires Sound(i) && !i.isDeleted && c.Update? && Valid(c) && CanEdit(i.status)
    ensures var r := Edited(i, c.newTax, c.newDiscount, c.newLines);
      r.Ok? ==>
        && MayBecome(i, r.value)
        && (Rank(r.value.status) < Rank(i.status) <==> i.status == Paid && r.value.total > i.amountPaid)
        && (Rank(r.value.status) < Rank(i.status) ==> r.value.status == PartiallyPaid)
  {}

  lemma PayMayBecome(i: Invoice, amount: int)
    requires Sound(i) && !i.isDeleted && CanRecordPayment(i.status) && amount > 0
    ensures MayBecome(i, PaidInto(i, amount)) && Rank(PaidInto(i, amount).status) >= Rank(i.status)
  {}

  /** Draft is never re-entered, void freezes an invoice, money is never taken back, and an
      invoice with a payment is never draft or sent again, over runs of any length. */
  lemma {:induction false} NoWayBack(db: Db, cs: seq<Command>, id: string)
    requires Ledger(db) && AllValid(cs) && id in db.invoices
    ensures id in Run(db, cs).invoices && MayBecome(db.invoices[id], Run(db, cs).invoices[id])
    decreases |cs|
  {
    if cs != [] {
      OneCall(db, cs[0], id);
      CommandKeepsLedger(db, cs[0]);
      NoWayBack(Apply(db, cs[0]).0, cs[1..], id);
    } else {
      assert Sound(db.invoices[id]);
    }
  }

  /** A void row stays void, and a deleted one exactly as it is, whatever is called. */
  lemma {:induction false} RowStays(db: Db, cs: seq<Command>, id: string)
    requires id in db.invoices
    ensures id in Run(db, cs).invoices
    ensures db.invoices[id].status == Void ==> Run(db, cs).invoices[id].status == Void
    ensures db.invoices[id].isDeleted ==> Run(db, cs).invoices[id] == db.invoices[id]
    decreases |cs|
  {
    if cs != [] {
      RowAfter(db, cs[0], id);
      RowStays(Apply(db, cs[0]).0, cs[1..], id);
    }
  }

  /** Once an invoice has been voided, every later edit, send, payment and void of it is refused and
      changes nothing, over runs of any length. */
  lemma VoidIsFinal(db: Db, orgId: string, id: string, cs: seq<Command>, later: Command)
    requires Visible(db, orgId, id) && db.invoices[id].status != Void
    requires later.id == id && (later.Update? || later.Send? || later.Pay? || later.Annul?)
    ensures var end := Run(Apply(db, Annul(orgId, id)).0, cs);
      && id in end.invoices && end.invoices[id].status == Void
      && Apply(end, later).1.Err? && Apply(end, later).0 == end
  {
    RowStays(Apply(db, Annul(orgId, id)).0, cs, id);
  }

  /** Once an invoice has been deleted no call finds it or changes it again, over runs of any length. */
  lemma DeletedIsGone(db: Db, orgId: string, id: string, cs: seq<Command>, later: Command)
    requires Visible(db, orgId, id) && later.id == id
    ensures var end := Run(Apply(db, Delete(orgId, id)).0, cs);
      && id in end.invoices && end.invoices[id] == db.invoices[id].(isDeleted := true)
      && Apply(end, later).1.Err? && Apply(end, later).0.invoices == end.invoices
      && (!later.Create? ==> Apply(end, later) == (end, Err(NotFound)))
  {
    RowStays(Apply(db, Delete(orgId, id)).0, cs, id);
  }

  /** A call touches no row but its own, and refused it touches none. */
  lemma OnlyItsOwnRow(db: Db, c: Command, id: string)
    ensures id != c.id || Apply(db, c).1.Err? ==>
      && (id in Apply(db, c).0.invoices <==> id in db.invoices)
      && (id in db.invoices ==> Apply(db, c).0.invoices[id] == db.invoices[id])
    ensures !c.Pay? || Apply(db, c).1.Err? ==> Apply(db, c).0.payments == db.payments
  {}

  /** No command of the run is such an edit at the moment it runs. */
  ghost predicate NeverLifts(db: Db, cs: seq<Command>, id: string)
    decreases |cs|
  {
    cs != [] ==> !LiftsTotal(db, cs[0], id) && NeverLifts(Apply(db, cs[0]).0, cs[1..], id)
  }

  /** Without edits that lift a paid total, the status never moves backwards. */
  lemma {:induction false} ForwardOnly(db: Db, cs: seq<Command>, id: string)
    requires Ledger(db) && AllValid(cs) && id in db.invoices && NeverLifts(db, cs, id)
    ensures id in Run(db, cs).invoices && Rank(db.invoices[id].status) <= Rank(Run(db, cs).invoices[id].status)
    decreases |cs|
  {
    if cs != [] {
      BackIffLifted(db, cs[0], id);
      CommandKeepsLedger(db, cs[0]);
      ForwardOnly(Apply(db, cs[0]).0, cs[1..], id);
    }
  }

  /** "No backtracking" does fail, for every paid invoice: a tax correction that lifts the total
      above what was paid sends it back to partially paid. */
  lemma EveryPaidCanFallBack(i: Invoice, extra: int)
    requires Sound(i) && i.status == Paid && extra > i.amountPaid - i.total
    ensures var r := Edited(i, Some(i.tax + extra), None, None);
      r.Ok? && r.value.total == i.total + extra && r.value.status == PartiallyPaid
  {
    var edited := i.(tax := i.tax + extra);
    assert ComputeTotals(edited.lines, edited.tax, edited.discount) == Ok((i.subtotal, i.total + extra));
  }
}
