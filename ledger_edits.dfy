/**
 * What the dashboard's form handlers and delete buttons do to the three
 * collections: add or edit a customer, add (or merge) or edit a loan,
 * record a payment, and the cascading deletes. Fresh identifiers and
 * timestamps come in as parameters.
 */
module Edits {
  import opened Wrappers
  import opened Seqs
  import opened Text
  import opened Records

  /** Why a form submission was turned away (shown as a warning toast). */
  datatype FormError = MissingRequiredFields | NoCustomerChosen

  /**
   * `Number.parseFloat(field) || 0`, with `parsed` the outcome of parsing
   * the field (None when it is not a number): an unparsable amount is zero.
   */
  function AmountOrZero(parsed: Option<int>): (r: int)
    ensures parsed.None? ==> r == 0
    ensures parsed.Some? ==> r == parsed.value
  {
    match parsed
    case Some(v) => v
    case None => 0
  }

  /** `s || fallback` on strings: the empty string falls back. */
  function OrElse(s: string, fallback: string): (r: string)
    ensures s != [] ==> r == s
    ensures s == [] ==> r == fallback
  {
    if s != [] then s else fallback
  }

  // ---------------------------------------------------------------- customers

  datatype CustomerForm = CustomerForm(name: string, phone: string, address: string, totalAmount: Option<int>)

  /** Name, phone and address must each hold something other than white space. */
  predicate CustomerFormComplete(form: CustomerForm)
  {
    Trim(form.name) != [] && Trim(form.phone) != [] && Trim(form.address) != []
  }

  /** A text field counts as filled when it holds some character other than white space. */
  predicate Filled(s: string)
  {
    exists i :: 0 <= i < |s| && !IsSpace(s[i])
  }

  /** A customer form is complete exactly when name, phone and address each hold a non-white-space character. */
  lemma CustomerFormCompleteIff(form: CustomerForm)
    ensures CustomerFormComplete(form) <==> Filled(form.name) && Filled(form.phone) && Filled(form.address)
  {
  }

  /** The record a customer submission stores: trimmed fields; identifier and registration time kept from the customer being edited unless empty. */
  function CustomerRecord(form: CustomerForm, editing: Option<Customer>, freshId: string, now: string): (c: Customer)
    ensures c.name == Trim(form.name) && c.phone == Trim(form.phone) && c.address == Trim(form.address)
    ensures c.totalAmount == AmountOrZero(form.totalAmount)
    ensures editing.None? ==> c.id == freshId && c.registeredAt == now
    ensures editing.Some? && editing.value.id != [] ==> c.id == editing.value.id
    ensures editing.Some? && editing.value.registeredAt != [] ==> c.registeredAt == editing.value.registeredAt
    ensures editing.Some? && editing.value.id == [] ==> c.id == freshId
    ensures editing.Some? && editing.value.registeredAt == [] ==> c.registeredAt == now
  {
    var keptId := if editing.Some? then editing.value.id else [];
    var keptAt := if editing.Some? then editing.value.registeredAt else [];
    Customer(OrElse(keptId, freshId), Trim(form.name), Trim(form.phone), Trim(form.address),
             AmountOrZero(form.totalAmount), OrElse(keptAt, now))
  }

  function HasCustomerId(id: string): Customer -> bool
  {
    (c: Customer) => c.id == id
  }

  /**
   * `handleCustomerSubmit`: an incomplete form is rejected; an edit replaces
   * the customers with the edited customer's identifier; anything else puts
   * the new customer first.
   */
  function SubmitCustomer(customers: seq<Customer>, form: CustomerForm, editing: Option<Customer>,
                          freshId: string, now: string): (r: Result<seq<Customer>, FormError>)
    ensures r.Failure? <==> !CustomerFormComplete(form)
    ensures r.Failure? ==> r.error == MissingRequiredFields
    ensures r.Success? && editing.None? ==>
      r.value == [CustomerRecord(form, editing, freshId, now)] + customers
    ensures r.Success? && editing.Some? ==>
      |r.value| == |customers| &&
      forall i :: 0 <= i < |customers| ==>
        r.value[i] == (if customers[i].id == editing.value.id then CustomerRecord(form, editing, freshId, now) else customers[i])
  {
    if !CustomerFormComplete(form) then Failure(MissingRequiredFields)
    else
      var data := CustomerRecord(form, editing, freshId, now);
      match editing
      case Some(e) => Success(Replace(customers, HasCustomerId(e.id), data))
      case None => Success([data] + customers)
  }

  /** Adding or editing a customer (whose identifier is not empty) keeps every identifier that was there, so no loan loses its customer. */
  lemma SubmitCustomerKeepsIds(customers: seq<Customer>, form: CustomerForm, editing: Option<Customer>,
                               freshId: string, now: string)
    requires editing.Some? ==> editing.value.id != []
    requires SubmitCustomer(customers, form, editing, freshId, now).Success?
    ensures CustomerIds(customers) <= CustomerIds(SubmitCustomer(customers, form, editing, freshId, now).value)
  {
    var data := CustomerRecord(form, editing, freshId, now);
    var r := SubmitCustomer(customers, form, editing, freshId, now).value;
    match editing
    case Some(e) =>
      assert r == Replace(customers, HasCustomerId(e.id), data);
      ReplaceCustomerKeepsIds(customers, e.id, data);
    case None =>
      assert r == [data] + customers;
      assert forall c :: c in customers ==> c in r;
  }

  /** Adding or editing a customer (whose identifier is not empty) keeps the books free of orphans. */
  lemma SubmitCustomerKeepsNoOrphans(b: Books, form: CustomerForm, editing: Option<Customer>, freshId: string, now: string)
    requires NoOrphans(b)
    requires editing.Some? ==> editing.value.id != []
    ensures var r := SubmitCustomer(b.customers, form, editing, freshId, now);
      r.Success? ==> NoOrphans(b.(customers := r.value))
  {
    var r := SubmitCustomer(b.customers, form, editing, freshId, now);
    if r.Success? {
      SubmitCustomerKeepsIds(b.customers, form, editing, freshId, now);
    }
  }

  /** Swapping in a record with the same identifier loses no identifier. */
  lemma ReplaceCustomerKeepsIds(customers: seq<Customer>, id: string, data: Customer)
    requires data.id == id
    ensures CustomerIds(customers) <= CustomerIds(Replace(customers, HasCustomerId(id), data))
  {
    var r := Replace(customers, HasCustomerId(id), data);
    forall x | x in CustomerIds(customers) ensures x in CustomerIds(r) {
      var c :| c in customers && c.id == x;
      var i :| 0 <= i < |customers| && customers[i] == c;
      assert r[i].id == x && r[i] in r;
    }
  }

  // -------------------------------------------------------------------- loans

  /** The loan form; `amount` is the text typed, `parsedAmount` what parsing it gave, `date` None when the field is empty. */
  datatype LoanForm = LoanForm(customerId: string, description: string, amount: string,
                               parsedAmount: Option<int>, date: Option<int>)

  /** Customer, description, amount and date must all be filled in. */
  predicate LoanFormComplete(form: LoanForm)
  {
    form.customerId != [] && Trim(form.description) != [] && form.amount != [] && form.date.Some?
  }

  /** A loan form is complete exactly when the customer, amount and date are set and the description holds a non-white-space character. */
  lemma LoanFormCompleteIff(form: LoanForm)
    ensures LoanFormComplete(form) <==> form.customerId != [] && Filled(form.description) && form.amount != [] && form.date.Some?
  {
  }

  predicate IsPendingOf(l: Loan, customerId: string)
  {
    l.customerId == customerId && l.status == Pending
  }

  /** Where `loans.find` finds the customer's first pending loan, if there is one. */
  function FirstPending(loans: seq<Loan>, customerId: string): (r: Option<nat>)
    ensures r.None? ==> forall l :: l in loans ==> !IsPendingOf(l, customerId)
    ensures r.Some? ==> r.value < |loans| && IsPendingOf(loans[r.value], customerId)
    ensures r.Some? ==> forall j :: 0 <= j < r.value ==> !IsPendingOf(loans[j], customerId)
  {
    if loans == [] then None
    else if IsPendingOf(loans[0], customerId) then Some(0)
    else match FirstPending(loans[1..], customerId)
      case None => None
      case Some(k) => Some(k + 1)
  }

  function HasLoanId(id: string): Loan -> bool
  {
    (l: Loan) => l.id == id
  }

  /** The loan an edit stores: the form's fields, with the edited loan's identifier, status and creation time. */
  function EditedLoan(editing: Loan, form: LoanForm, customer: Customer): (r: Loan)
    requires form.date.Some?
    ensures r.id == editing.id && r.status == editing.status && r.createdAt == editing.createdAt
    ensures r.customerId == form.customerId && r.customerName == customer.name
    ensures r.description == Trim(form.description) && r.amount == AmountOrZero(form.parsedAmount)
    ensures r.date == form.date.value
  {
    Loan(editing.id, form.customerId, customer.name, Trim(form.description),
         AmountOrZero(form.parsedAmount), form.date.value, editing.status, editing.createdAt)
  }

  /**
   * A new draw merged into a pending loan: the amounts add up, the draw is
   * noted at the end of the description (`amountText` is how
   * `toLocaleString` prints an amount), and the date moves to the draw's date.
   */
  function MergedLoan(existing: Loan, form: LoanForm, newAmount: int, amountText: int -> string): (r: Loan)
    requires form.date.Some?
    ensures r.id == existing.id && r.status == existing.status && r.createdAt == existing.createdAt
    ensures r.customerId == existing.customerId && r.customerName == existing.customerName
    ensures r.amount == existing.amount + newAmount
    ensures r.description == existing.description + "\n+ " + Trim(form.description) + " ($" + amountText(newAmount) + ")"
    ensures r.date == form.date.value
  {
    existing.(amount := existing.amount + newAmount,
              description := existing.description + "\n+ " + Trim(form.description) + " ($" + amountText(newAmount) + ")",
              date := form.date.value)
  }

  /** A loan created from the form, pending. */
  function NewLoan(form: LoanForm, customer: Customer, freshId: string, now: string): (r: Loan)
    requires form.date.Some?
    ensures r.id == freshId && r.status == Pending && r.createdAt == now
    ensures r.customerId == form.customerId && r.customerName == customer.name
    ensures r.description == Trim(form.description) && r.amount == AmountOrZero(form.parsedAmount)
    ensures r.date == form.date.value
  {
    Loan(freshId, form.customerId, customer.name, Trim(form.description),
         AmountOrZero(form.parsedAmount), form.date.value, Pending, now)
  }

  /**
   * `handleLoanSubmit`: an incomplete form or an unknown customer is
   * rejected; an edit replaces the edited loan; a new draw for a customer
   * who has a pending loan is merged into the first one; otherwise a new
   * pending loan goes first.
   */
  function SubmitLoan(customers: seq<Customer>, loans: seq<Loan>, form: LoanForm, editing: Option<Loan>,
                      freshId: string, now: string, amountText: int -> string): (r: Result<seq<Loan>, FormError>)
    ensures !LoanFormComplete(form) ==> r == Failure(MissingRequiredFields)
    ensures LoanFormComplete(form) && form.customerId !in CustomerIds(customers) ==> r == Failure(NoCustomerChosen)
    ensures r.Success? <==> LoanFormComplete(form) && form.customerId in CustomerIds(customers)
  {
    if !LoanFormComplete(form) then Failure(MissingRequiredFields)
    else match FindCustomer(customers, form.customerId)
      case None => Failure(NoCustomerChosen)
      case Some(customer) =>
        match editing
        case Some(e) =>
          Success(Replace(loans, HasLoanId(e.id), EditedLoan(e, form, customer)))
        case None =>
          var newAmount := AmountOrZero(form.parsedAmount);
          match FirstPending(loans, form.customerId)
          case Some(k) =>
            Success(Replace(loans, HasLoanId(loans[k].id), MergedLoan(loans[k], form, newAmount, amountText)))
          case None =>
            Success([NewLoan(form, customer, freshId, now)] + loans)
  }

  /** Editing a loan rewrites only the entry with the edited loan's identifier (when identifiers are unique) and keeps the count. */
  lemma EditLoanReplacesOnlyIt(customers: seq<Customer>, loans: seq<Loan>, form: LoanForm, e: Loan,
                               freshId: string, now: string, amountText: int -> string, k: nat)
    requires LoanFormComplete(form) && form.customerId in CustomerIds(customers)
    requires UniqueLoanIds(loans) && k < |loans| && loans[k].id == e.id
    ensures var r := SubmitLoan(customers, loans, form, Some(e), freshId, now, amountText).value;
      && |r| == |loans|
      && r[k] == EditedLoan(e, form, FindCustomer(customers, form.customerId).value)
      && forall j :: 0 <= j < |loans| && j != k ==> r[j] == loans[j]
  {
  }

  /**
   * Adding a loan for a customer who already has a pending loan merges the
   * draw into the first such loan: no loan is added, that loan gets the
   * summed amount, and every other loan is as it was.
   */
  lemma AddLoanMerges(customers: seq<Customer>, loans: seq<Loan>, form: LoanForm,
                      freshId: string, now: string, amountText: int -> string, k: nat)
    requires LoanFormComplete(form) && form.customerId in CustomerIds(customers)
    requires UniqueLoanIds(loans)
    requires k < |loans| && IsPendingOf(loans[k], form.customerId)
    requires forall j :: 0 <= j < k ==> !IsPendingOf(loans[j], form.customerId)
    ensures var r := SubmitLoan(customers, loans, form, None, freshId, now, amountText).value;
      && |r| == |loans|
      && r[k] == MergedLoan(loans[k], form, AmountOrZero(form.parsedAmount), amountText)
      && r[k].amount == loans[k].amount + AmountOrZero(form.parsedAmount)
      && forall j :: 0 <= j < |loans| && j != k ==> r[j] == loans[j]
  {
  }

  /** Adding a loan for a customer with no pending loan puts one new pending loan in front of the list. */
  lemma AddLoanCreates(customers: seq<Customer>, loans: seq<Loan>, form: LoanForm,
                       freshId: string, now: string, amountText: int -> string)
    requires LoanFormComplete(form) && form.customerId in CustomerIds(customers)
    requires forall l :: l in loans ==> !IsPendingOf(l, form.customerId)
    ensures var r := SubmitLoan(customers, loans, form, None, freshId, now, amountText).value;
      && |r| == |loans| + 1
      && r[1..] == loans
      && r[0].id == freshId && r[0].status == Pending && r[0].customerId == form.customerId
      && r[0].amount == AmountOrZero(form.parsedAmount)
      && r[0] == NewLoan(form, FindCustomer(customers, form.customerId).value, freshId, now)
  {
  }

  /** Swapping in a loan that carries the identifier it replaces keeps the set of identifiers. */
  lemma ReplaceLoanKeepsIds(loans: seq<Loan>, id: string, v: Loan)
    requires v.id == id
    ensures LoanIds(Replace(loans, HasLoanId(id), v)) == LoanIds(loans)
  {
    var r := Replace(loans, HasLoanId(id), v);
    forall x | x in LoanIds(loans) ensures x in LoanIds(r) {
      var l :| l in loans && l.id == x;
      var i :| 0 <= i < |loans| && loans[i] == l;
      assert r[i].id == x;
    }
    forall x | x in LoanIds(r) ensures x in LoanIds(loans) {
      var l :| l in r && l.id == x;
      var i :| 0 <= i < |r| && r[i] == l;
      assert loans[i].id == x;
    }
  }

  /** After a swap every loan is either the new one or one that was there. */
  lemma ReplaceLoanElements(loans: seq<Loan>, id: string, v: Loan)
    ensures forall l :: l in Replace(loans, HasLoanId(id), v) ==> l == v || l in loans
  {
    var r := Replace(loans, HasLoanId(id), v);
    forall l | l in r ensures l == v || l in loans {
      var i :| 0 <= i < |r| && r[i] == l;
      assert r[i] == v || r[i] == loans[i];
    }
  }

  /**
   * The two shapes of a successful loan submission: a loan swapped in under
   * the identifier it already has (an edit or a merge), or a new loan with
   * the fresh identifier put in front. Either way the loan belongs to the
   * form's customer.
   */
  lemma SubmitLoanShape(customers: seq<Customer>, loans: seq<Loan>, form: LoanForm, editing: Option<Loan>,
                        freshId: string, now: string, amountText: int -> string)
    returns (v: Loan, swapped: bool)
    requires SubmitLoan(customers, loans, form, editing, freshId, now, amountText).Success?
    ensures v.customerId == form.customerId
    ensures var r := SubmitLoan(customers, loans, form, editing, freshId, now, amountText).value;
      if swapped then r == Replace(loans, HasLoanId(v.id), v)
      else r == [v] + loans && v.id == freshId
  {
    var r := SubmitLoan(customers, loans, form, editing, freshId, now, amountText).value;
    var customer := FindCustomer(customers, form.customerId).value;
    if editing.Some? {
      v, swapped := EditedLoan(editing.value, form, customer), true;
      assert r == Replace(loans, HasLoanId(v.id), v);
    } else if FirstPending(loans, form.customerId).Some? {
      var k := FirstPending(loans, form.customerId).value;
      v, swapped := MergedLoan(loans[k], form, AmountOrZero(form.parsedAmount), amountText), true;
      assert r == Replace(loans, HasLoanId(v.id), v);
    } else {
      v, swapped := NewLoan(form, customer, freshId, now), false;
      assert r == [v] + loans;
    }
  }

  /** A loan submission never drops a loan identifier and only ever points at a customer that exists, so it keeps the books free of orphans. */
  lemma SubmitLoanKeepsNoOrphans(b: Books, form: LoanForm, editing: Option<Loan>,
                                 freshId: string, now: string, amountText: int -> string)
    requires NoOrphans(b)
    requires SubmitLoan(b.customers, b.loans, form, editing, freshId, now, amountText).Success?
    ensures var r := SubmitLoan(b.customers, b.loans, form, editing, freshId, now, amountText).value;
      NoOrphans(b.(loans := r)) && LoanIds(b.loans) <= LoanIds(r)
  {
    var v, swapped := SubmitLoanShape(b.customers, b.loans, form, editing, freshId, now, amountText);
    StoredLoanKeepsNoOrphans(b, v, swapped);
  }

  /** Either way a submission stores a loan, the books keep every loan identifier and gain no orphan when the loan's customer exists. */
  lemma StoredLoanKeepsNoOrphans(b: Books, v: Loan, swapped: bool)
    requires NoOrphans(b) && v.customerId in CustomerIds(b.customers)
    ensures var r := if swapped then Replace(b.loans, HasLoanId(v.id), v) else [v] + b.loans;
      NoOrphans(b.(loans := r)) && LoanIds(b.loans) <= LoanIds(r)
  {
    if swapped {
      ReplaceLoanKeepsIds(b.loans, v.id, v);
      ReplaceLoanElements(b.loans, v.id, v);
    } else {
      assert LoanIds([v] + b.loans) == {v.id} + LoanIds(b.loans);
    }
  }

  /** Swapping in a loan that carries the identifier it replaces keeps every position's identifier, hence their uniqueness. */
  lemma ReplaceLoanKeepsUnique(loans: seq<Loan>, id: string, v: Loan)
    requires v.id == id && UniqueLoanIds(loans)
    ensures UniqueLoanIds(Replace(loans, HasLoanId(id), v))
  {
    var r := Replace(loans, HasLoanId(id), v);
    assert forall i :: 0 <= i < |r| ==> r[i].id == loans[i].id;
  }

  /**
   * A loan submission keeps loan identifiers unique, provided the fresh
   * identifier a new loan would get is not in use yet.
   */
  lemma SubmitLoanKeepsUniqueIds(customers: seq<Customer>, loans: seq<Loan>, form: LoanForm, editing: Option<Loan>,
                                 freshId: string, now: string, amountText: int -> string)
    requires UniqueLoanIds(loans) && freshId !in LoanIds(loans)
    ensures var r := SubmitLoan(customers, loans, form, editing, freshId, now, amountText);
      r.Success? ==> UniqueLoanIds(r.value)
  {
    if SubmitLoan(customers, loans, form, editing, freshId, now, amountText).Success? {
      var v, swapped := SubmitLoanShape(customers, loans, form, editing, freshId, now, amountText);
      StoredLoanKeepsUnique(loans, v, swapped, freshId);
    }
  }

  /** Storing a loan keeps identifiers unique: a swap keeps every identifier, a prepended loan carries the unused fresh one. */
  lemma StoredLoanKeepsUnique(loans: seq<Loan>, v: Loan, swapped: bool, freshId: string)
    requires UniqueLoanIds(loans) && freshId !in LoanIds(loans)
    requires !swapped ==> v.id == freshId
    ensures UniqueLoanIds(if swapped then Replace(loans, HasLoanId(v.id), v) else [v] + loans)
  {
    if swapped {
      ReplaceLoanKeepsUnique(loans, v.id, v);
    } else {
      var r := [v] + loans;
      assert forall k :: 0 <= k < |loans| ==> loans[k] in loans && loans[k].id != freshId;
      forall i, j | 0 < i < |r| && 0 < j < |r| && r[i].id == r[j].id ensures i == j {
        assert loans[i - 1].id == loans[j - 1].id;
      }
    }
  }

  // ----------------------------------------------------------------- payments

  /** The payment form; `amount` is what parsing the typed amount gave (None when it is not a number). */
  datatype PaymentForm = PaymentForm(amount: Option<int>, note: string, date: string)

  /** The payment a submission records against `loan`. */
  function NewPayment(loan: Loan, form: PaymentForm, freshId: string, now: string): (p: Payment)
    ensures p.id == freshId && p.loanId == loan.id && p.createdAt == now
    ensures p.amount == AmountOrZero(form.amount) && p.note == form.note && p.date == form.date
  {
    Payment(freshId, loan.id, AmountOrZero(form.amount), form.date, form.note, now)
  }

  /**
   * `handlePaymentSubmit`: with no loan selected nothing happens; otherwise
   * exactly one payment for the selected loan goes in front of the list, and
   * the loans carrying its identifier become paid when what has been paid
   * on it, this payment included, reaches the selected loan's amount.
   */
  function SubmitPayment(b: Books, selected: Option<Loan>, form: PaymentForm, freshId: string, now: string): (r: Books)
    ensures selected.None? ==> r == b
    ensures r.customers == b.customers && |r.loans| == |b.loans|
    ensures selected.Some? ==>
      r.payments == [NewPayment(selected.value, form, freshId, now)] + b.payments
    ensures selected.Some? ==>
      var settles := TotalPaid(b.payments, selected.value.id) + AmountOrZero(form.amount) >= selected.value.amount;
      forall i :: 0 <= i < |b.loans| ==>
        r.loans[i] == (if b.loans[i].id == selected.value.id && settles then b.loans[i].(status := Paid) else b.loans[i])
  {
    match selected
    case None => b
    case Some(loan) =>
      var p := NewPayment(loan, form, freshId, now);
      var payments := [p] + b.payments;
      TotalPaidCons(p, b.payments, loan.id);
      var loans := if TotalPaid(payments, loan.id) >= loan.amount then SetStatus(b.loans, loan.id, Paid) else b.loans;
      Books(b.customers, loans, payments)
  }

  /** A payment adds its amount to the selected loan's total and leaves every other loan's total alone. */
  lemma PaymentMovesOnlyItsTotal(b: Books, loan: Loan, form: PaymentForm, freshId: string, now: string, other: string)
    ensures var r := SubmitPayment(b, Some(loan), form, freshId, now);
      && TotalPaid(r.payments, loan.id) == TotalPaid(b.payments, loan.id) + AmountOrZero(form.amount)
      && (other != loan.id ==> TotalPaid(r.payments, other) == TotalPaid(b.payments, other))
  {
    var p := NewPayment(loan, form, freshId, now);
    TotalPaidCons(p, b.payments, loan.id);
    TotalPaidCons(p, b.payments, other);
  }

  /** A payment against a loan that exists keeps the books free of orphans. */
  lemma PaymentKeepsNoOrphans(b: Books, selected: Option<Loan>, form: PaymentForm, freshId: string, now: string)
    requires NoOrphans(b)
    requires selected.Some? ==> selected.value.id in LoanIds(b.loans)
    ensures NoOrphans(SubmitPayment(b, selected, form, freshId, now))
  {
    if selected.Some? {
      var r := SubmitPayment(b, selected, form, freshId, now);
      SetStatusKeepsIds(b.loans, selected.value.id, Paid);
      assert LoanIds(r.loans) == LoanIds(b.loans);
      forall l | l in r.loans ensures l.customerId in CustomerIds(b.customers) {
        var i :| 0 <= i < |r.loans| && r.loans[i] == l;
        assert l.customerId == b.loans[i].customerId;
        assert b.loans[i] in b.loans;
      }
    }
  }

  /** A payment changes loan statuses only, so loan identifiers stay unique. */
  lemma PaymentKeepsUniqueLoanIds(b: Books, selected: Option<Loan>, form: PaymentForm, freshId: string, now: string)
    requires UniqueLoanIds(b.loans)
    ensures UniqueLoanIds(SubmitPayment(b, selected, form, freshId, now).loans)
  {
    if selected.Some? {
      SetStatusKeepsIds(b.loans, selected.value.id, Paid);
    }
  }

  /**
   * Paying a pending loan in full settles it with nothing remaining; paying
   * `extra` more on top keeps it paid and leaves a negative remainder of
   * `-extra`: overpayment is shown, not clamped.
   */
  lemma {:induction false} FullPaymentThenOverpayment(b: Books, loan: Loan, extra: int, id1: string, id2: string, now: string)
    requires loan in b.loans && loan.status == Pending
    requires forall p :: p in b.payments ==> p.loanId != loan.id
    requires extra >= 0
    ensures var r1 := SubmitPayment(b, Some(loan), PaymentForm(Some(loan.amount), "", ""), id1, now);
      var r2 := SubmitPayment(r1, Some(loan), PaymentForm(Some(extra), "", ""), id2, now);
      && (forall l :: l in r1.loans && l.id == loan.id ==> l.status == Paid)
      && RemainingAmount(loan, r1.payments) == 0
      && (forall l :: l in r2.loans && l.id == loan.id ==> l.status == Paid)
      && TotalPaid(r2.payments, loan.id) == loan.amount + extra
      && RemainingAmount(loan, r2.payments) == -extra
  {
    var r1 := SubmitPayment(b, Some(loan), PaymentForm(Some(loan.amount), "", ""), id1, now);
    assert TotalPaid(b.payments, loan.id) == 0;
    PaymentSettles(b, loan, PaymentForm(Some(loan.amount), "", ""), id1, now);
    PaymentSettles(r1, loan, PaymentForm(Some(extra), "", ""), id2, now);
  }

  /** A payment that brings the total paid up to the selected amount marks every loan with that identifier paid. */
  lemma PaymentSettles(b: Books, loan: Loan, form: PaymentForm, freshId: string, now: string)
    requires TotalPaid(b.payments, loan.id) + AmountOrZero(form.amount) >= loan.amount
    ensures var r := SubmitPayment(b, Some(loan), form, freshId, now);
      && (forall l :: l in r.loans && l.id == loan.id ==> l.status == Paid)
      && TotalPaid(r.payments, loan.id) == TotalPaid(b.payments, loan.id) + AmountOrZero(form.amount)
  {
    var r := SubmitPayment(b, Some(loan), form, freshId, now);
    PaymentMovesOnlyItsTotal(b, loan, form, freshId, now, loan.id);
    forall l | l in r.loans && l.id == loan.id ensures l.status == Paid {
      var i :| 0 <= i < |r.loans| && r.loans[i] == l;
      assert r.loans[i] == b.loans[i].(status := Paid);
    }
  }
}
