/**
 * The three record kinds the loan book keeps (customers, loans, payments),
 * the balances derived from them, and the manual status change.
 * Amounts are integer cents; a loan's date is the millisecond timestamp of
 * the start of its day.
 */
module Records {
  import opened Wrappers
  import opened Seqs

  datatype Status = Pending | Paid | Overdue

  datatype Customer = Customer(
    id: string,
    name: string,
    phone: string,
    address: string,
    totalAmount: int,      // the self-reported figure typed into the form; nothing derives from it
    registeredAt: string)

  datatype Loan = Loan(
    id: string,
    customerId: string,
    customerName: string,  // copied when the loan is created and never refreshed
    description: string,
    amount: int,
    date: int,
    status: Status,
    createdAt: string)

  datatype Payment = Payment(
    id: string,
    loanId: string,
    amount: int,
    date: string,
    note: string,
    createdAt: string)

  /** The three collections the dashboard holds in its state. */
  datatype Books = Books(customers: seq<Customer>, loans: seq<Loan>, payments: seq<Payment>)

  function CustomerIds(customers: seq<Customer>): set<string>
  {
    set c | c in customers :: c.id
  }

  function LoanIds(loans: seq<Loan>): set<string>
  {
    set l | l in loans :: l.id
  }

  /** Every loan names a customer that exists, and every payment names a loan that exists. */
  ghost predicate NoOrphans(b: Books)
  {
    && (forall l :: l in b.loans ==> l.customerId in CustomerIds(b.customers))
    && (forall p :: p in b.payments ==> p.loanId in LoanIds(b.loans))
  }

  /** No two loans share an identifier. */
  ghost predicate UniqueLoanIds(loans: seq<Loan>)
  {
    forall i, j :: 0 <= i < |loans| && 0 <= j < |loans| && loans[i].id == loans[j].id ==> i == j
  }

  /** The test `getLoanPayments` filters with. */
  function PaysLoan(loanId: string): Payment -> bool
  {
    (p: Payment) => p.loanId == loanId
  }

  /** `customers.find((c) => c.id === id)`: the first customer with that identifier. */
  function FindCustomer(customers: seq<Customer>, id: string): (r: Option<Customer>)
    ensures r.None? <==> id !in CustomerIds(customers)
    ensures r.Some? ==> r.value in customers && r.value.id == id
    ensures r.Some? ==> exists k :: 0 <= k < |customers| && customers[k] == r.value &&
                                    forall j :: 0 <= j < k ==> customers[j].id != id
  {
    if customers == [] then None
    else if customers[0].id == id then Some(customers[0])
    else
      assert CustomerIds(customers) == {customers[0].id} + CustomerIds(customers[1..]) by {
        assert customers == [customers[0]] + customers[1..];
      }
      FindCustomer(customers[1..], id)
  }

  /** `getLoanPayments`: the payments recorded against `loanId`, in list order. */
  function LoanPayments(payments: seq<Payment>, loanId: string): (r: seq<Payment>)
    ensures forall p :: p in r <==> p in payments && p.loanId == loanId
  {
    Filter(payments, PaysLoan(loanId))
  }

  function PaymentAmount(p: Payment): int
  {
    p.amount
  }

  function LoanAmount(l: Loan): int
  {
    l.amount
  }

  /** `getTotalPaid`: the sum of the amounts of the payments recorded against `loanId`. */
  function TotalPaid(payments: seq<Payment>, loanId: string): (r: int)
    ensures (forall p :: p in payments ==> p.loanId != loanId) ==> r == 0
  {
    var mine := LoanPayments(payments, loanId);
    assert (forall p :: p in payments ==> p.loanId != loanId) ==> mine == [] by {
      if mine != [] { assert mine[0] in mine; }
    }
    Sum(mine, PaymentAmount)
  }

  /** `getRemainingAmount`: what is still owed on `loan`; negative after an overpayment. */
  function RemainingAmount(loan: Loan, payments: seq<Payment>): (r: int)
    ensures r < 0 <==> TotalPaid(payments, loan.id) > loan.amount
    ensures r <= 0 <==> TotalPaid(payments, loan.id) >= loan.amount
    ensures (forall p :: p in payments ==> p.loanId != loan.id) ==> r == loan.amount
  {
    loan.amount - TotalPaid(payments, loan.id)
  }

  /** `getCustomerLoans`: the loans of `customerId`, in list order. */
  function CustomerLoans(loans: seq<Loan>, customerId: string): (r: seq<Loan>)
    ensures forall l :: l in r <==> l in loans && l.customerId == customerId
  {
    Filter(loans, (l: Loan) => l.customerId == customerId)
  }

  /** Putting one payment in front of the list adds its amount to its own loan's total and to no other. */
  lemma TotalPaidCons(p: Payment, payments: seq<Payment>, loanId: string)
    ensures TotalPaid([p] + payments, loanId)
         == TotalPaid(payments, loanId) + (if p.loanId == loanId then p.amount else 0)
  {
    FilterCons(p, payments, PaysLoan(loanId));
    assert LoanPayments([p] + payments, loanId)
        == (if p.loanId == loanId then [p] else []) + LoanPayments(payments, loanId);
    if p.loanId == loanId {
      SumCons(p, LoanPayments(payments, loanId), PaymentAmount);
    } else {
      assert LoanPayments([p] + payments, loanId) == LoanPayments(payments, loanId);
    }
  }

  /** The total paid counts exactly the payments of one loan: it is the sum over the whole list of what each payment contributes to that loan. */
  lemma {:induction false} TotalPaidIsSumOfContributions(payments: seq<Payment>, loanId: string)
    ensures TotalPaid(payments, loanId) == Sum(payments, (p: Payment) => if p.loanId == loanId then p.amount else 0)
  {
    if payments != [] {
      var rest := payments[1..];
      assert payments == [payments[0]] + rest;
      TotalPaidCons(payments[0], rest, loanId);
      TotalPaidIsSumOfContributions(rest, loanId);
    }
  }

  /** Removing payments of other loans leaves a loan's total unchanged. */
  lemma {:induction false} TotalPaidOfFilter(payments: seq<Payment>, keep: Payment -> bool, loanId: string)
    requires forall p :: p in payments && p.loanId == loanId ==> keep(p)
    ensures TotalPaid(Filter(payments, keep), loanId) == TotalPaid(payments, loanId)
  {
    if payments != [] {
      var p, rest := payments[0], payments[1..];
      assert payments == [p] + rest;
      FilterCons(p, rest, keep);
      TotalPaidOfFilter(rest, keep, loanId);
      TotalPaidCons(p, rest, loanId);
      if keep(p) {
        assert Filter(payments, keep) == [p] + Filter(rest, keep);
        TotalPaidCons(p, Filter(rest, keep), loanId);
      } else {
        assert p.loanId != loanId;
        assert Filter(payments, keep) == Filter(rest, keep);
      }
    }
  }

  /** `updateLoanStatus`: every loan with identifier `loanId` gets `status`; nothing else changes. */
  function SetStatus(loans: seq<Loan>, loanId: string, status: Status): (r: seq<Loan>)
    ensures |r| == |loans|
    ensures forall i :: 0 <= i < |loans| ==>
      r[i] == (if loans[i].id == loanId then loans[i].(status := status) else loans[i])
  {
    seq(|loans|, i requires 0 <= i < |loans| =>
      if loans[i].id == loanId then loans[i].(status := status) else loans[i])
  }

  /** A status change keeps every identifier, so it can neither orphan a payment nor move a payment between loans. */
  lemma SetStatusKeepsIds(loans: seq<Loan>, loanId: string, status: Status)
    ensures LoanIds(SetStatus(loans, loanId, status)) == LoanIds(loans)
    ensures UniqueLoanIds(loans) ==> UniqueLoanIds(SetStatus(loans, loanId, status))
  {
    var r := SetStatus(loans, loanId, status);
    forall x | x in LoanIds(loans) ensures x in LoanIds(r) {
      var l :| l in loans && l.id == x;
      var i :| 0 <= i < |loans| && loans[i] == l;
      assert r[i].id == x;
    }
    forall x | x in LoanIds(r) ensures x in LoanIds(loans) {
      var l :| l in r && l.id == x;
      var i :| 0 <= i < |r| && r[i] == l;
      assert loans[i].id == x;
    }
  }

  /** Dropping loans cannot make two of the remaining ones share an identifier. */
  lemma FilterKeepsUniqueLoanIds(loans: seq<Loan>, keep: Loan -> bool)
    requires UniqueLoanIds(loans)
    ensures UniqueLoanIds(Filter(loans, keep))
  {
    var r, idx := Filter(loans, keep), KeptIndices(loans, keep);
    FilterInOrder(loans, keep);
    forall i, j | 0 <= i < |r| && 0 <= j < |r| && r[i].id == r[j].id ensures i == j {
      assert loans[idx[i]].id == loans[idx[j]].id;
    }
  }

  /** A status change keeps the books free of orphans. */
  lemma SetStatusKeepsNoOrphans(b: Books, loanId: string, status: Status)
    requires NoOrphans(b)
    ensures NoOrphans(b.(loans := SetStatus(b.loans, loanId, status)))
  {
    var r := SetStatus(b.loans, loanId, status);
    SetStatusKeepsIds(b.loans, loanId, status);
    forall l | l in r ensures l.customerId in CustomerIds(b.customers) {
      var i :| 0 <= i < |r| && r[i] == l;
      assert b.loans[i] in b.loans;
    }
  }
}
