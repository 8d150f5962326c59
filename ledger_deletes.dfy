/**
 * The two deletes (taken as already confirmed by the user): a customer with
 * its loans and their payments, and a loan with its payments.
 */
module Deletes {
  import opened Seqs
  import opened Records

  /** `relatedLoanIds`: the identifiers of the customer's loans, in list order. */
  function RelatedLoanIds(loans: seq<Loan>, customerId: string): (r: seq<string>)
    ensures forall x :: x in r <==> exists l :: l in loans && l.customerId == customerId && l.id == x
  {
    var mine := CustomerLoans(loans, customerId);
    var r := seq(|mine|, i requires 0 <= i < |mine| => mine[i].id);
    assert forall l :: l in mine ==> l.id in r by {
      forall l | l in mine ensures l.id in r {
        var i :| 0 <= i < |mine| && mine[i] == l;
        assert r[i] == l.id;
      }
    }
    r
  }

  function OtherCustomer(id: string): Customer -> bool
  {
    (c: Customer) => c.id != id
  }

  function NotOwnedBy(customerId: string): Loan -> bool
  {
    (l: Loan) => l.customerId != customerId
  }

  function PaysNoneOf(loanIds: seq<string>): Payment -> bool
  {
    (p: Payment) => p.loanId !in loanIds
  }

  function OtherLoan(id: string): Loan -> bool
  {
    (l: Loan) => l.id != id
  }

  function PaysOtherLoan(id: string): Payment -> bool
  {
    (p: Payment) => p.loanId != id
  }

  /**
   * `handleDeleteCustomer`: the customer goes, with every loan it owns and
   * every payment made on one of those loans; all other records stay, in
   * order.
   */
  function DeleteCustomer(b: Books, id: string): (r: Books)
    ensures forall c :: c in r.customers <==> c in b.customers && c.id != id
    ensures forall l :: l in r.loans <==> l in b.loans && l.customerId != id
    ensures forall p :: p in r.payments <==> p in b.payments && p.loanId !in RelatedLoanIds(b.loans, id)
    ensures forall p, l :: p in r.payments && l in b.loans && l.customerId == id ==> p.loanId != l.id
  {
    Books(Filter(b.customers, OtherCustomer(id)),
          Filter(b.loans, NotOwnedBy(id)),
          Filter(b.payments, PaysNoneOf(RelatedLoanIds(b.loans, id))))
  }

  /** Deleting a customer leaves no loan without its customer and no payment without its loan. */
  lemma DeleteCustomerKeepsNoOrphans(b: Books, id: string)
    requires NoOrphans(b)
    ensures NoOrphans(DeleteCustomer(b, id))
  {
    var r := DeleteCustomer(b, id);
    forall l | l in r.loans ensures l.customerId in CustomerIds(r.customers) {
      var c :| c in b.customers && c.id == l.customerId;
      assert c in r.customers;
    }
    forall p | p in r.payments ensures p.loanId in LoanIds(r.loans) {
      var l :| l in b.loans && l.id == p.loanId;
      assert l in r.loans;
    }
  }

  /** Deleting a customer keeps loan identifiers unique. */
  lemma DeleteCustomerKeepsUniqueLoanIds(b: Books, id: string)
    requires UniqueLoanIds(b.loans)
    ensures UniqueLoanIds(DeleteCustomer(b, id).loans)
  {
    FilterKeepsUniqueLoanIds(b.loans, NotOwnedBy(id));
  }

  /** With unique loan identifiers, every loan that survives keeps its total paid. */
  lemma DeleteCustomerKeepsBalances(b: Books, id: string, loan: Loan)
    requires UniqueLoanIds(b.loans)
    requires loan in DeleteCustomer(b, id).loans
    ensures TotalPaid(DeleteCustomer(b, id).payments, loan.id) == TotalPaid(b.payments, loan.id)
  {
    var related := RelatedLoanIds(b.loans, id);
    assert loan.id !in related;
    TotalPaidOfFilter(b.payments, PaysNoneOf(related), loan.id);
  }

  /** `handleDeleteLoan`: the loan goes with exactly its payments; all other records stay. */
  function DeleteLoan(b: Books, id: string): (r: Books)
    ensures r.customers == b.customers
    ensures forall l :: l in r.loans <==> l in b.loans && l.id != id
    ensures forall p :: p in r.payments <==> p in b.payments && p.loanId != id
  {
    Books(b.customers, Filter(b.loans, OtherLoan(id)), Filter(b.payments, PaysOtherLoan(id)))
  }

  /** Deleting a loan leaves no payment without its loan. */
  lemma DeleteLoanKeepsNoOrphans(b: Books, id: string)
    requires NoOrphans(b)
    ensures NoOrphans(DeleteLoan(b, id))
  {
    var r := DeleteLoan(b, id);
    forall p | p in r.payments ensures p.loanId in LoanIds(r.loans) {
      var l :| l in b.loans && l.id == p.loanId;
      assert l in r.loans;
    }
  }

  /** Deleting a loan keeps loan identifiers unique. */
  lemma DeleteLoanKeepsUniqueLoanIds(b: Books, id: string)
    requires UniqueLoanIds(b.loans)
    ensures UniqueLoanIds(DeleteLoan(b, id).loans)
  {
    FilterKeepsUniqueLoanIds(b.loans, OtherLoan(id));
  }

  /** Every other loan keeps its total paid. */
  lemma DeleteLoanKeepsBalances(b: Books, id: string, other: string)
    requires other != id
    ensures TotalPaid(DeleteLoan(b, id).payments, other) == TotalPaid(b.payments, other)
  {
    TotalPaidOfFilter(b.payments, PaysOtherLoan(id), other);
  }
}
