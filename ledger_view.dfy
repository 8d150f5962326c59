/**
 * What the dashboard shows: the search and status filters over customers
 * and loans, and the summary totals.
 */
module View {
  import opened Seqs
  import opened Text
  import opened Records

  /** The status drop-down: "all", or one status. */
  datatype StatusFilter = All | Only(status: Status)

  /** A customer matches when the term occurs in its name or address (ignoring case) or in its phone. */
  predicate CustomerMatches(c: Customer, term: string)
  {
    || Includes(ToLower(c.name), ToLower(term))
    || Includes(c.phone, term)
    || Includes(ToLower(c.address), ToLower(term))
  }

  /** A loan matches when the term occurs in its customer name or description (ignoring case) and its status passes the filter. */
  predicate LoanMatches(l: Loan, term: string, filter: StatusFilter)
  {
    && (Includes(ToLower(l.customerName), ToLower(term)) || Includes(ToLower(l.description), ToLower(term)))
    && (filter.All? || l.status == filter.status)
  }

  /** Matching ignores case only where the code lower-cases: an exact occurrence in name, phone or address always matches. */
  lemma CustomerMatchesExact(c: Customer, term: string)
    requires Includes(c.name, term) || Includes(c.phone, term) || Includes(c.address, term)
    ensures CustomerMatches(c, term)
  {
    if Includes(c.name, term) {
      IncludesLowered(c.name, term);
    } else if Includes(c.address, term) {
      IncludesLowered(c.address, term);
    }
  }

  /** An exact occurrence in the customer name or description matches any loan the status filter lets through. */
  lemma LoanMatchesExact(l: Loan, term: string, filter: StatusFilter)
    requires Includes(l.customerName, term) || Includes(l.description, term)
    requires filter.All? || l.status == filter.status
    ensures LoanMatches(l, term, filter)
  {
    if Includes(l.customerName, term) {
      IncludesLowered(l.customerName, term);
    } else {
      IncludesLowered(l.description, term);
    }
  }

  function CustomerMatchesTerm(term: string): Customer -> bool
  {
    (c: Customer) => CustomerMatches(c, term)
  }

  function LoanMatchesTerm(term: string, filter: StatusFilter): Loan -> bool
  {
    (l: Loan) => LoanMatches(l, term, filter)
  }

  /** `filteredCustomers`: the matching customers, in list order. */
  function FilteredCustomers(customers: seq<Customer>, term: string): (r: seq<Customer>)
    ensures forall c :: c in r <==> c in customers && CustomerMatches(c, term)
  {
    Filter(customers, CustomerMatchesTerm(term))
  }

  /** `filteredLoans`: the matching loans, in list order. */
  function FilteredLoans(loans: seq<Loan>, term: string, filter: StatusFilter): (r: seq<Loan>)
    ensures forall l :: l in r <==> l in loans && LoanMatches(l, term, filter)
  {
    Filter(loans, LoanMatchesTerm(term, filter))
  }

  /** An empty search with "all" selected shows every customer and every loan, in order. */
  lemma EmptySearchShowsAll(customers: seq<Customer>, loans: seq<Loan>)
    ensures FilteredCustomers(customers, "") == customers
    ensures FilteredLoans(loans, "", All) == loans
  {
    forall c | c in customers ensures CustomerMatchesTerm("")(c) {
      IncludesEmpty(ToLower(c.name));
    }
    FilterKeepsAll(customers, CustomerMatchesTerm(""));
    forall l | l in loans ensures LoanMatchesTerm("", All)(l) {
      IncludesEmpty(ToLower(l.customerName));
    }
    FilterKeepsAll(loans, LoanMatchesTerm("", All));
  }

  /** The five figures on the summary cards. */
  datatype Stats = Stats(totalCustomers: nat, totalLoans: nat, totalAmount: int, paidAmount: int, pendingAmount: int)

  /** Each loan's total paid, as a function of the loan. */
  function PaidOn(payments: seq<Payment>): Loan -> int
  {
    (l: Loan) => TotalPaid(payments, l.id)
  }

  /** Each loan's remaining amount, as a function of the loan. */
  function RemainingOn(payments: seq<Payment>): Loan -> int
  {
    (l: Loan) => RemainingAmount(l, payments)
  }

  /**
   * The summary: counts of customers and loans, the sum of all loan
   * amounts, the sum of all payments, and their difference as the amount
   * still pending. The two sums are the front-to-back `reduce` folds the
   * page runs.
   */
  function Statistics(b: Books): (s: Stats)
    ensures s.totalCustomers == |b.customers| && s.totalLoans == |b.loans|
    ensures s.pendingAmount == s.totalAmount - s.paidAmount
    ensures b.loans == [] ==> s.totalAmount == 0
    ensures b.payments == [] ==> s.paidAmount == 0
    ensures s.totalAmount == Reduce(b.loans, LoanAmount, 0)
    ensures s.paidAmount == Reduce(b.payments, PaymentAmount, 0)
  {
    ReduceIsSum(b.loans, LoanAmount, 0);
    ReduceIsSum(b.payments, PaymentAmount, 0);
    var total := Sum(b.loans, LoanAmount);
    var paid := Sum(b.payments, PaymentAmount);
    Stats(|b.customers|, |b.loans|, total, paid, total - paid)
  }

  /** One more payment raises the per-loan totals, summed over loans with unique identifiers, by its amount exactly when its loan is among them. */
  lemma {:induction false} SumPaidOnCons(loans: seq<Loan>, p: Payment, rest: seq<Payment>)
    requires UniqueLoanIds(loans)
    ensures Sum(loans, PaidOn([p] + rest))
         == Sum(loans, PaidOn(rest)) + (if p.loanId in LoanIds(loans) then p.amount else 0)
  {
    if loans != [] {
      var l, ls := loans[0], loans[1..];
      assert loans == [l] + ls;
      assert UniqueLoanIds(ls) by {
        forall i, j | 0 <= i < |ls| && 0 <= j < |ls| && ls[i].id == ls[j].id ensures i == j {
          assert loans[i + 1].id == loans[j + 1].id;
        }
      }
      SumPaidOnCons(ls, p, rest);
      TotalPaidCons(p, rest, l.id);
      assert LoanIds(loans) == {l.id} + LoanIds(ls);
      assert l.id == p.loanId ==> p.loanId !in LoanIds(ls);
    }
  }

  /**
   * When loan identifiers are unique and every payment names an existing
   * loan, the paid figure on the summary is the sum of the loans' totals
   * paid.
   */
  lemma {:induction false} PaidAmountIsSumOfTotals(loans: seq<Loan>, payments: seq<Payment>)
    requires UniqueLoanIds(loans)
    requires forall p :: p in payments ==> p.loanId in LoanIds(loans)
    ensures Sum(payments, PaymentAmount) == Sum(loans, PaidOn(payments))
  {
    if payments == [] {
      // With no payments every loan's total paid is 0.
      SumOfZeros(loans, PaidOn([]));
    } else {
      var p, rest := payments[0], payments[1..];
      assert payments == [p] + rest;
      PaidAmountIsSumOfTotals(loans, rest);
      SumPaidOnCons(loans, p, rest);
    }
  }

  /**
   * Under the same conditions the pending figure on the summary is the sum
   * of the loans' remaining amounts, overpayments included.
   */
  lemma PendingIsSumOfRemaining(b: Books)
    requires UniqueLoanIds(b.loans) && NoOrphans(b)
    ensures Statistics(b).pendingAmount == Sum(b.loans, RemainingOn(b.payments))
  {
    PaidAmountIsSumOfTotals(b.loans, b.payments);
    SumOfDifferences(b.loans, LoanAmount, PaidOn(b.payments), RemainingOn(b.payments));
  }
}
