/**
 * The automatic overdue rule: whenever the loan list changes, every pending
 * loan dated more than thirty days before today becomes overdue.
 */
module Overdue {
  import opened Records

  /** Thirty days in milliseconds. */
  const ThirtyDaysMs: int := 30 * 24 * 60 * 60 * 1000

  /** A pending loan whose day lies strictly more than thirty days before `today` (both at the start of their day). */
  predicate PastDue(loan: Loan, today: int)
  {
    loan.status == Pending && today - loan.date > ThirtyDaysMs
  }

  /** The rule for one loan: only its status may change, and only from pending to overdue. */
  function Age(loan: Loan, today: int): (r: Loan)
    ensures r.(status := loan.status) == loan
    ensures r.status != loan.status <==> PastDue(loan, today)
    ensures r.status != loan.status ==> loan.status == Pending && r.status == Overdue
  {
    if PastDue(loan, today) then loan.(status := Overdue) else loan
  }

  /** The list the rule produces: the same loans in the same order, each aged. */
  function MarkOverdue(loans: seq<Loan>, today: int): (r: seq<Loan>)
    ensures |r| == |loans|
    ensures forall i :: 0 <= i < |loans| ==> r[i] == Age(loans[i], today)
  {
    seq(|loans|, i requires 0 <= i < |loans| => Age(loans[i], today))
  }

  /**
   * The effect's pass over the loans: builds the aged list and raises
   * `hasChanges` when some loan was pending past the threshold, which is
   * exactly when the new list differs from the old one.
   */
  method ScanOverdue(loans: seq<Loan>, today: int) returns (updated: seq<Loan>, hasChanges: bool)
    ensures updated == MarkOverdue(loans, today)
    ensures hasChanges <==> exists i :: 0 <= i < |loans| && PastDue(loans[i], today)
    ensures hasChanges <==> updated != loans
  {
    updated, hasChanges := [], false;
    var i := 0;
    while i < |loans|
      invariant 0 <= i <= |loans|
      invariant |updated| == i
      invariant forall j :: 0 <= j < i ==> updated[j] == Age(loans[j], today)
      invariant hasChanges <==> exists j :: 0 <= j < i && PastDue(loans[j], today)
    {
      var loan := loans[i];
      if loan.status == Pending && today - loan.date > ThirtyDaysMs {
        hasChanges := true;
        loan := loan.(status := Overdue);
      }
      updated := updated + [loan];
      i := i + 1;
    }
    if hasChanges {
      var j :| 0 <= j < |loans| && PastDue(loans[j], today);
      assert updated[j].status != loans[j].status;
    }
  }

  /** The threshold is strict: a loan exactly thirty days old stays pending, one a millisecond older becomes overdue. */
  lemma ThresholdIsStrict(loan: Loan, today: int)
    requires loan.status == Pending
    ensures today - loan.date == ThirtyDaysMs ==> Age(loan, today).status == Pending
    ensures today - loan.date == ThirtyDaysMs + 1 ==> Age(loan, today).status == Overdue
  {
  }

  /** Paid and overdue loans pass through the rule untouched, whatever their age. */
  lemma SettledLoansUntouched(loans: seq<Loan>, today: int, i: int)
    requires 0 <= i < |loans| && loans[i].status != Pending
    ensures MarkOverdue(loans, today)[i] == loans[i]
  {
  }

  /** After one pass no loan is pending past the threshold, so a second pass would find nothing to change. */
  lemma NothingPastDueAfterMark(loans: seq<Loan>, today: int)
    ensures forall i :: 0 <= i < |loans| ==> !PastDue(MarkOverdue(loans, today)[i], today)
  {
  }

  /** The rule is idempotent: running it twice gives the list one run gives. */
  lemma MarkOverdueIdempotent(loans: seq<Loan>, today: int)
    ensures MarkOverdue(MarkOverdue(loans, today), today) == MarkOverdue(loans, today)
  {
    var once := MarkOverdue(loans, today);
    NothingPastDueAfterMark(loans, today);
    assert forall i :: 0 <= i < |once| ==> MarkOverdue(once, today)[i] == once[i];
  }

  /** The rule changes no identifier, so it keeps payments attached to their loans. */
  lemma MarkOverdueKeepsIds(loans: seq<Loan>, today: int)
    ensures LoanIds(MarkOverdue(loans, today)) == LoanIds(loans)
    ensures UniqueLoanIds(loans) ==> UniqueLoanIds(MarkOverdue(loans, today))
  {
    var r := MarkOverdue(loans, today);
    forall x | x in LoanIds(loans) ensures x in LoanIds(r) {
      var l :| l in loans && l.id == x;
      var i :| 0 <= i < |loans| && loans[i] == l;
      assert r[i].id == x;
    }
    forall x | x in LoanIds(r) ensures x in LoanIds(loans) {
      var l :| l in r && l.id == x;
      var i :| 0 <= i < |r| && r[i] == l;
      assert loans[i].id == x;
    }
  }

  /** The rule keeps the books free of orphans. */
  lemma MarkOverdueKeepsNoOrphans(b: Books, today: int)
    requires NoOrphans(b)
    ensures NoOrphans(b.(loans := MarkOverdue(b.loans, today)))
  {
    var r := MarkOverdue(b.loans, today);
    MarkOverdueKeepsIds(b.loans, today);
    forall l | l in r ensures l.customerId in CustomerIds(b.customers) {
      var i :| 0 <= i < |r| && r[i] == l;
      assert b.loans[i] in b.loans;
    }
  }
}
