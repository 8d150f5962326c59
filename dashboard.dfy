/**
 * The dashboard component's state: the three collections, replaced by each
 * handler. Each handler is specified by a pure function: `Edits.SubmitCustomer`
 * over the customers, `Edits.SubmitLoan` over the customers and loans,
 * `Records.SetStatus` and `Overdue.MarkOverdue` over the loans, and
 * `Deletes.DeleteCustomer`, `Deletes.DeleteLoan` and `Edits.SubmitPayment`
 * over the whole `Books`. Each keeps the books free of orphans, except that
 * a customer edit must carry a non-empty identifier and a payment's selected
 * loan must still be listed. Each keeps loan identifiers unique, except that
 * a new loan needs a fresh identifier not yet in use.
 */
module DashboardState {
  import opened Wrappers
  import opened Records
  import Overdue
  import Edits
  import Deletes

  /**
   * The page also re-runs its overdue effect whenever the loan list is set:
   * after loading and after every handler that changes the loans. The class
   * leaves that call to its caller: `MarkOverdueLoans` is a method of its
   * own, and no other method chains it.
   */
  class Dashboard {
    var customers: seq<Customer>
    var loans: seq<Loan>
    var payments: seq<Payment>

    /** The three collections as one value. */
    function State(): Books
      reads this
    {
      Books(customers, loans, payments)
    }

    /** The dashboard after loading the stored collections. */
    constructor (loaded: Books)
      ensures State() == loaded
    {
      customers, loans, payments := loaded.customers, loaded.loans, loaded.payments;
    }

    /** `handleCustomerSubmit`: on a complete form the customer list is replaced; loans and payments are never touched. */
    method SubmitCustomer(form: Edits.CustomerForm, editing: Option<Customer>, freshId: string, now: string)
      returns (error: Option<Edits.FormError>)
      modifies this
      ensures var r := Edits.SubmitCustomer(old(customers), form, editing, freshId, now);
        && (r.Failure? ==> error == Some(r.error) && customers == old(customers))
        && (r.Success? ==> error == None && customers == r.value)
      ensures unchanged(this`loans, this`payments)
      ensures UniqueLoanIds(old(loans)) ==> UniqueLoanIds(loans)
      ensures NoOrphans(old(State())) && (editing.Some? ==> editing.value.id != []) ==> NoOrphans(State())
    {
      var r := Edits.SubmitCustomer(customers, form, editing, freshId, now);
      if r.Failure? {
        return Some(r.error);
      }
      if NoOrphans(State()) && (editing.Some? ==> editing.value.id != []) {
        Edits.SubmitCustomerKeepsNoOrphans(State(), form, editing, freshId, now);
      }
      customers := r.value;
      error := None;
    }

    /** `handleDeleteCustomer`, confirmed. */
    method DeleteCustomer(id: string)
      modifies this
      ensures State() == Deletes.DeleteCustomer(old(State()), id)
      ensures NoOrphans(old(State())) ==> NoOrphans(State())
      ensures UniqueLoanIds(old(loans)) ==> UniqueLoanIds(loans)
    {
      var before := State();
      if NoOrphans(before) {
        Deletes.DeleteCustomerKeepsNoOrphans(before, id);
      }
      if UniqueLoanIds(loans) {
        Deletes.DeleteCustomerKeepsUniqueLoanIds(before, id);
      }
      var after := Deletes.DeleteCustomer(before, id);
      customers, loans, payments := after.customers, after.loans, after.payments;
    }

    /** `handleLoanSubmit`: on a complete form naming a known customer the loan list is replaced. */
    method SubmitLoan(form: Edits.LoanForm, editing: Option<Loan>, freshId: string, now: string, amountText: int -> string)
      returns (error: Option<Edits.FormError>)
      modifies this
      ensures var r := Edits.SubmitLoan(old(customers), old(loans), form, editing, freshId, now, amountText);
        && (r.Failure? ==> error == Some(r.error) && loans == old(loans))
        && (r.Success? ==> error == None && loans == r.value)
      ensures unchanged(this`customers, this`payments)
      ensures NoOrphans(old(State())) ==> NoOrphans(State())
      ensures UniqueLoanIds(old(loans)) && freshId !in LoanIds(old(loans)) ==> UniqueLoanIds(loans)
    {
      var r := Edits.SubmitLoan(customers, loans, form, editing, freshId, now, amountText);
      if r.Failure? {
        return Some(r.error);
      }
      if UniqueLoanIds(loans) && freshId !in LoanIds(loans) {
        Edits.SubmitLoanKeepsUniqueIds(customers, loans, form, editing, freshId, now, amountText);
      }
      if NoOrphans(State()) {
        Edits.SubmitLoanKeepsNoOrphans(State(), form, editing, freshId, now, amountText);
      }
      loans := r.value;
      error := None;
    }

    /** `handleDeleteLoan`, confirmed. */
    method DeleteLoan(id: string)
      modifies this
      ensures State() == Deletes.DeleteLoan(old(State()), id)
      ensures NoOrphans(old(State())) ==> NoOrphans(State())
      ensures UniqueLoanIds(old(loans)) ==> UniqueLoanIds(loans)
    {
      var before := State();
      if NoOrphans(before) {
        Deletes.DeleteLoanKeepsNoOrphans(before, id);
      }
      if UniqueLoanIds(loans) {
        Deletes.DeleteLoanKeepsUniqueLoanIds(before, id);
      }
      loans := Deletes.DeleteLoan(before, id).loans;
      payments := Deletes.DeleteLoan(before, id).payments;
    }

    /** `updateLoanStatus`: the loans with identifier `loanId` get `status`. */
    method UpdateLoanStatus(loanId: string, status: Status)
      modifies this
      ensures loans == SetStatus(old(loans), loanId, status)
      ensures customers == old(customers) && payments == old(payments)
      ensures NoOrphans(old(State())) ==> NoOrphans(State())
      ensures UniqueLoanIds(old(loans)) ==> UniqueLoanIds(loans)
    {
      if NoOrphans(State()) {
        SetStatusKeepsNoOrphans(State(), loanId, status);
      }
      SetStatusKeepsIds(loans, loanId, status);
      loans := SetStatus(loans, loanId, status);
    }

    /**
     * `handlePaymentSubmit`: with a loan selected, the new payment goes in
     * front, and the loan is marked paid when the payments on it, the new
     * one included, reach the selected loan's amount.
     */
    method SubmitPayment(selected: Option<Loan>, form: Edits.PaymentForm, freshId: string, now: string)
      modifies this
      ensures State() == Edits.SubmitPayment(old(State()), selected, form, freshId, now)
      ensures NoOrphans(old(State())) && (selected.Some? ==> selected.value.id in LoanIds(old(loans))) ==> NoOrphans(State())
      ensures UniqueLoanIds(old(loans)) ==> UniqueLoanIds(loans)
    {
      if selected.None? {
        return;
      }
      var before := State();
      if NoOrphans(before) && selected.value.id in LoanIds(loans) {
        Edits.PaymentKeepsNoOrphans(before, selected, form, freshId, now);
      }
      var loan := selected.value;
      payments := [Edits.NewPayment(loan, form, freshId, now)] + payments;
      var totalPaid := TotalPaid(payments, loan.id);
      if totalPaid >= loan.amount {
        UpdateLoanStatus(loan.id, Paid);
      }
    }

    /**
     * The overdue effect: when there are loans, ages them all and replaces
     * the list only when some loan changed.
     */
    method MarkOverdueLoans(today: int)
      modifies this
      ensures loans == Overdue.MarkOverdue(old(loans), today)
      ensures customers == old(customers) && payments == old(payments)
      ensures NoOrphans(old(State())) ==> NoOrphans(State())
      ensures UniqueLoanIds(old(loans)) ==> UniqueLoanIds(loans)
    {
      if |loans| == 0 {
        return;
      }
      if NoOrphans(State()) {
        Overdue.MarkOverdueKeepsNoOrphans(State(), today);
      }
      Overdue.MarkOverdueKeepsIds(loans, today);
      var updated, hasChanges := Overdue.ScanOverdue(loans, today);
      if hasChanges {
        loans := updated;
      }
    }
  }
}
