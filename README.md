# Loan book: ledger rules and local accounts

This project models the two pieces of real logic in a small loan bookkeeping
web application.

**The dashboard** (`components/dashboard.tsx`) keeps three lists:

- customers;
- loans, each owned by a customer, with status pending, paid or overdue;
- payments, each made on a loan.

Its form handlers and buttons replace these lists:

- add or edit a customer;
- add a loan, merging a new draw into the customer's pending loan when there is one, or edit a loan;
- record a payment, which marks the loan paid once the payments on it reach its amount;
- set a status by hand;
- delete a customer (with its loans and their payments) or a loan (with its payments).

An effect marks pending loans older than thirty days as overdue. The page
also shows balances, search and status filters, summary totals, and a CSV
report of the overdue loans.

**The sign-in page** (`app/page.tsx`) keeps user records in browser storage,
keyed by e-mail, plus a "current user" session entry. Sign-up, sign-in and
sign-out move it between signed out and signed in.

Layout:

| file | module | contents |
|---|---|---|
| `wrappers.dfy` | `Wrappers` | `Option`, `Result` |
| `seqs.dfy` | `Seqs` | `filter`, `reduce` with `+`, and `map` that swaps the picked entries |
| `text.dfy` | `Text` | `trim`, lower-casing, `includes`, and `replace` with a global one-character pattern |
| `ledger_records.dfy` | `Records` | the records, balances, `customers.find`, `updateLoanStatus`, referential integrity |
| `ledger_overdue.dfy` | `Overdue` | the overdue rule and the effect's loop |
| `ledger_edits.dfy` | `Edits` | customer, loan and payment submissions |
| `ledger_deletes.dfy` | `Deletes` | the cascading deletes |
| `ledger_view.dfy` | `View` | filters and summary totals |
| `ledger_report.dfy` | `Report` | the overdue CSV report |
| `dashboard.dfy` | `DashboardState` | class `Dashboard`: the three lists and the handlers |
| `accounts.dfy` | `Accounts` | the account store, sign-up and sign-in rules, class `Home` |

Modelling choices:

- **Amounts.** They are integer cents. `Number.parseFloat(field) || 0` becomes an
  `Option<int>` parse outcome that `AmountOrZero` turns into zero when it is
  `None`.
- **Dates.** A loan's date and "today" are integer milliseconds at the start
  of the day. The thirty-day threshold is 30·24·60·60·1000 ms, and the
  comparison is strict. An empty date field is `None`.
- **Values the code makes from the clock.** Fresh identifiers (`Date.now()`)
  and creation timestamps (`new Date().toISOString()`) are method parameters.
- **Number and date text.** The merged loan description prints the new amount
  with the locale-dependent `toLocaleString`; the caller supplies that printer
  as the function `amountText`, which is applied to the draw's amount. The CSV
  report puts the amount and the remaining amount into the line with
  JavaScript's default number-to-text conversion, which the function `money`
  stands for (integer cents to their decimal text). It prints the loan date
  with the locale-dependent `toLocaleDateString`, which the function `day`
  stands for.
- **Dashboard methods.** Each method of class `Dashboard` is specified by a
  pure function:
  - `SubmitCustomer` by `Edits.SubmitCustomer`, over the customers;
  - `SubmitLoan` by `Edits.SubmitLoan`, over the customers and the loans;
  - `UpdateLoanStatus` by `Records.SetStatus` and `MarkOverdueLoans` by
    `Overdue.MarkOverdue`, over the loans;
  - `DeleteCustomer`, `DeleteLoan` and `SubmitPayment` by the functions of
    the same name in `Deletes` and `Edits`, over the whole `Books`.

  Each method's ensures also say that it keeps the books free of orphans
  (`Records.NoOrphans`): every loan names an existing customer, and every
  payment names an existing loan. `SubmitCustomer` promises this only when an
  edited customer's identifier is non-empty. `SubmitPayment` promises it only
  when the selected loan is still listed. Each method also keeps loan
  identifiers unique (`Records.UniqueLoanIds`); for `SubmitLoan` this holds
  only when the fresh identifier is not in use yet.

The model follows the code, including:

- A payment is put in front of the payment list, not appended. Totals are the
  same either way.
- Amounts are not validated. An unparsable amount becomes 0, and zero or
  negative amounts are accepted.
- A payment submission does not check that the selected loan is still in the
  loan list. `Edits.PaymentKeepsNoOrphans` therefore needs that as a
  precondition.
- The "reaches the amount" test compares with the amount of the loan as it was
  when it was selected for payment.
- A new draw is merged into the *first* pending loan of the customer in list
  order. Updates by identifier (`map` with `l.id === id`) replace every entry
  with that identifier. The lemmas that say "only that entry changes" assume
  unique loan identifiers.
- The sign-up message for a short password says it must be *more than* six
  characters. The check (app/page.tsx:66) accepts exactly six, and so does the
  model.

## Model

| member | source | states |
|---|---|---|
| Records.FindCustomer | components/dashboard.tsx:267-271 | `customers.find`: None exactly when no customer has the identifier; otherwise the first customer that has it |
| Records.LoanPayments | components/dashboard.tsx:402-404 | a payment is in the result iff it is in the list and names the loan |
| Records.TotalPaid | components/dashboard.tsx:406-408 | a loan with no payments has paid 0 |
| Records.RemainingAmount | components/dashboard.tsx:410-412 | remaining is negative exactly on overpayment, at most 0 exactly when the total paid reaches the amount, and equals the amount when nothing was paid; it is not clamped |
| Records.CustomerLoans | components/dashboard.tsx:414-416 | a loan is in the result iff it is in the list and belongs to the customer |
| Records.TotalPaidCons | components/dashboard.tsx:373-377 | a payment put in front adds its amount to its own loan's total and nothing to any other loan's total |
| Records.TotalPaidIsSumOfContributions | components/dashboard.tsx:406-408 | the total paid equals the sum, over all payments, of each payment's contribution to that loan |
| Records.TotalPaidOfFilter | components/dashboard.tsx:244 | filtering out only other loans' payments leaves a loan's total unchanged |
| Records.SetStatus | components/dashboard.tsx:397-400 | `updateLoanStatus`: same length; loans with the identifier get the status and nothing else changes |
| Records.SetStatusKeepsIds | components/dashboard.tsx:397-400 | a status change keeps the set of loan identifiers and their uniqueness |
| Records.SetStatusKeepsNoOrphans | components/dashboard.tsx:397-400 | a status change keeps the books free of orphans |
| Records.FilterKeepsUniqueLoanIds | components/dashboard.tsx:341 | filtering a list of loans with unique identifiers leaves them unique |
| Overdue.Age | components/dashboard.tsx:174-186 | only the status can change, and only from pending to overdue; it changes iff the loan is pending and today − date > 30 days |
| Overdue.PastDue | components/dashboard.tsx:176-180 | the definition: pending and today − date > 30 days; `Overdue.ThresholdIsStrict` pins the boundary |
| Overdue.MarkOverdue | components/dashboard.tsx:174-186 | same length and order; every entry is that loan aged |
| Overdue.ScanOverdue | components/dashboard.tsx:171-190 | the loop builds exactly the aged list; `hasChanges` is raised iff some loan was pending past the threshold, iff the new list differs from the old |
| Overdue.ThresholdIsStrict | components/dashboard.tsx:180 | a pending loan exactly 30 days old stays pending; one a millisecond older becomes overdue |
| Overdue.SettledLoansUntouched | components/dashboard.tsx:176-185 | paid and overdue loans pass through unchanged |
| Overdue.NothingPastDueAfterMark | components/dashboard.tsx:188-190 | after one pass no loan is pending past the threshold, so the effect's re-run changes nothing |
| Overdue.MarkOverdueIdempotent | components/dashboard.tsx:165-191 | running the rule twice equals running it once |
| Overdue.MarkOverdueKeepsIds | components/dashboard.tsx:174-186 | the rule keeps the set of loan identifiers and their uniqueness |
| Overdue.MarkOverdueKeepsNoOrphans | components/dashboard.tsx:174-186 | the rule keeps the books free of orphans |
| Edits.AmountOrZero | components/dashboard.tsx:290 | an unparsable amount is 0; a parsed one is kept |
| Edits.OrElse | components/dashboard.tsx:204 | `s \|\| fallback` on strings: the empty string falls back |
| Edits.CustomerFormComplete | components/dashboard.tsx:198 | the definition: trimmed name, phone and address are all non-empty |
| Edits.CustomerFormCompleteIff | components/dashboard.tsx:198 | a customer form is complete iff name, phone and address each hold a non-white-space character |
| Edits.CustomerRecord | components/dashboard.tsx:203-210 | fields are trimmed; identifier and registration time come from the edited customer unless empty, and from the fresh identifier and `now` when there is no edit or the kept field is empty |
| Edits.SubmitCustomer | components/dashboard.tsx:198-217 | rejected iff trimmed name, phone or address is empty; an edit replaces exactly the entries with the edited identifier; a new customer goes first |
| Edits.SubmitCustomerKeepsIds | components/dashboard.tsx:213-217 | adding or editing (non-empty identifier) keeps every customer identifier, so no loan loses its customer |
| Edits.SubmitCustomerKeepsNoOrphans | components/dashboard.tsx:213-217 | a successful customer submission (an edit with a non-empty identifier, or an addition) keeps the books free of orphans |
| Edits.ReplaceCustomerKeepsIds | components/dashboard.tsx:214 | swapping in the edited record, which has the same identifier, loses no customer identifier |
| Edits.LoanFormComplete | components/dashboard.tsx:262 | the definition: customer, amount and date set and the trimmed description non-empty |
| Edits.LoanFormCompleteIff | components/dashboard.tsx:262 | a loan form is complete iff customer, amount and date are set and the description holds a non-white-space character |
| Edits.FirstPending | components/dashboard.tsx:291-293 | the index of the customer's first pending loan, or None when it has none |
| Edits.EditedLoan | components/dashboard.tsx:276-285 | an edit keeps id, status and createdAt and takes the customer's current name and the form's fields |
| Edits.MergedLoan | components/dashboard.tsx:297-302 | the amounts add up; the description gets `"\n+ " + desc + " ($" + amountText(newAmount) + ")"` appended; the date is replaced; id, status, customer and createdAt are kept |
| Edits.NewLoan | components/dashboard.tsx:307-316 | a new loan is pending, with the fresh id and the form's fields |
| Edits.SubmitLoan | components/dashboard.tsx:262-271 | rejected with "missing fields" iff the form is incomplete, else with "no customer" iff the customer is unknown; succeeds otherwise |
| Edits.EditLoanReplacesOnlyIt | components/dashboard.tsx:274-286 | an edit changes only the entry with the edited id and keeps the count |
| Edits.AddLoanMerges | components/dashboard.tsx:295-304 | with a pending loan, the first one absorbs the draw (amount old + new); no loan is added; all others are unchanged |
| Edits.AddLoanCreates | components/dashboard.tsx:305-318 | without a pending loan, one new pending loan, with the fresh id and every field as `Edits.NewLoan` builds it, goes in front of the unchanged list |
| Edits.ReplaceLoanKeepsIds | components/dashboard.tsx:286 | swapping in a loan with the same identifier keeps the set of identifiers |
| Edits.ReplaceLoanElements | components/dashboard.tsx:303 | after a swap every loan is the new one or one that was there |
| Edits.SubmitLoanShape | components/dashboard.tsx:273-319 | a successful loan submission either swaps one loan, for the form's customer, in for the entries with its identifier, or puts a new loan with the fresh identifier in front |
| Edits.StoredLoanKeepsNoOrphans | components/dashboard.tsx:286-318 | swapping in or prepending a loan whose customer exists keeps every loan identifier and creates no orphan |
| Edits.StoredLoanKeepsUnique | components/dashboard.tsx:286-318 | swapping in a same-identifier loan, or prepending one with an unused identifier, keeps loan identifiers unique |
| Edits.SubmitLoanKeepsNoOrphans | components/dashboard.tsx:273-319 | a loan submission drops no loan identifier and keeps the books free of orphans |
| Edits.ReplaceLoanKeepsUnique | components/dashboard.tsx:286-303 | a same-identifier swap keeps every position's identifier, so unique identifiers stay unique |
| Edits.SubmitLoanKeepsUniqueIds | components/dashboard.tsx:273-319 | with unique loan identifiers and an unused fresh identifier, a successful loan submission keeps identifiers unique |
| Edits.NewPayment | components/dashboard.tsx:364-371 | the payment carries the selected loan's id, the parsed amount and the form's note and date |
| Edits.SubmitPayment | components/dashboard.tsx:360-386 | no selection: nothing changes; otherwise exactly one payment is prepended, and a loan with that id becomes paid iff the old total plus the new amount reaches the selected amount; all else unchanged |
| Edits.PaymentMovesOnlyItsTotal | components/dashboard.tsx:373-377 | the selected loan's total rises by the payment; every other loan's total stays |
| Edits.PaymentKeepsNoOrphans | components/dashboard.tsx:373-381 | a payment on an existing loan keeps the books free of orphans |
| Edits.PaymentKeepsUniqueLoanIds | components/dashboard.tsx:379-381 | a payment keeps loan identifiers unique |
| Edits.PaymentSettles | components/dashboard.tsx:377-381 | a payment that brings the total up to the selected amount marks every loan with that identifier paid and raises the total by its amount |
| Edits.FullPaymentThenOverpayment | components/dashboard.tsx:377-381 | paying a pending loan in full makes it paid with 0 remaining; paying `extra` more keeps it paid with total amount + extra and remaining −extra |
| Deletes.RelatedLoanIds | components/dashboard.tsx:243 | exactly the identifiers of the customer's loans |
| Deletes.DeleteCustomer | components/dashboard.tsx:239-250 | removes the customer, its loans and exactly the payments on those loans; keeps every other record; leaves no payment naming a removed loan |
| Deletes.DeleteCustomerKeepsNoOrphans | components/dashboard.tsx:241-244 | deleting a customer keeps the books free of orphans |
| Deletes.DeleteCustomerKeepsUniqueLoanIds | components/dashboard.tsx:242 | deleting a customer keeps loan identifiers unique |
| Deletes.DeleteCustomerKeepsBalances | components/dashboard.tsx:244 | with unique loan ids, every surviving loan keeps its total paid |
| Deletes.DeleteLoan | components/dashboard.tsx:339-347 | removes the loan and exactly its payments; customers untouched |
| Deletes.DeleteLoanKeepsNoOrphans | components/dashboard.tsx:341-342 | deleting a loan keeps the books free of orphans |
| Deletes.DeleteLoanKeepsUniqueLoanIds | components/dashboard.tsx:341 | deleting a loan keeps loan identifiers unique |
| Deletes.DeleteLoanKeepsBalances | components/dashboard.tsx:342 | every other loan keeps its total paid |
| View.FilteredCustomers | components/dashboard.tsx:490-495 | a customer is shown iff the term occurs in its lower-cased name or address, or in its phone |
| View.FilteredLoans | components/dashboard.tsx:497-503 | a loan is shown iff the term occurs in its lower-cased customer name or description and its status passes the filter |
| View.CustomerMatches | components/dashboard.tsx:491-494 | the definition: the lower-cased term occurs in the lower-cased name or address, or the raw term in the phone |
| View.CustomerMatchesExact | components/dashboard.tsx:491-494 | a customer whose name, phone or address contains the term exactly always matches |
| View.LoanMatches | components/dashboard.tsx:498-502 | the definition: the lower-cased term occurs in the lower-cased customer name or description, and the status passes the filter |
| View.LoanMatchesExact | components/dashboard.tsx:498-502 | a loan whose customer name or description contains the term exactly matches whenever its status passes the filter |
| View.EmptySearchShowsAll | components/dashboard.tsx:490-503 | an empty term with "all" shows every customer and loan, in order |
| View.Statistics | components/dashboard.tsx:505-510 | counts equal the list lengths; total and paid are the `reduce` sums of the loan amounts and of the payment amounts; pending = total − paid; empty lists give 0 |
| View.SumPaidOnCons | components/dashboard.tsx:406-408 | one more payment raises the sum of per-loan totals by its amount iff its loan is listed |
| View.PaidAmountIsSumOfTotals | components/dashboard.tsx:509 | with unique loan ids and no orphans, the paid figure is the sum of the loans' totals paid |
| View.PendingIsSumOfRemaining | components/dashboard.tsx:508-510 | under the same conditions, the pending figure is the sum of the loans' remaining amounts |
| Report.UnquoteQuoted | components/dashboard.tsx:467-469 | a quoted cell (quotes doubled, wrapped in quotes) reads back as the original text |
| Report.UnescapeEscape | components/dashboard.tsx:467 | undoubling the doubled quotes gives back the text |
| Report.EscapeQuotes | components/dashboard.tsx:467-470 | text without a double quote is left as it is; `Report.UnescapeEscape` reads any escaped text back |
| Report.Quoted | components/dashboard.tsx:467-469 | a quoted cell begins and ends with a double quote; `Report.UnquoteQuoted` reads it back |
| Report.DescriptionCell | components/dashboard.tsx:470 | the description cell holds no newline and equals the quoted description with newlines as spaces |
| Report.DescriptionCellReadsBack | components/dashboard.tsx:470 | the description cell reads back as the description with newlines turned into spaces |
| Report.Join | components/dashboard.tsx:474-477 | no cells give the empty text and one cell gives that cell; otherwise the text begins with the first cell followed by the separator |
| Report.JoinSnoc | components/dashboard.tsx:474-477 | joining one more cell appends the separator and that cell, so every cell appears in order between separators |
| Report.CustomerField | components/dashboard.tsx:465-469 | "N/A" when no customer has the loan's customer identifier; otherwise the phone or address of the first customer with that identifier, the one `find` returns |
| Report.ReportCells | components/dashboard.tsx:463-474 | seven cells; amount, remaining amount and date in the last three |
| Report.TextCells | components/dashboard.tsx:467-470 | four cells; `Report.ReportCellsReadBack` proves they read back as the customer name, phone, address (N/A when the customer is gone) and the newline-free description |
| Report.ReportCellsReadBack | components/dashboard.tsx:465-470 | the text cells read back as name, phone, address (N/A when the customer is gone) and the newline-free description |
| Report.OverdueLoans | components/dashboard.tsx:446 | exactly the overdue loans |
| Report.ReportLines | components/dashboard.tsx:463-475 | one line per overdue loan, in order |
| Report.OverdueReport | components/dashboard.tsx:445-477 | no report iff no loan is overdue; otherwise the header and the lines joined by newlines |
| Text.Trim | components/dashboard.tsx:198-207 | the result is the slice of the input left after cutting off only white space at both ends; it has no white space at either end and is empty iff the input is all white space |
| Text.ToLower | components/dashboard.tsx:492 | same length; ASCII capitals lowered, all else kept |
| Text.IncludesEmpty | components/dashboard.tsx:492 | every string includes the empty string |
| Text.Includes | components/dashboard.tsx:492 | the definition: the term occurs in the text starting at some index |
| Text.IncludesLowered | components/dashboard.tsx:492-500 | an occurrence survives lower-casing both text and term |
| Text.ReplaceAll | components/dashboard.tsx:470 | with a one-character replacement, same length and every occurrence becomes that character with every other character kept in place; the replaced character is gone when the replacement lacks it; unchanged input when it is absent |
| Text.ReplaceAllCommute | components/dashboard.tsx:470 | doubling quotes then replacing newlines equals the reverse order |
| Seqs.Filter | components/dashboard.tsx:241-244 | `filter`: membership iff in the input and kept; no longer than the input; `Seqs.FilterMultiset` gives each kept value's multiplicity and `Seqs.FilterInOrder` the order |
| Seqs.FilterMultiset | components/dashboard.tsx:241-244 | every kept value appears in the result as often as in the input; no other value appears |
| Seqs.KeptIndices | components/dashboard.tsx:241-244 | exactly the positions whose entries are kept, in strictly increasing order |
| Seqs.FilterInOrder | components/dashboard.tsx:241-244 | the result is the input's entries at the kept positions, read in increasing order |
| Seqs.Sum | components/dashboard.tsx:406-408 | the sum of non-negative terms is non-negative; `Seqs.ReduceIsSum` ties it to `reduce` |
| Seqs.Reduce | components/dashboard.tsx:508-509 | `reduce((sum, x) => sum + x.amount, 0)` folded from the front; `Seqs.ReduceIsSum` proves it equals the initial value plus `Seqs.Sum` |
| Seqs.ReduceIsSum | components/dashboard.tsx:508-509 | `reduce` from the front with `+` and an initial value equals that value plus the sum, whatever the order of additions |
| Seqs.Replace | components/dashboard.tsx:214 | `map` with a swap: same length; picked entries replaced, others kept |
| DashboardState.Dashboard.constructor | components/dashboard.tsx:127-139 | the dashboard starts from the loaded lists |
| DashboardState.Dashboard.SubmitCustomer | components/dashboard.tsx:194-226 | replaces the customers as `Edits.SubmitCustomer` says or reports its error; loans and payments untouched; no orphans created when an edited customer's identifier is non-empty; loan identifiers stay unique |
| DashboardState.Dashboard.DeleteCustomer | components/dashboard.tsx:239-250 | the new state is `Deletes.DeleteCustomer` of the old; no orphans created; loan identifiers stay unique |
| DashboardState.Dashboard.SubmitLoan | components/dashboard.tsx:258-326 | replaces the loans as `Edits.SubmitLoan` says or reports its error; customers and payments untouched; no orphans created; loan identifiers stay unique when the fresh identifier is unused |
| DashboardState.Dashboard.DeleteLoan | components/dashboard.tsx:339-347 | the new state is `Deletes.DeleteLoan` of the old; no orphans created; loan identifiers stay unique |
| DashboardState.Dashboard.UpdateLoanStatus | components/dashboard.tsx:397-400 | loans become `SetStatus` of the old loans; others untouched; no orphans created; loan identifiers stay unique |
| DashboardState.Dashboard.SubmitPayment | components/dashboard.tsx:360-386 | the new state is `Edits.SubmitPayment` of the old; no orphans when the selected loan exists; loan identifiers stay unique |
| DashboardState.Dashboard.MarkOverdueLoans | components/dashboard.tsx:165-191 | loans become `MarkOverdue` of the old loans; others untouched; no orphans created; loan identifiers stay unique |
| Accounts.GetUserData | app/page.tsx:41-48 | the record stored for the e-mail, None iff there is none |
| Accounts.SaveUserData | app/page.tsx:50-52 | stores the user under its e-mail; every other record stays |
| Accounts.SignUpOutcome | app/page.tsx:60-84 | succeeds iff all fields are filled, the password has ≥ 6 characters and the e-mail is new; each failure gets its own message, in the code's order |
| Accounts.SignInOutcome | app/page.tsx:99-116 | succeeds iff both fields are filled, a record exists and its password matches; each failure gets its own message |
| Accounts.SignUpKeepsStore | app/page.tsx:72-86 | a successful sign-up adds exactly one record, overwrites none and keeps the store well formed |
| Accounts.SignInAfterSignUp | app/page.tsx:79-118 | signing in right after signing up with the same e-mail and password yields the new record |
| Accounts.SignInOnWellFormed | app/page.tsx:99-116 | in a well-formed store, sign-in succeeds iff the record exists and the password matches |
| Accounts.Home.constructor | app/page.tsx:31-39 | a stored non-empty session e-mail with a record behind it restores the current user |
| Accounts.Home.SignUp | app/page.tsx:54-92 | on failure: store, session and form unchanged, error shown; on success: record stored, form cleared, message shown, not signed in; `loading` ends false |
| Accounts.Home.SignIn | app/page.tsx:94-121 | on success: current user and stored session set; on every failure: both unchanged and error shown; store and form unchanged; `loading` ends false |
| Accounts.Home.SignOut | app/page.tsx:123-128 | clears the current user and the stored session and the e-mail and password fields; records untouched |

## Left out

- Persistence is not modelled. This covers `loadData`, `saveData` and the
  auto-save effects (components/dashboard.tsx:127-162), and JSON in browser
  storage on the sign-in page. The lists and the user map live in memory. The
  `Dashboard` constructor takes the loaded lists.
- The JSON backup export and the file downloads are not modelled: `Blob`,
  object URLs and anchor clicks. The overdue CSV text is modelled; handing it
  to the browser is not.
- Confirmation prompts, toasts, dialogs, tabs, the theme toggle and JSX
  rendering are not modelled. The deletes are taken as confirmed.
- UI-only state is not kept on the class. The edited customer or loan and the
  selected loan are parameters. Resetting the dashboard forms and closing
  dialogs are not modelled.
- Floating-point amounts are not modelled. Amounts are integer cents, and the
  sums are exact, so rounding and the left-to-right order of `reduce` do not
  matter.
- How `Number.parseFloat` reads text is left out. Only its outcome (a number,
  or None when it is not a number) is an input.
- Date parsing, time zones, `setHours`, `toLocaleString` and
  `toLocaleDateString` depend on the locale. They are replaced by day-start
  integers and caller-supplied text.
- DashboardState.Dashboard.MarkOverdueLoans: the program runs the overdue
  effect (components/dashboard.tsx:165-191) whenever the loan list is set,
  that is, after loading and after each handler that changes the loans, so a
  loan added or edited with a date more than thirty days back shows as
  overdue at once. The model does not chain it after the constructor or the
  handlers; a caller runs `MarkOverdueLoans` itself, and
  `Overdue.NothingPastDueAfterMark` says what such a run leaves.
- Overdue.ThresholdIsStrict: the strict thirty-day boundary holds for the
  model's day-start integers, not for the program in every time zone. The
  code (components/dashboard.tsx:177-178) parses the date-only string as UTC
  midnight and then moves it to local midnight. West of UTC this moves the
  loan's day back by one, so a loan dated exactly thirty days ago already
  becomes overdue. Across a daylight-saving change, the two local midnights
  are thirty days plus or minus an hour apart.
- Text.ToLower: lowers only the ASCII capitals, not the full Unicode mapping
  of `toLowerCase`.
- Text.Trim: the characters stripped are the Unicode white space and line
  terminators as a fixed list, not read from a Unicode table.
- Accounts.SignUpOutcome: a Dafny string counts Unicode characters, while
  `password.length` counts UTF-16 code units. The two differ for characters
  outside the Basic Multilingual Plane.
- Accounts.GetUserData: a stored record that fails to parse as JSON (read as
  absent by the code) is not modelled. Every stored entry is a user.
- The lower-casing of the e-mail as it is typed (app/page.tsx onChange
  handlers) is input handling and is not modelled.
- components/dashboard-client.tsx, app/dashboard/page.tsx and app/layout.tsx
  are not part of this model. They hold a cloud-backed variant of the
  dashboard with network calls, session fetching and markup.
