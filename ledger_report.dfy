/**
 * The overdue-loans report: one comma-separated line per overdue loan under
 * a header line. Text cells are quoted as section 2 of RFC 4180 describes
 * (wrapped in double quotes, every inner double quote doubled); newlines in
 * a description become spaces. Amounts go into the line as JavaScript's
 * default number-to-text conversion prints them, which the function `money`
 * stands for (integer cents to their decimal text); the date goes in as the
 * locale-dependent `toLocaleDateString` prints it, which `day` stands for.
 */
module Report {
  import opened Wrappers
  import opened Seqs
  import opened Text
  import opened Records

  const Quote: char := '"'

  /** `s.replace(/"/g, '""')`. */
  function EscapeQuotes(s: string): (r: string)
    ensures Quote !in s ==> r == s
  {
    ReplaceAll(s, Quote, [Quote, Quote])
  }

  /** A quoted text cell. */
  function Quoted(s: string): (r: string)
    ensures |r| >= 2 && r[0] == Quote && r[|r| - 1] == Quote
  {
    [Quote] + EscapeQuotes(s) + [Quote]
  }

  /** Reads the inside of a quoted cell back: a doubled quote stands for one quote, a lone quote is malformed. */
  function Unescape(t: string): Option<string>
  {
    if t == [] then Some([])
    else if t[0] != Quote then
      match Unescape(t[1..])
      case Some(rest) => Some([t[0]] + rest)
      case None => None
    else if |t| >= 2 && t[1] == Quote then
      match Unescape(t[2..])
      case Some(rest) => Some([Quote] + rest)
      case None => None
    else None
  }

  /** Reads a quoted cell back. */
  function Unquote(cell: string): Option<string>
  {
    if |cell| >= 2 && cell[0] == Quote && cell[|cell| - 1] == Quote then Unescape(cell[1..|cell| - 1])
    else None
  }

  lemma {:induction false} UnescapeEscape(s: string)
    ensures Unescape(EscapeQuotes(s)) == Some(s)
  {
    if s != [] {
      var head := if s[0] == Quote then [Quote, Quote] else [s[0]];
      var tail := EscapeQuotes(s[1..]);
      assert EscapeQuotes(s) == head + tail;
      UnescapeEscape(s[1..]);
      if s[0] == Quote {
        assert (head + tail)[2..] == tail;
      } else {
        assert (head + tail)[1..] == tail;
      }
      assert [s[0]] + s[1..] == s;
    }
  }

  /** Quoting is lossless: the cell reads back as the text that went in, whatever quotes it held. */
  lemma UnquoteQuoted(s: string)
    ensures Unquote(Quoted(s)) == Some(s)
  {
    var q := Quoted(s);
    assert q[1..|q| - 1] == EscapeQuotes(s);
    UnescapeEscape(s);
  }

  /** The description cell: quotes doubled, then every newline turned into a space. */
  function DescriptionCell(description: string): (r: string)
    ensures '\n' !in r
    ensures r == Quoted(ReplaceAll(description, '\n', " "))
  {
    var r := [Quote] + ReplaceAll(EscapeQuotes(description), '\n', " ") + [Quote];
    ReplaceAllCommute(description, Quote, [Quote, Quote], '\n', " ");
    r
  }

  /** The description cell reads back as the description with its newlines turned into spaces. */
  lemma DescriptionCellReadsBack(description: string)
    ensures Unquote(DescriptionCell(description)) == Some(ReplaceAll(description, '\n', " "))
  {
    UnquoteQuoted(ReplaceAll(description, '\n', " "));
  }

  /** `cells.join(sep)`. */
  function Join(cells: seq<string>, sep: string): (r: string)
    ensures cells == [] ==> r == []
    ensures |cells| == 1 ==> r == cells[0]
    ensures cells != [] ==> |cells[0]| <= |r| && r[..|cells[0]|] == cells[0]
    ensures |cells| > 1 ==> |cells[0]| + |sep| <= |r| && r[|cells[0]|..|cells[0]| + |sep|] == sep
  {
    if cells == [] then []
    else if |cells| == 1 then cells[0]
    else cells[0] + sep + Join(cells[1..], sep)
  }

  /** Joining one more cell appends the separator and that cell to the joined text, so every cell appears, in order, between separators. */
  lemma {:induction false} JoinSnoc(cells: seq<string>, x: string, sep: string)
    requires cells != []
    ensures Join(cells + [x], sep) == Join(cells, sep) + sep + x
    decreases |cells|
  {
    if |cells| == 1 {
      assert (cells + [x])[1..] == [x];
    } else {
      assert (cells + [x])[1..] == cells[1..] + [x];
      JoinSnoc(cells[1..], x, sep);
    }
  }

  const Header: string :=
    "Customer Name,Customer Phone,Customer Address,Loan Description,Total Amount ($),Remaining Amount ($),Loan Date"

  /** `text` is the phone (or the address) of the first customer with identifier `customerId`, the one `find` returns. */
  ghost predicate FieldOfFirst(customers: seq<Customer>, customerId: string, phone: bool, text: string)
  {
    exists k :: 0 <= k < |customers| && customers[k].id == customerId
      && (forall j :: 0 <= j < k ==> customers[j].id != customerId)
      && text == (if phone then customers[k].phone else customers[k].address)
  }

  /** The customer's phone or address as the report prints it: N/A when no customer has the loan's customer identifier. */
  function CustomerField(customers: seq<Customer>, customerId: string, phone: bool): (r: string)
    ensures customerId !in CustomerIds(customers) ==> r == "N/A"
    ensures customerId in CustomerIds(customers) ==> FieldOfFirst(customers, customerId, phone, r)
  {
    match FindCustomer(customers, customerId)
    case Some(c) => if phone then c.phone else c.address
    case None => "N/A"
  }

  /**
   * The seven cells of a loan's line: its customer name, the phone and
   * address of its customer, its description, its amount, what remains on
   * it, and its date.
   */
  function ReportCells(loan: Loan, customers: seq<Customer>, payments: seq<Payment>,
                       money: int -> string, day: int -> string): (cells: seq<string>)
    ensures |cells| == 7
    ensures cells[4] == money(loan.amount) && cells[5] == money(RemainingAmount(loan, payments))
    ensures cells[6] == day(loan.date)
  {
    TextCells(loan, customers) + [money(loan.amount), money(RemainingAmount(loan, payments)), day(loan.date)]
  }

  /** The four quoted cells of a loan's line: customer name, phone, address and description. */
  function TextCells(loan: Loan, customers: seq<Customer>): (cells: seq<string>)
    ensures |cells| == 4
  {
    [Quoted(loan.customerName), Quoted(CustomerField(customers, loan.customerId, true)),
     Quoted(CustomerField(customers, loan.customerId, false)), DescriptionCell(loan.description)]
  }

  /**
   * Every text cell of a line reads back as what was quoted: the customer
   * name, the customer's phone and address (N/A exactly when the loan's
   * customer is gone), and the description with newlines as spaces; the
   * description cell holds no newline, so it never breaks the line.
   */
  lemma ReportCellsReadBack(loan: Loan, customers: seq<Customer>, payments: seq<Payment>,
                            money: int -> string, day: int -> string)
    ensures var cells := ReportCells(loan, customers, payments, money, day);
      && Unquote(cells[0]) == Some(loan.customerName)
      && Unquote(cells[1]) == Some(CustomerField(customers, loan.customerId, true))
      && Unquote(cells[2]) == Some(CustomerField(customers, loan.customerId, false))
      && (loan.customerId !in CustomerIds(customers) ==> cells[1] == cells[2] == Quoted("N/A"))
      && Unquote(cells[3]) == Some(ReplaceAll(loan.description, '\n', " "))
      && '\n' !in cells[3]
  {
    var phone := CustomerField(customers, loan.customerId, true);
    var address := CustomerField(customers, loan.customerId, false);
    var cells := ReportCells(loan, customers, payments, money, day);
    assert cells[0] == Quoted(loan.customerName) && cells[1] == Quoted(phone) && cells[2] == Quoted(address);
    assert cells[3] == DescriptionCell(loan.description);
    UnquoteQuoted(loan.customerName);
    UnquoteQuoted(phone);
    UnquoteQuoted(address);
    DescriptionCellReadsBack(loan.description);
  }

  function IsOverdue(l: Loan): bool
  {
    l.status == Overdue
  }

  /** The loans the report lists, in list order. */
  function OverdueLoans(loans: seq<Loan>): (r: seq<Loan>)
    ensures forall l :: l in r <==> l in loans && l.status == Overdue
  {
    Filter(loans, IsOverdue)
  }

  /** One line per overdue loan, in list order. */
  function ReportLines(b: Books, money: int -> string, day: int -> string): (r: seq<string>)
    ensures var overdue := OverdueLoans(b.loans);
      |r| == |overdue| &&
      forall i :: 0 <= i < |overdue| ==> r[i] == Join(ReportCells(overdue[i], b.customers, b.payments, money, day), ",")
  {
    var overdue := OverdueLoans(b.loans);
    seq(|overdue|, i requires 0 <= i < |overdue| => Join(ReportCells(overdue[i], b.customers, b.payments, money, day), ","))
  }

  /** `exportOverdueLoansReport`: no report when no loan is overdue; otherwise the header line followed by one line per overdue loan. */
  function OverdueReport(b: Books, money: int -> string, day: int -> string): (r: Option<string>)
    ensures r.None? <==> forall l :: l in b.loans ==> l.status != Overdue
    ensures r.Some? ==> r.value == Join([Header] + ReportLines(b, money, day), "\n")
  {
    var overdue := OverdueLoans(b.loans);
    if |overdue| == 0 then
      None
    else
      assert overdue[0] in overdue;
      Some(Join([Header] + ReportLines(b, money, day), "\n"))
  }
}
