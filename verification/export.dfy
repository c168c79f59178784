/** The report exports: the ';'-separated CSV file and the values of the
    PDF report (its summary figures and its detail rows). Dates, times and
    currency rendering are locale-dependent and given as functions. */
module Export {
  import opened Types
  import opened Seqs
  import opened Text
  import opened Money
  import opened Ledger

  // ------------------------------------------------------------- quoting

  /** Every '"' doubled. */
  function Escape(s: string): (r: string)
    ensures |r| >= |s|
  {
    if s == [] then []
    else (if s[0] == '"' then "\"\"" else [s[0]]) + Escape(s[1..])
  }

  /** A text field as written to the CSV file: wrapped in double quotes
      with every embedded double quote doubled, as in section 2, rule 7 of
      RFC 4180. */
  function Quote(s: string): (r: string)
    ensures |r| >= 2 && r[0] == '"' && r[|r| - 1] == '"'
  {
    "\"" + Escape(s) + "\""
  }

  /** Reads the inside of a quoted field back: a doubled quote is one
      quote, a lone quote is malformed. */
  function Unescape(e: string): Option<string>
  {
    if e == [] then Some([])
    else if e[0] != '"' then
      match Unescape(e[1..])
      case None => None
      case Some(rest) => Some([e[0]] + rest)
    else if |e| >= 2 && e[1] == '"' then
      match Unescape(e[2..])
      case None => None
      case Some(rest) => Some("\"" + rest)
    else None
  }

  function Unquote(q: string): Option<string>
  {
    if |q| >= 2 && q[0] == '"' && q[|q| - 1] == '"' then Unescape(q[1..|q| - 1]) else None
  }

  lemma {:induction false} UnescapeEscape(s: string)
    ensures Unescape(Escape(s)) == Some(s)
  {
    if s != [] {
      UnescapeEscape(s[1..]);
      var e := Escape(s);
      if s[0] == '"' {
        assert e[2..] == Escape(s[1..]);
      } else {
        assert e[1..] == Escape(s[1..]);
      }
      assert s == [s[0]] + s[1..];
    }
  }

  /** Unquoting a written field gives back the original text, so distinct
      descriptions are written distinctly. */
  lemma UnquoteQuote(s: string)
    ensures Unquote(Quote(s)) == Some(s)
  {
    var q := Quote(s);
    assert q[1..|q| - 1] == Escape(s);
    UnescapeEscape(s);
  }

  lemma QuoteInjective(a: string, b: string)
    requires Quote(a) == Quote(b)
    ensures a == b
  {
    UnquoteQuote(a);
    UnquoteQuote(b);
  }

  // ----------------------------------------------------------------- CSV

  const CSV_HEADERS: seq<string> :=
    ["ID", "Data", "Hora", "Tipo", "Descrição", "Status", "Método Pagamento", "Valor"]

  /** The type column of the CSV file: productions are written as
      "Entrada" like any income. */
  function CsvKindLabel(k: Kind): (r: string)
    ensures r == "Venda" <==> k == Sale
    ensures r == "Despesa" <==> k == Expense
    ensures r == "Entrada" <==> k.Income? || k.Production?
  {
    assert "Venda" != "Entrada" && "Venda" != "Despesa" by { assert |"Venda"| == 5; }
    assert "Despesa" != "Entrada" by { assert "Despesa"[0] != "Entrada"[0]; }
    if k == Sale then "Venda" else if k == Expense then "Despesa" else "Entrada"
  }

  function CsvStatusLabel(t: Transaction): (r: string)
    ensures r == "CANCELADO" <==> !IsActive(t)
    ensures r == "ATIVO" <==> IsActive(t)
  {
    if t.status == Some(Cancelled) then "CANCELADO" else "ATIVO"
  }

  /** The eight fields of one transaction's CSV row. `dateText` and
      `timeText` render a timestamp as the locale's date and time. */
  function CsvRow(t: Transaction, dateText: int -> string, timeText: int -> string): (r: seq<string>)
    ensures |r| == |CSV_HEADERS|
    ensures r[0] == t.id && Unquote(r[4]) == Some(t.description)
    ensures r[5] == "CANCELADO" <==> !IsActive(t)
    ensures r[7] == DecimalComma(t.amount)
  {
    UnquoteQuote(t.description);
    [t.id, dateText(t.date), timeText(t.date), CsvKindLabel(t.kind), Quote(t.description),
     CsvStatusLabel(t), MethodName(t.paymentMethod), DecimalComma(t.amount)]
  }

  /** The header line followed by one line per transaction, cancelled
      ones included, in ledger order. */
  function CsvLines(txs: seq<Transaction>, dateText: int -> string, timeText: int -> string): (r: seq<string>)
    ensures |r| == |txs| + 1
    ensures r[0] == CsvHeaderLine()
    ensures r[1..] == CsvRowLines(txs, dateText, timeText)
  {
    [CsvHeaderLine()] + CsvRowLines(txs, dateText, timeText)
  }

  /** One line per transaction (`rows.map(r => r.join(';'))`). */
  function CsvRowLines(txs: seq<Transaction>, dateText: int -> string, timeText: int -> string): (r: seq<string>)
    ensures |r| == |txs|
    ensures forall i :: 0 <= i < |txs| ==> r[i] == CsvLine(txs[i], dateText, timeText)
  {
    seq(|txs|, i requires 0 <= i < |txs| => CsvLine(txs[i], dateText, timeText))
  }

  function CsvHeaderLine(): string
  {
    Join(CSV_HEADERS, ';')
  }

  /** One transaction's row, its fields joined by ';'. */
  function CsvLine(t: Transaction, dateText: int -> string, timeText: int -> string): string
  {
    Join(CsvRow(t, dateText, timeText), ';')
  }

  /** The whole file, lines joined by newlines. */
  function CsvContent(txs: seq<Transaction>, dateText: int -> string, timeText: int -> string): string
  {
    Join(CsvLines(txs, dateText, timeText), '\n')
  }

  /** A row has no line break when its identifier, description, date and
      time have none. */
  predicate SingleLine(t: Transaction, dateText: int -> string, timeText: int -> string)
  {
    '\n' !in t.id && '\n' !in t.description && '\n' !in dateText(t.date) && '\n' !in timeText(t.date)
  }

  lemma MethodNameSingleLine(m: MethodTag)
    ensures '\n' !in MethodName(m)
  {
  }

  lemma {:induction false} NatToStringSingleLine(n: nat)
    ensures '\n' !in NatToString(n)
  {
    var r := NatToString(n);
    forall i | 0 <= i < |r| ensures r[i] != '\n' {
    }
  }

  lemma DecimalCommaSingleLine(c: Cents)
    ensures '\n' !in DecimalComma(c)
  {
    var a := if c < 0 then -c else c;
    NatToStringSingleLine(a / 100);
    assert DigitChar(a % 100 / 10) != '\n' && DigitChar(a % 10) != '\n';
  }

  lemma {:induction false} EscapeSingleLine(s: string)
    requires '\n' !in s
    ensures '\n' !in Escape(s)
  {
    if s != [] {
      EscapeSingleLine(s[1..]);
    }
  }

  lemma RowSingleLine(t: Transaction, dateText: int -> string, timeText: int -> string)
    requires SingleLine(t, dateText, timeText)
    ensures '\n' !in CsvLine(t, dateText, timeText)
  {
    var row := CsvRow(t, dateText, timeText);
    MethodNameSingleLine(t.paymentMethod);
    DecimalCommaSingleLine(t.amount);
    EscapeSingleLine(t.description);
    assert '\n' !in row[4];
    JoinFree(row, ';', '\n');
  }

  /** Splitting the file at its line breaks gives the header and exactly
      one row per transaction when no field holds a line break. */
  lemma CsvContentLines(txs: seq<Transaction>, dateText: int -> string, timeText: int -> string)
    requires forall i :: 0 <= i < |txs| ==> SingleLine(txs[i], dateText, timeText)
    ensures Split(CsvContent(txs, dateText, timeText), {'\n'}) == CsvLines(txs, dateText, timeText)
    ensures |Split(CsvContent(txs, dateText, timeText), {'\n'})| == |txs| + 1
  {
    LinesSingleLine(txs, dateText, timeText);
    SplitJoin(CsvLines(txs, dateText, timeText), '\n');
  }

  lemma LinesSingleLine(txs: seq<Transaction>, dateText: int -> string, timeText: int -> string)
    requires forall i :: 0 <= i < |txs| ==> SingleLine(txs[i], dateText, timeText)
    ensures forall k :: 0 <= k < |CsvLines(txs, dateText, timeText)| ==> '\n' !in CsvLines(txs, dateText, timeText)[k]
  {
    HeaderSingleLine();
    RowLinesSingleLine(txs, dateText, timeText);
    ConsFree(CsvHeaderLine(), CsvRowLines(txs, dateText, timeText), '\n');
  }

  lemma HeaderSingleLine()
    ensures '\n' !in CsvHeaderLine()
  {
    HeadersFree();
    JoinFree(CSV_HEADERS, ';', '\n');
  }

  lemma HeadersFree()
    ensures forall k :: 0 <= k < |CSV_HEADERS| ==> '\n' !in CSV_HEADERS[k]
  {
    forall k | 0 <= k < |CSV_HEADERS| ensures '\n' !in CSV_HEADERS[k] {
      var h := CSV_HEADERS[k];
      assert forall j :: 0 <= j < |h| ==> h[j] != '\n';
    }
  }

  lemma RowLinesSingleLine(txs: seq<Transaction>, dateText: int -> string, timeText: int -> string)
    requires forall i :: 0 <= i < |txs| ==> SingleLine(txs[i], dateText, timeText)
    ensures forall k :: 0 <= k < |txs| ==> '\n' !in CsvRowLines(txs, dateText, timeText)[k]
  {
    forall k | 0 <= k < |txs| ensures '\n' !in CsvRowLines(txs, dateText, timeText)[k] {
      RowSingleLine(txs[k], dateText, timeText);
    }
  }

  // ----------------------------------------------------------------- PDF

  predicate IsExpense(t: Transaction)
  {
    t.kind == Expense
  }

  predicate NotExpense(t: Transaction)
  {
    t.kind != Expense
  }

  datatype Summary = Summary(income: Cents, expenses: Cents, balance: Cents)

  /** The PDF summary over the non-cancelled transactions: income is every
      amount that is not an expense, expenses the expense amounts, and the
      balance their difference. */
  function PdfSummary(txs: seq<Transaction>): (r: Summary)
    ensures r.income + r.expenses == Sum(Active(txs), Amount)
    ensures r.balance == Sum(Active(txs), Signed)
  {
    var income := Sum(Filter(Active(txs), NotExpense), Amount);
    var expenses := Sum(Filter(Active(txs), IsExpense), Amount);
    SplitSums(Active(txs));
    Summary(income, expenses, income - expenses)
  }

  /** An expense counts negatively, anything else positively. */
  function Signed(t: Transaction): int
  {
    if t.kind == Expense then -t.amount else t.amount
  }

  lemma {:induction false} SplitSums(s: seq<Transaction>)
    ensures Sum(Filter(s, NotExpense), Amount) + Sum(Filter(s, IsExpense), Amount) == Sum(s, Amount)
    ensures Sum(Filter(s, NotExpense), Amount) - Sum(Filter(s, IsExpense), Amount) == Sum(s, Signed)
  {
    if s != [] {
      var init := s[..|s| - 1];
      SplitSums(init);
      FilterAppend(init, [s[|s| - 1]], NotExpense);
      FilterAppend(init, [s[|s| - 1]], IsExpense);
      assert s == init + [s[|s| - 1]];
      SumAppend(Filter(init, NotExpense), Filter([s[|s| - 1]], NotExpense), Amount);
      SumAppend(Filter(init, IsExpense), Filter([s[|s| - 1]], IsExpense), Amount);
    }
  }

  /** Cancelled transactions do not count: the summary of the ledger is the
      summary of its active part. */
  lemma SummaryIgnoresCancelled(txs: seq<Transaction>)
    ensures PdfSummary(txs) == PdfSummary(Active(txs))
  {
    FilterKeepsAll(Active(txs), IsActive);
  }

  /** Cancelling an active entry of a ledger with distinct identifiers
      takes its amount out of the balance. */
  lemma SummaryAfterCancel(txs: seq<Transaction>, id: string, reason: string, k: nat)
    requires UniqueTransactionIds(txs)
    requires FindTransaction(txs, id) == Some(k) && IsActive(txs[k])
    ensures PdfSummary(CancelMatching(txs, id, reason)).balance == PdfSummary(txs).balance - Signed(txs[k])
  {
    var x := CancelledCopy(txs[k], reason);
    CancelUnique(txs, id, reason, k);
    assert PdfSummary(txs).balance == Sum(Active(txs), Signed);
    assert PdfSummary(txs[k := x]).balance == Sum(Active(txs[k := x]), Signed);
    SumOfFilter(txs, IsActive, Signed);
    SumOfFilter(txs[k := x], IsActive, Signed);
    MaskedSumUpdate(txs, k, x, IsActive, Signed);
  }

  /** The type column of the PDF table names productions, and marks a
      cancelled entry with a suffix. */
  function PdfKindLabel(k: Kind): (r: string)
    ensures 5 <= |r| < |CANCELLED_SUFFIX|
    ensures r == "Venda" <==> k == Sale
    ensures r == "Despesa" <==> k == Expense
    ensures r == "Produ\U{e7}\U{e3}o" <==> k == Production
    ensures r == "Entrada" <==> k == Income
  {
    assert "Venda" != "Entrada" && "Venda" != "Despesa" && "Venda" != "Produ\U{e7}\U{e3}o" by { assert |"Venda"| == 5; }
    assert "Despesa" != "Entrada" && "Despesa" != "Produ\U{e7}\U{e3}o" by { assert "Despesa"[0] != "Entrada"[0] && "Despesa"[0] != "Produ\U{e7}\U{e3}o"[0]; }
    assert "Entrada" != "Produ\U{e7}\U{e3}o" by { assert "Entrada"[0] != "Produ\U{e7}\U{e3}o"[0]; }
    match k
    case Sale => "Venda"
    case Expense => "Despesa"
    case Production => "Produ\U{e7}\U{e3}o"
    case Income => "Entrada"
  }

  const CANCELLED_SUFFIX: string := " (CANCELADO)"

  predicate EndsWith(s: string, suffix: string)
  {
    |suffix| <= |s| && s[|s| - |suffix|..] == suffix
  }

  /** The six cells of a PDF detail row: date and time, type, description,
      method ('-' for production logs), amount, and the hidden status cell
      the table styling reads. */
  function PdfRow(t: Transaction, dateTimeText: int -> string, format: Cents -> string): (r: seq<string>)
    ensures |r| == 6
    ensures EndsWith(r[1], CANCELLED_SUFFIX) <==> !IsActive(t)
    ensures |r[1]| >= |PdfKindLabel(t.kind)| && r[1][..|PdfKindLabel(t.kind)|] == PdfKindLabel(t.kind)
    ensures r[2] == t.description
    ensures r[3] == "-" <==> t.paymentMethod == NotApplicable
    ensures r[5] == "CANCELLED" <==> !IsActive(t)
  {
    var typeCell := PdfKindLabel(t.kind) + (if IsActive(t) then "" else CANCELLED_SUFFIX);
    [dateTimeText(t.date),
     typeCell,
     t.description,
     if t.paymentMethod == NotApplicable then "-" else MethodName(t.paymentMethod),
     format(t.amount),
     if IsActive(t) then "ACTIVE" else "CANCELLED"]
  }

  /** The detail table: one row per transaction, cancelled ones included,
      in ledger order. */
  function PdfRows(txs: seq<Transaction>, dateTimeText: int -> string, format: Cents -> string): (r: seq<seq<string>>)
    ensures |r| == |txs|
    ensures forall i :: 0 <= i < |txs| ==> r[i] == PdfRow(txs[i], dateTimeText, format)
  {
    seq(|txs|, i requires 0 <= i < |txs| => PdfRow(txs[i], dateTimeText, format))
  }

  /** The rows marked cancelled are exactly the entries the summary
      leaves out. */
  lemma CancelledRows(txs: seq<Transaction>, dateTimeText: int -> string, format: Cents -> string)
    ensures MaskedSum(PdfRows(txs, dateTimeText, format), MarkedCancelled, One) == |txs| - |Active(txs)|
  {
    RowsMarked(txs, dateTimeText, format);
    FilterLengthIsCount(txs, IsActive);
    CountComplement(txs, IsActive, Inactive);
  }

  lemma {:induction false} RowsMarked(txs: seq<Transaction>, dateTimeText: int -> string, format: Cents -> string)
    ensures MaskedSum(PdfRows(txs, dateTimeText, format), MarkedCancelled, One) == MaskedSum(txs, Inactive, One)
  {
    if txs != [] {
      var init := txs[..|txs| - 1];
      RowsMarked(init, dateTimeText, format);
      assert PdfRows(txs, dateTimeText, format)[..|txs| - 1] == PdfRows(init, dateTimeText, format);
    }
  }

  lemma {:induction false} CountComplement<T>(s: seq<T>, p: T -> bool, q: T -> bool)
    requires forall x :: q(x) == !p(x)
    ensures MaskedSum(s, p, One) + MaskedSum(s, q, One) == |s|
  {
    if s != [] {
      CountComplement(s[..|s| - 1], p, q);
    }
  }

  predicate Inactive(t: Transaction)
  {
    !IsActive(t)
  }

  predicate MarkedCancelled(row: seq<string>)
  {
    |row| == 6 && row[5] == "CANCELLED"
  }
}
