/** The canonical transaction, its fuzzy equality, and the two source readers:
    rows of a Venmo statement CSV and transaction records from the YNAB API. */
module Transactions {
  import opened Wrappers
  import opened Numerals
  import opened Civil

  /** The record every source is read into; `amount` is an integer
      (hundredths of a dollar on the Venmo side, YNAB milliunits divided by ten). */
  datatype Transaction = Transaction(date: DateTime, payee: string, memo: string, amount: int)

  /** `timedelta(days=2)`, in seconds. */
  const MatchWindow := 2 * SecondsPerDay

  function Abs(x: int): nat
  {
    if x < 0 then -x else x
  }

  /** `Transaction.__eq__`: the amounts are identical and the dates are less
      than two days apart. Payee and memo play no part. */
  predicate FuzzyEqual(a: Transaction, b: Transaction)
  {
    Abs(Seconds(a.date) - Seconds(b.date)) < MatchWindow && a.amount == b.amount
  }

  lemma FuzzyEqualReflexive(a: Transaction)
    ensures FuzzyEqual(a, a)
  {
  }

  lemma FuzzyEqualSymmetric(a: Transaction, b: Transaction)
    ensures FuzzyEqual(a, b) <==> FuzzyEqual(b, a)
  {
  }

  /** Changing payee or memo never changes the outcome of a comparison. */
  lemma FuzzyEqualIgnoresText(a: Transaction, b: Transaction, payee: string, memo: string)
    ensures FuzzyEqual(a.(payee := payee, memo := memo), b) <==> FuzzyEqual(a, b)
  {
  }

  /** The relation is not transitive: three equal amounts dated 0, 1.5 and 3 days
      from 2023-03-01T00:00:00 chain together, but the two ends are 3 days apart. */
  lemma FuzzyEqualNotTransitive()
    ensures var a := Transaction(DateTime(2023, 3, 1, 0, 0, 0), "A", "", 1500);
            var b := Transaction(DateTime(2023, 3, 2, 12, 0, 0), "B", "", 1500);
            var c := Transaction(DateTime(2023, 3, 4, 0, 0, 0), "C", "", 1500);
            FuzzyEqual(a, b) && FuzzyEqual(b, c) && !FuzzyEqual(a, c)
  {
  }

  /** Two records of one calendar day with the same amount always match. */
  lemma SameDayMatches(a: Transaction, b: Transaction)
    requires Valid(a.date) && Valid(b.date)
    requires (a.date.year, a.date.month, a.date.day) == (b.date.year, b.date.month, b.date.day)
    requires a.amount == b.amount
    ensures FuzzyEqual(a, b)
  {
  }

  /** Records whose calendar days are three or more days apart never match. */
  lemma DistantDaysDiffer(a: Transaction, b: Transaction)
    requires Valid(a.date) && Valid(b.date)
    requires Ordinal(b.date.year, b.date.month, b.date.day) >= Ordinal(a.date.year, a.date.month, a.date.day) + 3
    ensures !FuzzyEqual(a, b)
  {
  }

  // ---- Venmo statement rows ----

  /** The 22 columns of a Venmo statement row, in file order
      (`VenmoTransaction.TransactionData`; `amount_total` is declared twice
      there but is one column). */
  datatype VenmoData = VenmoData(
    empty: string, id: string, datetime: string, txnType: string, status: string,
    note: string, from: string, to: string, amountTotal: string, amountTip: string,
    amountTax: string, amountFee: string, taxRate: string, taxExempt: string,
    fundingSource: string, destination: string, beginningBalance: string,
    endingBalance: string, statementPeriodVenmoFees: string, terminalLocation: string,
    yearToDateVenmoFees: string, disclaimer: string)

  const VenmoFieldCount := 22
  const IdColumn := 1
  const DatetimeColumn := 2
  const TypeColumn := 3
  const NoteColumn := 5
  const FromColumn := 6
  const ToColumn := 7
  const AmountTotalColumn := 8

  /** Venmo timestamps are four hours ahead of the local time used for matching. */
  const VenmoOffsetHours := 4

  function VenmoRowOf(d: VenmoData): (row: seq<string>)
    ensures |row| == VenmoFieldCount
  {
    [d.empty, d.id, d.datetime, d.txnType, d.status, d.note, d.from, d.to, d.amountTotal,
     d.amountTip, d.amountTax, d.amountFee, d.taxRate, d.taxExempt, d.fundingSource,
     d.destination, d.beginningBalance, d.endingBalance, d.statementPeriodVenmoFees,
     d.terminalLocation, d.yearToDateVenmoFees, d.disclaimer]
  }

  /** `TransactionData(*row)`: exactly 22 fields, taken by position, or a TypeError. */
  function VenmoDataOf(row: seq<string>): (r: Result<VenmoData, Error>)
    ensures r.Ok? <==> |row| == VenmoFieldCount
    ensures r.Err? ==> r.error == ArgumentCount(|row|)
    ensures r.Ok? ==> VenmoRowOf(r.value) == row
    ensures r.Ok? ==> && r.value.id == row[IdColumn] && r.value.datetime == row[DatetimeColumn]
                      && r.value.txnType == row[TypeColumn] && r.value.note == row[NoteColumn]
                      && r.value.from == row[FromColumn] && r.value.to == row[ToColumn]
                      && r.value.amountTotal == row[AmountTotalColumn]
  {
    if |row| != VenmoFieldCount then Err(ArgumentCount(|row|))
    else
      Ok(VenmoData(row[0], row[1], row[2], row[3], row[4], row[5], row[6], row[7], row[8],
                   row[9], row[10], row[11], row[12], row[13], row[14], row[15], row[16],
                   row[17], row[18], row[19], row[20], row[21]))
  }

  lemma VenmoLayoutRoundTrip(d: VenmoData)
    ensures VenmoDataOf(VenmoRowOf(d)) == Ok(d)
  {
  }

  /** `VenmoTransaction.date`: the `%Y-%m-%dT%H:%M:%S` timestamp minus four hours. */
  function VenmoDate(d: VenmoData): (r: Result<DateTime, Error>)
    ensures ParseTimestamp(d.datetime).None? ==> r == Err(BadTime(d.datetime))
    ensures ParseTimestamp(d.datetime).Some? ==>
      var t := ParseTimestamp(d.datetime).value;
      && (r.Ok? <==> Seconds(t) - VenmoOffsetHours * SecondsPerHour >= Seconds(Earliest))
      && (r.Ok? ==> Valid(r.value) && Seconds(r.value) == Seconds(t) - VenmoOffsetHours * SecondsPerHour)
      && (r.Err? ==> r.error == DateOverflow)
  {
    match ParseTimestamp(d.datetime)
    case None => Err(BadTime(d.datetime))
    case Some(t) =>
      match MinusHours(t, VenmoOffsetHours)
      case None => Err(DateOverflow)
      case Some(u) => Ok(u)
  }

  /** A statement time from 04:00 on keeps its calendar day, four hours earlier. */
  lemma VenmoDateSameDay(d: VenmoData, t: DateTime)
    requires ParseTimestamp(d.datetime) == Some(t) && t.hour >= VenmoOffsetHours
    ensures VenmoDate(d) == Ok(t.(hour := t.hour - VenmoOffsetHours))
  {
  }

  /** A statement time before 04:00 lands on the previous calendar day, at
      hour `t.hour + 20`; on 0001-01-01 there is no previous day and the shift overflows. */
  lemma VenmoDateCrossesMidnight(d: VenmoData, t: DateTime)
    requires ParseTimestamp(d.datetime) == Some(t) && t.hour < VenmoOffsetHours
    ensures (t.year, t.month, t.day) == (1, 1, 1) ==> VenmoDate(d) == Err(DateOverflow)
    ensures (t.year, t.month, t.day) != (1, 1, 1) ==>
      var (py, pm, pd) := PrevDay(t.year, t.month, t.day);
      VenmoDate(d) == Ok(DateTime(py, pm, pd, t.hour + 24 - VenmoOffsetHours, t.minute, t.second))
  {
  }

  /** The previous day of 1 March 2023 is 28 February (2023 is not a leap year),
      of 1 March 2024 is 29 February, and of 1 January is 31 December. */
  lemma PrevDayExamples()
    ensures PrevDay(2023, 3, 1) == (2023, 2, 28)
    ensures PrevDay(2024, 3, 1) == (2024, 2, 29)
    ensures PrevDay(2024, 1, 1) == (2023, 12, 31)
  {
  }

  predicate StartsWithPlus(s: string)
  {
    |s| > 0 && s[0] == '+'
  }

  /** `VenmoTransaction.payee`: the sender when "the total starts with `+`"
      differs from "the type is Charge", otherwise the recipient. */
  function VenmoPayee(d: VenmoData): string
  {
    if StartsWithPlus(d.amountTotal) != (d.txnType == "Charge") then d.from else d.to
  }

  /** The four combinations of sign and type. */
  lemma VenmoPayeeCases(d: VenmoData)
    ensures StartsWithPlus(d.amountTotal) && d.txnType == "Payment" ==> VenmoPayee(d) == d.from
    ensures StartsWithPlus(d.amountTotal) && d.txnType == "Charge" ==> VenmoPayee(d) == d.to
    ensures !StartsWithPlus(d.amountTotal) && d.txnType == "Charge" ==> VenmoPayee(d) == d.from
    ensures !StartsWithPlus(d.amountTotal) && d.txnType == "Payment" ==> VenmoPayee(d) == d.to
  {
  }

  /** The characters deleted from a Venmo amount before it is read as an integer. */
  predicate IsAmountPunctuation(c: char)
  {
    c == '$' || c == ' ' || c == ',' || c == '.'
  }

  /** `s.translate(str.maketrans("", "", "$ ,."))`. */
  function StripAmountPunctuation(s: string): (r: string)
    ensures |r| <= |s|
    ensures forall i :: 0 <= i < |r| ==> !IsAmountPunctuation(r[i])
  {
    if s == [] then []
    else if IsAmountPunctuation(s[0]) then StripAmountPunctuation(s[1..])
    else [s[0]] + StripAmountPunctuation(s[1..])
  }

  /** Deleting characters works piecewise: it keeps the order of what remains. */
  lemma {:induction false} StripAmountPunctuationAppend(a: string, b: string)
    ensures StripAmountPunctuation(a + b) == StripAmountPunctuation(a) + StripAmountPunctuation(b)
  {
    if a != [] {
      assert (a + b)[0] == a[0];
      assert (a + b)[1..] == a[1..] + b;
      StripAmountPunctuationAppend(a[1..], b);
      if !IsAmountPunctuation(a[0]) {
        var x, y := StripAmountPunctuation(a[1..]), StripAmountPunctuation(b);
        assert [a[0]] + (x + y) == ([a[0]] + x) + y;
      }
    } else {
      assert a + b == b;
    }
  }

  /** Text with none of the deleted characters is left as it is. */
  lemma {:induction false} StripAmountPunctuationKeeps(s: string)
    requires forall i :: 0 <= i < |s| ==> !IsAmountPunctuation(s[i])
    ensures StripAmountPunctuation(s) == s
  {
    if s != [] {
      StripAmountPunctuationKeeps(s[1..]);
    }
  }

  /** `VenmoTransaction.amount`: `int` of the total with `$`, space, `,` and `.` deleted. */
  function VenmoAmount(d: VenmoData): Result<int, Error>
  {
    var digits := StripAmountPunctuation(d.amountTotal);
    match ParseInt(digits)
    case None => Err(BadLiteral(digits))
    case Some(n) => Ok(n)
  }

  /** Dollar figures as statements write them: digits, possibly grouped by commas
      (`1,234`), beginning with a digit. */
  predicate DollarFigure(s: string)
  {
    |s| > 0 && IsDigit(s[0]) && forall i :: 0 <= i < |s| ==> IsDigit(s[i]) || s[i] == ','
  }

  /** Deleting the commas of a dollar figure leaves a non-empty digit string. */
  lemma {:induction false} StripDollarFigure(s: string)
    requires forall i :: 0 <= i < |s| ==> IsDigit(s[i]) || s[i] == ','
    ensures AllDigits(StripAmountPunctuation(s))
    ensures |s| > 0 && IsDigit(s[0]) ==> |StripAmountPunctuation(s)| > 0
  {
    if s != [] {
      StripDollarFigure(s[1..]);
    }
  }

  /** A statement total `<sign> $<dollars>.<cents>` reads as the signed number of
      cents, whatever commas group the dollar digits. */
  lemma VenmoAmountOfDisplay(d: VenmoData, sign: char, dollars: string, cents: string)
    requires sign == '+' || sign == '-'
    requires DollarFigure(dollars) && |cents| == 2 && AllDigits(cents)
    requires d.amountTotal == [sign] + " $" + dollars + "." + cents
    ensures AllDigits(StripAmountPunctuation(dollars))
    ensures var k := DigitsValue(StripAmountPunctuation(dollars)) * 100 + DigitsValue(cents);
            VenmoAmount(d) == Ok(if sign == '-' then -k else k)
  {
    StripDollarFigure(dollars);
    var ds := StripAmountPunctuation(dollars);
    StripDisplay(sign, dollars, cents);
    DigitsValueCents(ds, cents);
    SignedDigitsParse(sign, ds + cents, DigitsValue(ds) * 100 + DigitsValue(cents));
  }

  lemma StripDisplay(sign: char, dollars: string, cents: string)
    requires sign == '+' || sign == '-'
    requires AllDigits(cents)
    ensures StripAmountPunctuation([sign] + " $" + dollars + "." + cents)
            == [sign] + (StripAmountPunctuation(dollars) + cents)
  {
    var rest := dollars + ("." + cents);
    assert [sign] + " $" + dollars + "." + cents == ([sign] + " $") + rest;
    StripAmountPunctuationAppend([sign] + " $", rest);
    StripAmountPunctuationAppend([sign], " $");
    StripAmountPunctuationKeeps([sign]);
    StripAllPunctuation(" $");
    StripAmountPunctuationAppend(dollars, "." + cents);
    assert StripAmountPunctuation("." + cents) == StripAmountPunctuation(cents);
    StripAmountPunctuationKeeps(cents);
  }

  /** Appending two cents digits to a dollar figure scales it by a hundred. */
  lemma DigitsValueCents(dollars: string, cents: string)
    requires AllDigits(dollars) && |cents| == 2 && AllDigits(cents)
    ensures AllDigits(dollars + cents)
    ensures DigitsValue(dollars + cents) == DigitsValue(dollars) * 100 + DigitsValue(cents)
  {
    var ds := dollars + cents;
    var ds1 := dollars + cents[..1];
    assert ds[..|ds| - 1] == ds1 && ds[|ds| - 1] == cents[1];
    assert ds1[..|ds1| - 1] == dollars && ds1[|ds1| - 1] == cents[0];
    assert DigitsValue(ds1) == DigitsValue(dollars) * 10 + DigitValue(cents[0]);
    assert cents[..1][..0] == [];
    assert DigitsValue(cents[..1]) == DigitValue(cents[0]);
    assert DigitsValue(cents) == DigitValue(cents[0]) * 10 + DigitValue(cents[1]);
  }

  /** The worked example beside `VenmoTransaction.amount`: "+ $150.00" is 15000. */
  lemma VenmoAmountExample(d: VenmoData)
    requires d.amountTotal == "+ $150.00"
    ensures VenmoAmount(d) == Ok(15000)
  {
    assert d.amountTotal == ['+'] + " $" + "150" + "." + "00";
    VenmoAmountOfDisplay(d, '+', "150", "00");
    StripAmountPunctuationKeeps("150");
  }

  /** A negative total with a thousands separator: "- $1,234.56" is -123456. */
  lemma VenmoAmountThousands(d: VenmoData)
    requires d.amountTotal == "- $1,234.56"
    ensures VenmoAmount(d) == Ok(-123456)
  {
    assert d.amountTotal == ['-'] + " $" + "1,234" + "." + "56";
    VenmoAmountOfDisplay(d, '-', "1,234", "56");
    ThousandsFigure();
  }

  lemma ThousandsFigure()
    ensures StripAmountPunctuation("1,234") == "1234"
    ensures DigitsValue("1234") == 1234 && DigitsValue("56") == 56
  {
    assert "1,234" == "1," + "234";
    StripAmountPunctuationAppend("1,", "234");
    StripAmountPunctuationKeeps("234");
    assert "1234"[..3] == "123" && "123"[..2] == "12" && "12"[..1] == "1" && "1"[..0] == [];
    assert "56"[..1] == "5" && "5"[..0] == [];
  }

  /** A total with nothing left after the deletions is a ValueError. */
  lemma VenmoAmountBlank(d: VenmoData)
    requires forall i :: 0 <= i < |d.amountTotal| ==> IsAmountPunctuation(d.amountTotal[i])
    ensures VenmoAmount(d) == Err(BadLiteral(""))
  {
    assert StripAmountPunctuation(d.amountTotal) == [] by {
      StripAllPunctuation(d.amountTotal);
    }
  }

  lemma {:induction false} StripAllPunctuation(s: string)
    requires forall i :: 0 <= i < |s| ==> IsAmountPunctuation(s[i])
    ensures StripAmountPunctuation(s) == []
  {
    if s != [] {
      StripAllPunctuation(s[1..]);
    }
  }

  /** `VenmoTransaction(row)`: the fields are read in the order date, payee,
      memo, amount, so the first failure in that order is the one raised. */
  function VenmoTransaction(row: seq<string>): (r: Result<Transaction, Error>)
    ensures |row| != VenmoFieldCount ==> r == Err(ArgumentCount(|row|))
    ensures r.Ok? ==> && |row| == VenmoFieldCount
                      && r.value.memo == row[NoteColumn]
                      && (r.value.payee == row[FromColumn] || r.value.payee == row[ToColumn])
                      && Valid(r.value.date)
    ensures |row| == VenmoFieldCount ==>
      var d := VenmoDataOf(row).value;
      && (r.Ok? <==> VenmoDate(d).Ok? && VenmoAmount(d).Ok?)
      && (r.Err? ==> r.error == if VenmoDate(d).Err? then VenmoDate(d).error else VenmoAmount(d).error)
      && (r.Ok? ==> && r.value.date == VenmoDate(d).value && r.value.payee == VenmoPayee(d)
                    && r.value.amount == VenmoAmount(d).value)
  {
    match VenmoDataOf(row)
    case Err(e) => Err(e)
    case Ok(d) =>
      match VenmoDate(d)
      case Err(e) => Err(e)
      case Ok(date) =>
        match VenmoAmount(d)
        case Err(e) => Err(e)
        case Ok(amount) => Ok(Transaction(date, VenmoPayee(d), d.note, amount))
  }

  /** The filter of `VenmoTransaction.list_from`: a non-empty id other than the header's "ID". */
  predicate IsDataRow(row: seq<string>)
    requires |row| > IdColumn
  {
    row[IdColumn] != "" && row[IdColumn] != "ID"
  }

  predicate AllIndexable(rows: seq<seq<string>>)
  {
    forall i :: 0 <= i < |rows| ==> |rows[i]| > IdColumn
  }

  /** The rows `list_from` keeps, in file order. */
  function DataRows(rows: seq<seq<string>>): seq<seq<string>>
    requires AllIndexable(rows)
  {
    if rows == [] then []
    else if IsDataRow(rows[0]) then [rows[0]] + DataRows(rows[1..])
    else DataRows(rows[1..])
  }

  /** A reader of one statement row. */
  type RowReader = seq<string> -> Result<Transaction, Error>

  /** The comprehension of `list_from`, `[read(row) for row in rows if <kept>]`,
      for a row reader `read`: a row with fewer than two fields stops the scan
      with an IndexError, a kept row that does not read stops it with that
      row's error; otherwise one transaction per kept row. */
  function ReadKept(read: RowReader, rows: seq<seq<string>>): Result<seq<Transaction>, Error>
  {
    if rows == [] then Ok([])
    else if |rows[0]| <= IdColumn then Err(IndexOutOfRange)
    else if !IsDataRow(rows[0]) then ReadKept(read, rows[1..])
    else
      match read(rows[0])
      case Err(e) => Err(e)
      case Ok(t) =>
        match ReadKept(read, rows[1..])
        case Err(e) => Err(e)
        case Ok(ts) => Ok([t] + ts)
  }

  /** `VenmoTransaction.list_from` on the rows of an opened file. */
  function ListFrom(rows: seq<seq<string>>): Result<seq<Transaction>, Error>
  {
    ReadKept(VenmoTransaction, rows)
  }

  /** When the scan succeeds every row has an id field, and there is one
      transaction per kept row. */
  lemma {:induction false} ReadKeptLength(read: RowReader, rows: seq<seq<string>>)
    requires ReadKept(read, rows).Ok?
    ensures AllIndexable(rows) && |ReadKept(read, rows).value| == |DataRows(rows)|
  {
    if rows != [] {
      ReadKeptLength(read, rows[1..]);
      assert forall i :: 1 <= i < |rows| ==> rows[i] == rows[1..][i - 1];
    }
  }

  /** The transaction at position `k` is read from the `k`-th kept row: the
      kept rows are read in file order. */
  lemma {:induction false} ReadKeptOk(read: RowReader, rows: seq<seq<string>>)
    requires ReadKept(read, rows).Ok?
    ensures AllIndexable(rows) && |ReadKept(read, rows).value| == |DataRows(rows)|
    ensures forall k :: 0 <= k < |DataRows(rows)| ==> read(DataRows(rows)[k]) == Ok(ReadKept(read, rows).value[k])
  {
    ReadKeptLength(read, rows);
    if rows != [] {
      var rest := rows[1..];
      ReadKeptOk(read, rest);
      if IsDataRow(rows[0]) {
        var ts := ReadKept(read, rows).value;
        assert ts == [read(rows[0]).value] + ReadKept(read, rest).value;
        assert DataRows(rows) == [rows[0]] + DataRows(rest);
        forall k | 0 <= k < |DataRows(rows)|
          ensures read(DataRows(rows)[k]) == Ok(ts[k])
        {
          if k > 0 {
            assert DataRows(rows)[k] == DataRows(rest)[k - 1];
          }
        }
      }
    }
  }

  /** A row that makes the scan raise. */
  predicate RowFails(read: RowReader, row: seq<string>)
  {
    |row| <= IdColumn || (IsDataRow(row) && read(row).Err?)
  }

  /** The error a failing row raises. */
  function RowError(read: RowReader, row: seq<string>): Error
    requires RowFails(read, row)
  {
    if |row| <= IdColumn then IndexOutOfRange else read(row).error
  }

  /** The scan fails exactly when some row makes it raise, and then with the
      error of the first such row. */
  lemma {:induction false} ReadKeptErr(read: RowReader, rows: seq<seq<string>>)
    ensures ReadKept(read, rows).Err? <==> exists i :: 0 <= i < |rows| && RowFails(read, rows[i])
    ensures ReadKept(read, rows).Err? ==>
      exists i :: && 0 <= i < |rows| && RowFails(read, rows[i]) && ReadKept(read, rows).error == RowError(read, rows[i])
                  && forall j :: 0 <= j < i ==> !RowFails(read, rows[j])
  {
    if rows != [] && !RowFails(read, rows[0]) {
      var rest := rows[1..];
      ReadKeptErr(read, rest);
      assert ReadKept(read, rows).Err? <==> ReadKept(read, rest).Err?;
      assert forall i :: 1 <= i < |rows| ==> rows[i] == rest[i - 1];
      if ReadKept(read, rows).Err? {
        assert ReadKept(read, rows).error == ReadKept(read, rest).error;
        var i :| && 0 <= i < |rest| && RowFails(read, rest[i]) && ReadKept(read, rest).error == RowError(read, rest[i])
                 && forall j :: 0 <= j < i ==> !RowFails(read, rest[j]);
        assert rows[i + 1] == rest[i];
        assert forall j :: 0 <= j < i + 1 ==> !RowFails(read, rows[j]) by {
          forall j | 0 <= j < i + 1 ensures !RowFails(read, rows[j]) {
            if j > 0 { assert rows[j] == rest[j - 1]; }
          }
        }
      }
      if exists i :: 0 <= i < |rows| && RowFails(read, rows[i]) {
        var i :| 0 <= i < |rows| && RowFails(read, rows[i]);
        assert rest[i - 1] == rows[i];
      }
    }
  }

  /** Reading two parts of a file in turn is reading the whole file: the results
      are concatenated in order, and the first error in file order is the one raised. */
  lemma {:induction false} ReadKeptAppend(read: RowReader, a: seq<seq<string>>, b: seq<seq<string>>)
    ensures ReadKept(read, a + b) == match ReadKept(read, a)
                                     case Err(e) => Err(e)
                                     case Ok(ta) =>
                                       match ReadKept(read, b)
                                       case Err(e) => Err(e)
                                       case Ok(tb) => Ok(ta + tb)
  {
    if a != [] {
      assert (a + b)[0] == a[0];
      assert (a + b)[1..] == a[1..] + b;
      ReadKeptAppend(read, a[1..], b);
      if |a[0]| > IdColumn && IsDataRow(a[0]) && read(a[0]).Ok? {
        match ReadKept(read, a[1..])
        case Err(e) =>
        case Ok(ta) =>
          match ReadKept(read, b)
          case Err(e) =>
          case Ok(tb) =>
            assert [read(a[0]).value] + (ta + tb) == ([read(a[0]).value] + ta) + tb;
      }
    } else {
      assert a + b == b;
      match ReadKept(read, b)
      case Err(e) =>
      case Ok(tb) => assert [] + tb == tb;
    }
  }

  /** A file holding only the header row reads as no transactions. */
  lemma HeaderOnly(header: seq<string>)
    requires |header| > IdColumn && header[IdColumn] == "ID"
    ensures ListFrom([header]) == Ok([])
  {
    assert [header][0] == header && [header][1..] == [];
    assert !IsDataRow(header);
    assert ReadKept(VenmoTransaction, [header]) == ReadKept(VenmoTransaction, []);
  }

  /** `list_from` succeeds exactly when no row makes it raise, and then each
      transaction is read from the kept row at its position; it fails with the
      error of the first row that makes it raise. */
  lemma ListFromCharacterised(rows: seq<seq<string>>)
    ensures ListFrom(rows).Err? <==> exists i :: 0 <= i < |rows| && RowFails(VenmoTransaction, rows[i])
    ensures ListFrom(rows).Err? ==>
      exists i :: && 0 <= i < |rows| && RowFails(VenmoTransaction, rows[i])
                  && ListFrom(rows).error == RowError(VenmoTransaction, rows[i])
                  && forall j :: 0 <= j < i ==> !RowFails(VenmoTransaction, rows[j])
    ensures ListFrom(rows).Ok? ==> AllIndexable(rows) && |ListFrom(rows).value| == |DataRows(rows)|
    ensures ListFrom(rows).Ok? ==>
      forall k :: 0 <= k < |DataRows(rows)| ==> VenmoTransaction(DataRows(rows)[k]) == Ok(ListFrom(rows).value[k])
  {
    ReadKeptErr(VenmoTransaction, rows);
    if ListFrom(rows).Ok? {
      ReadKeptOk(VenmoTransaction, rows);
    }
  }

  /** Every transaction read from a statement carries a valid date. */
  lemma ListFromValid(rows: seq<seq<string>>)
    requires ListFrom(rows).Ok?
    ensures forall k :: 0 <= k < |ListFrom(rows).value| ==> Valid(ListFrom(rows).value[k].date)
  {
    ReadKeptOk(VenmoTransaction, rows);
    var ts := ListFrom(rows).value;
    forall k | 0 <= k < |ts| ensures Valid(ts[k].date) {
      assert VenmoTransaction(DataRows(rows)[k]) == Ok(ts[k]);
    }
  }

  // ---- YNAB API transaction records ----

  /** The fields of a YNAB transaction record that the reader uses, by name. */
  datatype YnabRecord = YnabRecord(date: string, amount: int, memo: string, payeeName: string)

  /** `int(a / 10)`: division by ten, truncated toward zero. */
  function TruncDiv10(a: int): (q: int)
    ensures a >= 0 ==> 0 <= a - 10 * q < 10
    ensures a < 0 ==> -10 < a - 10 * q <= 0
  {
    if a >= 0 then a / 10 else -((-a) / 10)
  }

  lemma TruncDiv10Example()
    ensures TruncDiv10(-15) == -1 && TruncDiv10(15) == 1 && TruncDiv10(-10) == -1
  {
  }

  /** `YnabTransaction(raw)`: the `%Y-%m-%d` date at midnight, no time-zone shift,
      the amount divided by ten, `payee_name` and `memo` as they are. */
  function YnabTransaction(rec: YnabRecord): (r: Result<Transaction, Error>)
    ensures r.Ok? <==> ParseDate(rec.date).Some?
    ensures r.Err? ==> r.error == BadTime(rec.date)
    ensures r.Ok? ==> && Valid(r.value.date) && r.value.date == Midnight(r.value.date)
                      && FormatDate(r.value.date) == rec.date
                      && r.value.amount == TruncDiv10(rec.amount)
                      && r.value.payee == rec.payeeName && r.value.memo == rec.memo
  {
    match ParseDate(rec.date)
    case None => Err(BadTime(rec.date))
    case Some(d) =>
      FormatParseDate(rec.date);
      Ok(Transaction(d, rec.payeeName, rec.memo, TruncDiv10(rec.amount)))
  }

  /** `YnabTransaction.from_list`: every record, in order. */
  function YnabFromList(recs: seq<YnabRecord>): Result<seq<Transaction>, Error>
  {
    if recs == [] then Ok([])
    else
      match YnabTransaction(recs[0])
      case Err(e) => Err(e)
      case Ok(t) =>
        match YnabFromList(recs[1..])
        case Err(e) => Err(e)
        case Ok(ts) => Ok([t] + ts)
  }

  /** `from_list` succeeds exactly when every record reads. */
  lemma {:induction false} YnabFromListOk(recs: seq<YnabRecord>)
    ensures YnabFromList(recs).Ok? <==> forall i :: 0 <= i < |recs| ==> YnabTransaction(recs[i]).Ok?
  {
    if recs != [] {
      YnabFromListOk(recs[1..]);
      assert forall i :: 1 <= i < |recs| ==> recs[i] == recs[1..][i - 1];
    }
  }

  /** A successful `from_list` holds each record's transaction at the record's position. */
  lemma {:induction false} YnabFromListValues(recs: seq<YnabRecord>)
    requires YnabFromList(recs).Ok?
    ensures |YnabFromList(recs).value| == |recs|
    ensures forall i :: 0 <= i < |recs| ==> YnabTransaction(recs[i]) == Ok(YnabFromList(recs).value[i])
  {
    if recs != [] {
      var rest := recs[1..];
      YnabFromListValues(rest);
      var ts := YnabFromList(recs).value;
      assert ts == [YnabTransaction(recs[0]).value] + YnabFromList(rest).value;
      forall i | 1 <= i < |recs| ensures YnabTransaction(recs[i]) == Ok(ts[i]) {
        assert recs[i] == rest[i - 1] && ts[i] == YnabFromList(rest).value[i - 1];
      }
    }
  }

  /** When `from_list` fails, it is with the error of the first record that
      does not read. */
  lemma {:induction false} YnabFromListErr(recs: seq<YnabRecord>)
    requires YnabFromList(recs).Err?
    ensures exists i :: && 0 <= i < |recs| && YnabTransaction(recs[i]) == Err(YnabFromList(recs).error)
                        && forall j :: 0 <= j < i ==> YnabTransaction(recs[j]).Ok?
  {
    if YnabTransaction(recs[0]).Ok? {
      var rest := recs[1..];
      YnabFromListErr(rest);
      var i :| && 0 <= i < |rest| && YnabTransaction(rest[i]) == Err(YnabFromList(rest).error)
               && forall j :: 0 <= j < i ==> YnabTransaction(rest[j]).Ok?;
      assert recs[i + 1] == rest[i];
      assert forall j :: 0 <= j < i + 1 ==> YnabTransaction(recs[j]).Ok? by {
        forall j | 0 <= j < i + 1 ensures YnabTransaction(recs[j]).Ok? {
          if j > 0 { assert recs[j] == rest[j - 1]; }
        }
      }
    } else {
      assert YnabTransaction(recs[0]) == Err(YnabFromList(recs).error);
    }
  }

  /** Reading a milliunit amount (divide by ten) and writing it back (multiply by
      ten) restores it exactly when it is a multiple of ten. */
  lemma AmountIngestEgress(a: int)
    ensures 10 * TruncDiv10(a) == a <==> a % 10 == 0
  {
  }
}
