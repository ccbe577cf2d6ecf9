/** The standard-library CSV importer: date and number normalisation, header-keyword column detection,
    row-by-row validation and contiguous id assignment. */
module ImportCsv {
  import opened Util
  import opened Strings
  import opened Dates
  import opened Records
  import opened Accounting
  import opened Importing

  // ---------------------------------------------------------------- dates

  /** The date `parse_date` reads: the first of the import formats that parses the stripped text, else a
      spreadsheet serial number `int(float(text))` in 1..50000. */
  function ReadDate(text: string): (r: Option<Date>)
    ensures Strip(text) == [] ==> r.None?
    ensures r.Some? ==> ValidDate(r.value)
  {
    var t := Strip(text);
    if t == [] then None
    else match FirstFormat(t, ImportFormats)
      case Some(d) => Some(d)
      case None => SerialText(t)
  }

  /** The serial-number fallback: `int(float(t))` must lie in 1..50000. */
  function SerialText(t: string): (r: Option<Date>)
    ensures r.Some? ==> ValidDate(r.value)
    ensures r.Some? ==> ParseDecimal(t).Some? && 1 <= Trunc(ParseDecimal(t).value) <= 50000
  {
    match ParseDecimal(t)
    case Some(x) =>
      var n := Trunc(x);
      if 1 <= n <= 50000 then SerialDate(n) else None
    case None => None
  }

  /** `parse_date`: the date read, written as `strftime("%Y-%m-%d")`; None when nothing parses. */
  function ParseDate(text: string): (r: Option<string>)
    ensures r.Some? <==> ReadDate(text).Some?
    ensures r.Some? ==> r.value == FormatIso(ReadDate(text).value)
  {
    match ReadDate(text)
    case Some(d) => Some(FormatIso(d))
    case None => None
  }

  /** Empty or whitespace-only text is not a date. */
  lemma BlankIsNoDate(text: string)
    requires forall i :: 0 <= i < |text| ==> IsSpace(text[i])
    ensures ParseDate(text) == None
  {
    StripSpec(text);
  }

  /** The formats are tried in order: when format `i` is the first that parses, its reading is the result. */
  lemma FirstFormatWins(text: string, i: nat)
    requires i < |ImportFormats| && Strip(text) != []
    requires Strptime(Strip(text), ImportFormats[i]).Some?
    requires forall j :: 0 <= j < i ==> Strptime(Strip(text), ImportFormats[j]).None?
    ensures ParseDate(text) == Some(FormatIso(Strptime(Strip(text), ImportFormats[i]).value))
  {
    var t := Strip(text);
    FirstFormatFirstSuccess(t, ImportFormats);
    var k :| 0 <= k < |ImportFormats| && Strptime(t, ImportFormats[k]) == FirstFormat(t, ImportFormats)
             && forall j :: 0 <= j < k ==> Strptime(t, ImportFormats[j]).None?;
    assert k == i;
  }

  /** A text no format parses is read as a serial number only when `int(float(text))` is in 1..50000. */
  lemma SerialFallbackRange(text: string)
    requires FirstFormat(Strip(text), ImportFormats).None?
    ensures ParseDate(text).Some? ==>
      var x := ParseDecimal(Strip(text));
      x.Some? && 1 <= Trunc(x.value) <= 50000 && ReadDate(text) == SerialDate(Trunc(x.value))
  {
  }

  /** The output is ISO: reading it back with "%Y-%m-%d" gives the date that was read. */
  lemma ParseDateReadsBack(text: string)
    requires ParseDate(text).Some?
    ensures Strptime(ParseDate(text).value, IsoFormat) == ReadDate(text)
  {
    IsoRoundTrip(ReadDate(text).value);
  }

  /** Normalisation is idempotent: an imported date parses to itself. */
  lemma ParseDateIdempotent(text: string)
    requires ParseDate(text).Some?
    ensures ParseDate(ParseDate(text).value) == ParseDate(text)
  {
    var d := ReadDate(text).value;
    var s := FormatIso(d);
    assert IsDigit(s[0]) && IsDigit(s[9]);
    StripNoEdgeSpace(s);
    IsoRoundTrip(d);
    assert ImportFormats[0] == IsoFormat;
    assert ReadDate(s) == Some(d);
  }

  /** The digit texts of the example below and their values. */
  lemma ExampleDigits()
    ensures AcceptsDay("03") && AcceptsMonth("03") && DigitsValue("03") == 3
    ensures AcceptsDay("04") && AcceptsMonth("04") && DigitsValue("04") == 4
    ensures IsDigits("2026") && DigitsValue("2026") == 2026
  {
    assert "03"[..1] == "0" && "04"[..1] == "0";
    assert "2026"[..3] == "202" && "202"[..2] == "20" && "20"[..1] == "2";
  }

  /** Day, slash, month, slash, four-digit year, read with "%d/%m/%Y". */
  lemma MatchDaySlashMonth(ds: string, ms: string, ys: string, acc: Date)
    requires AcceptsDay(ds) && AcceptsMonth(ms) && IsDigits(ys) && |ys| == 4
    ensures Match(ds + ("/" + (ms + ("/" + ys))), ImportFormats[2], acc)
         == Some(acc.(day := DigitsValue(ds), month := DigitsValue(ms), year := DigitsValue(ys)))
  {
    var a1 := acc.(day := DigitsValue(ds));
    var tail := [Lit('/')] + ([Year] + []);
    assert ImportFormats[2] == [Day] + ([Lit('/')] + ([Month] + tail));
    assert Match(ds + ("/" + (ms + ("/" + ys))), [Day] + ([Lit('/')] + ([Month] + tail)), acc)
        == Match(ms + ("/" + ys), [Month] + tail, a1) by {
      MatchDayStep(ds, "/" + (ms + ("/" + ys)), [Lit('/')] + ([Month] + tail), acc);
      MatchLitStep('/', ms + ("/" + ys), [Month] + tail, a1);
    }
    MonthThenYear(ms, ys, a1);
  }

  /** Month, slash, day, slash, four-digit year, read with "%m/%d/%Y". */
  lemma MatchMonthSlashDay(ms: string, ds: string, ys: string, acc: Date)
    requires AcceptsDay(ds) && AcceptsMonth(ms) && IsDigits(ys) && |ys| == 4
    ensures Match(ms + ("/" + (ds + ("/" + ys))), ImportFormats[4], acc)
         == Some(acc.(month := DigitsValue(ms), day := DigitsValue(ds), year := DigitsValue(ys)))
  {
    var a1 := acc.(month := DigitsValue(ms));
    var tail := [Lit('/')] + ([Year] + []);
    assert ImportFormats[4] == [Month] + ([Lit('/')] + ([Day] + tail));
    assert Match(ms + ("/" + (ds + ("/" + ys))), [Month] + ([Lit('/')] + ([Day] + tail)), acc)
        == Match(ds + ("/" + ys), [Day] + tail, a1) by {
      MatchMonthStep(ms, "/" + (ds + ("/" + ys)), [Lit('/')] + ([Day] + tail), acc);
      MatchLitStep('/', ds + ("/" + ys), [Day] + tail, a1);
    }
    DayThenYear(ds, ys, a1);
  }

  lemma MonthThenYear(ms: string, ys: string, acc: Date)
    requires AcceptsMonth(ms) && IsDigits(ys) && |ys| == 4
    ensures Match(ms + ("/" + ys), [Month] + ([Lit('/')] + ([Year] + [])), acc)
         == Some(acc.(month := DigitsValue(ms), year := DigitsValue(ys)))
  {
    var a2 := acc.(month := DigitsValue(ms));
    MatchMonthStep(ms, "/" + ys, [Lit('/')] + ([Year] + []), acc);
    YearLast(ys, a2);
  }

  lemma DayThenYear(ds: string, ys: string, acc: Date)
    requires AcceptsDay(ds) && IsDigits(ys) && |ys| == 4
    ensures Match(ds + ("/" + ys), [Day] + ([Lit('/')] + ([Year] + [])), acc)
         == Some(acc.(day := DigitsValue(ds), year := DigitsValue(ys)))
  {
    var a2 := acc.(day := DigitsValue(ds));
    MatchDayStep(ds, "/" + ys, [Lit('/')] + ([Year] + []), acc);
    YearLast(ys, a2);
  }

  lemma YearLast(ys: string, acc: Date)
    requires IsDigits(ys) && |ys| == 4
    ensures Match("/" + ys, [Lit('/')] + ([Year] + []), acc) == Some(acc.(year := DigitsValue(ys)))
  {
    MatchLitStep('/', ys, [Year] + [], acc);
    assert ys == ys + [];
    MatchYearStep(ys, [], [], acc);
  }

  lemma SlashTextStripped(ds: string, ms: string, ys: string)
    requires AcceptsDay(ds) && IsDigits(ys) && |ys| == 4
    ensures Strip(ds + ("/" + (ms + ("/" + ys)))) == ds + ("/" + (ms + ("/" + ys)))
  {
    var t := ds + ("/" + (ms + ("/" + ys)));
    assert t[0] == ds[0] && IsDigit(ds[0]);
    assert t[|t| - 1] == ys[3] && IsDigit(ys[3]);
    StripNoEdgeSpace(t);
  }

  /** The year-first formats need a first digit run of exactly four digits. */
  lemma YearFirstRejects(t: string)
    requires DigitRun(t) != 4
    ensures forall j :: 0 <= j < 2 ==> Strptime(t, ImportFormats[j]).None?
  {
    assert ImportFormats[0][0] == Year && ImportFormats[1][0] == Year;
  }

  /** Slash-separated dates are read day first: the year-first formats fail on the short first field, and
      "%d/%m/%Y" comes before "%m/%d/%Y" in the list, so whenever the reading day-first is a valid date
      it is the one imported, even when the month-first reading would be valid too. */
  lemma SlashDatesDayFirst(ds: string, ms: string, ys: string)
    requires AcceptsDay(ds) && AcceptsMonth(ms) && IsDigits(ys) && |ys| == 4
    requires ValidDate(Date(DigitsValue(ys), DigitsValue(ms), DigitsValue(ds)))
    ensures ParseDate(ds + ("/" + (ms + ("/" + ys))))
         == Some(FormatIso(Date(DigitsValue(ys), DigitsValue(ms), DigitsValue(ds))))
  {
    var t := ds + ("/" + (ms + ("/" + ys)));
    SlashTextStripped(ds, ms, ys);
    MatchDaySlashMonth(ds, ms, ys, Date(1900, 1, 1));
    DigitRunOfDigits(ds, "/" + (ms + ("/" + ys)));
    YearFirstRejects(t);
    FirstFormatWins(t, 2);
  }

  /** "03/04/2026" read with "%d/%m/%Y" is 3 April 2026. */
  lemma ReadDayFirst()
    ensures Strptime("03/04/2026", ImportFormats[2]) == Some(Date(2026, 4, 3))
  {
    assert "03/04/2026" == "03" + ("/" + ("04" + ("/" + "2026")));
    ExampleDigits();
    MatchDaySlashMonth("03", "04", "2026", Date(1900, 1, 1));
  }

  /** "03/04/2026" read with "%m/%d/%Y" is 4 March 2026. */
  lemma ReadMonthFirst()
    ensures Strptime("03/04/2026", ImportFormats[4]) == Some(Date(2026, 3, 4))
  {
    assert "03/04/2026" == "03" + ("/" + ("04" + ("/" + "2026")));
    ExampleDigits();
    MatchMonthSlashDay("03", "04", "2026", Date(1900, 1, 1));
  }

  /** The two year-first formats reject "03/04/2026": its first digit run has two digits, not four. */
  lemma YearFirstFails()
    ensures Strptime("03/04/2026", ImportFormats[0]).None? && Strptime("03/04/2026", ImportFormats[1]).None?
  {
    ExampleDigits();
    DigitRunOfDigits("03", "/04/2026");
    assert "03/04/2026" == "03" + "/04/2026";
    assert ImportFormats[0][0] == Year && ImportFormats[1][0] == Year;
  }

  // ---------------------------------------------------------------- numbers

  /** `parse_number`: empty text and text that is not a number after removing the marks give 0.0. */
  function ParseNumber(value: string): (x: real)
    ensures value == [] ==> x == 0.0
    ensures value != [] && ParseDecimal(Strip(Unmarked(value))).Some? ==> x == ParseDecimal(Strip(Unmarked(value))).value
    ensures ParseDecimal(Strip(Unmarked(value))).None? ==> x == 0.0
  {
    if value == [] then 0.0
    else match ParseDecimal(Strip(Unmarked(value)))
      case Some(v) => v
      case None => 0.0
  }

  /** A currency mark, comma or space anywhere in the text does not change the number read. */
  lemma ParseNumberIgnoresMarks(a: string, m: char, b: string)
    requires IsNumberMark(m)
    ensures ParseNumber(a + [m] + b) == ParseNumber(a + b)
  {
    UnmarkedIgnoresMark(a, m, b);
    if a + b == [] {
      assert Unmarked(a + b) == [];
    }
  }

  /** Plain decimal text without marks is read as `float` reads it. */
  lemma ParseNumberPlain(value: string)
    requires forall i :: 0 <= i < |value| ==> !IsNumberMark(value[i])
    requires ParseDecimal(value).Some?
    ensures ParseNumber(value) == ParseDecimal(value).value
  {
    UnmarkedNoMarks(value);
    StripIdempotent(value);
  }

  // ---------------------------------------------------------------- columns

  datatype Field = DateField | QuantityField | PriceField | NoteField

  /** The header keywords of each field. */
  function Keywords(f: Field): seq<string>
  {
    match f
    case DateField => ["日期", "date", "时间", "time"]
    case QuantityField => ["数量", "quantity", "套数", "件数", "套", "qty"]
    case PriceField => ["单价", "price", "unit", "价格", "单价(元)"]
    case NoteField => ["备注", "note", "说明", "描述", "notes", "客户"]
  }

  /** `any(kw in h for kw in keywords)`. */
  predicate AnyIn(h: string, keywords: seq<string>)
  {
    keywords != [] && (Contains(h, keywords[0]) || AnyIn(h, keywords[1..]))
  }

  /** The header, lower-cased and stripped, contains one of the keywords. */
  predicate Mentions(header: string, keywords: seq<string>)
  {
    AnyIn(Strip(Lower(header)), keywords)
  }

  /** The first header that mentions one of the keywords. */
  function FirstMention(headers: seq<string>, keywords: seq<string>): (r: Option<nat>)
    ensures r.Some? ==> r.value < |headers| && Mentions(headers[r.value], keywords)
                        && forall j :: 0 <= j < r.value ==> !Mentions(headers[j], keywords)
    ensures r.None? ==> forall j :: 0 <= j < |headers| ==> !Mentions(headers[j], keywords)
  {
    if headers == [] then None
    else if Mentions(headers[0], keywords) then Some(0)
    else match FirstMention(headers[1..], keywords)
      case Some(i) => Some(i + 1)
      case None => None
  }

  /** A header that mentions the keywords after none before it did is the first mention. */
  lemma FirstMentionAt(headers: seq<string>, keywords: seq<string>, i: nat)
    requires i < |headers| && Mentions(headers[i], keywords)
    requires forall j :: 0 <= j < i ==> !Mentions(headers[j], keywords)
    ensures FirstMention(headers, keywords) == Some(i)
  {
  }

  /** The result of `detect_columns`: a field without a matching header is absent (None). */
  datatype Detected = Detected(date: Option<nat>, quantity: Option<nat>, unitPrice: Option<nat>, note: Option<nat>)

  /** One `for i, h in enumerate(headers_lower): if ...: column_mapping[field] = i; break` loop. */
  method FindColumn(headers: seq<string>, keywords: seq<string>) returns (index: Option<nat>)
    ensures index == FirstMention(headers, keywords)
  {
    var i := 0;
    while i < |headers|
      invariant 0 <= i <= |headers|
      invariant forall j :: 0 <= j < i ==> !Mentions(headers[j], keywords)
    {
      if Mentions(headers[i], keywords) {
        FirstMentionAt(headers, keywords, i);
        return Some(i);
      }
      i := i + 1;
    }
    return None;
  }

  /** `detect_columns`: each field is looked up on its own, so one header may serve several fields. */
  method DetectColumns(headers: seq<string>) returns (d: Detected)
    ensures d == Detected(FirstMention(headers, Keywords(DateField)), FirstMention(headers, Keywords(QuantityField)),
                          FirstMention(headers, Keywords(PriceField)), FirstMention(headers, Keywords(NoteField)))
  {
    var date := FindColumn(headers, Keywords(DateField));
    var quantity := FindColumn(headers, Keywords(QuantityField));
    var price := FindColumn(headers, Keywords(PriceField));
    var note := FindColumn(headers, Keywords(NoteField));
    d := Detected(date, quantity, price, note);
  }

  /** A header "date/qty" is found for both the date and the quantity: the fields are detected
      independently, so one column may serve two of them. */
  lemma SharedHeader()
    ensures FirstMention(["date/qty"], Keywords(DateField)) == Some(0)
    ensures FirstMention(["date/qty"], Keywords(QuantityField)) == Some(0)
  {
    SharedHeaderNormal();
    DateKeywordFound();
    QtyKeywordFound();
  }

  lemma SharedHeaderNormal()
    ensures Strip(Lower("date/qty")) == "date/qty"
  {
    var h := "date/qty";
    LowerNoUpper(h);
    assert !IsSpace(h[0]) && !IsSpace(h[|h| - 1]);
    StripNoEdgeSpace(h);
  }

  /** Header matching ignores letter case. */
  lemma MentionsIgnoresCase(header: string, keywords: seq<string>)
    ensures Mentions(Lower(header), keywords) == Mentions(header, keywords)
  {
    LowerIdempotent(header);
  }

  lemma DateKeywordFound()
    ensures AnyIn("date/qty", Keywords(DateField))
  {
    var k := Keywords(DateField);
    assert k[1..][0] == "date" && "date" <= "date/qty";
    assert AnyIn("date/qty", k[1..]);
  }

  lemma QtyKeywordFound()
    ensures AnyIn("date/qty", Keywords(QuantityField))
  {
    var t := "date/qty";
    assert t[1..][1..][1..][1..][1..] == "qty" && "qty" <= "qty";
    assert Contains(t[1..][1..][1..][1..], "qty");
    assert Contains(t[1..][1..][1..], "qty");
    assert Contains(t[1..][1..], "qty");
    assert Contains(t, "qty");
    var q := Keywords(QuantityField);
    assert q[5..][0] == "qty";
    assert AnyIn(t, q[5..]);
    assert q[4..][1..] == q[5..] && q[3..][1..] == q[4..] && q[2..][1..] == q[3..] && q[1..][1..] == q[2..];
  }

  // ---------------------------------------------------------------- rows

  /** The column of each field once the missing required ones have been chosen by hand. */
  datatype Columns = Columns(date: nat, quantity: nat, unitPrice: nat, note: Option<nat>)

  /** `max(column_mapping.values())`. */
  function MaxColumn(c: Columns): (n: nat)
    ensures c.date <= n && c.quantity <= n && c.unitPrice <= n && (c.note.Some? ==> c.note.value <= n)
    ensures n == c.date || n == c.quantity || n == c.unitPrice || (c.note.Some? && n == c.note.value)
  {
    var m := if c.date >= c.quantity then c.date else c.quantity;
    var m2 := if m >= c.unitPrice then m else c.unitPrice;
    match c.note
    case Some(k) => if k > m2 then k else m2
    case None => m2
  }

  datatype Reason = TooFewColumns | UnreadableDate(text: string) | BadQuantity(quantity: real) | BadPrice(unitPrice: real)

  /** The checks of one row, in the order the importer applies them. */
  function CheckRow(row: seq<string>, c: Columns): Verdict<Reason>
  {
    if |row| <= MaxColumn(c) then Reject(TooFewColumns)
    else match ParseDate(row[c.date])
      case None => Reject(UnreadableDate(row[c.date]))
      case Some(date) =>
        var q, p := ParseNumber(row[c.quantity]), ParseNumber(row[c.unitPrice]);
        if q <= 0.0 then Reject(BadQuantity(q))
        else if p <= 0.0 then Reject(BadPrice(p))
        else Accept(Imported(date, Trunc(q), p, Total(q, p), NoteOf(row, c)))
  }

  /** The optional note: the stripped cell when the note column is known and the cell is non-empty. */
  function NoteOf(row: seq<string>, c: Columns): string
    requires |row| > MaxColumn(c)
  {
    match c.note
    case Some(k) => if row[k] != [] then Strip(row[k]) else []
    case None => []
  }

  /** A row is accepted exactly when it has enough cells, a readable date, and a quantity and a price above 0. */
  lemma CheckRowAccepts(row: seq<string>, c: Columns)
    ensures CheckRow(row, c).Accept? <==>
      |row| > MaxColumn(c) && ParseDate(row[c.date]).Some?
      && ParseNumber(row[c.quantity]) > 0.0 && ParseNumber(row[c.unitPrice]) > 0.0
  {
  }

  /** The first failing check names the rejection: a short row is never inspected further. */
  lemma CheckRowReasons(row: seq<string>, c: Columns)
    ensures |row| <= MaxColumn(c) ==> CheckRow(row, c) == Reject(TooFewColumns)
    ensures |row| > MaxColumn(c) && ParseDate(row[c.date]).None? ==>
      CheckRow(row, c) == Reject(UnreadableDate(row[c.date]))
    ensures |row| > MaxColumn(c) && ParseDate(row[c.date]).Some? && ParseNumber(row[c.quantity]) <= 0.0 ==>
      CheckRow(row, c) == Reject(BadQuantity(ParseNumber(row[c.quantity])))
  {
  }

  /** An accepted row carries the ISO date, `int(quantity)`, the price, and the total from the quantity as
      read: a quantity of 0.5 is stored as 0 with a non-zero total. */
  lemma AcceptedRecord(row: seq<string>, c: Columns)
    requires CheckRow(row, c).Accept?
    ensures var r, q, p := CheckRow(row, c).record, ParseNumber(row[c.quantity]), ParseNumber(row[c.unitPrice]);
      IsIsoDate(r.date) && r.date == ParseDate(row[c.date]).value
      && r.quantity == Trunc(q) && r.quantity >= 0 && r.quantity as real <= q < r.quantity as real + 1.0
      && r.unitPrice == p && r.totalAmount == Total(q, p) && r.totalAmount > 0.0
  {
    var q, p := ParseNumber(row[c.quantity]), ParseNumber(row[c.unitPrice]);
    var date := ParseDate(row[c.date]).value;
    assert CheckRow(row, c) == Accept(Imported(date, Trunc(q), p, Total(q, p), NoteOf(row, c)));
    FormatIsoIsIsoDate(ReadDate(row[c.date]).value);
    ProductPositive(q, p);
  }

  lemma ProductPositive(q: real, p: real)
    requires q > 0.0 && p > 0.0
    ensures Total(q, p) > 0.0
  {
  }

  /** The row check of `import_data` for the chosen columns. */
  function Checker(c: Columns): seq<string> -> Verdict<Reason>
  {
    (row: seq<string>) => CheckRow(row, c)
  }

  /** `import_data` with a ledger: the accepted rows are numbered from `len(records) + 1` and appended, and
      the ledger is saved only when something was imported. */
  method ImportData(tool: AccountingTool, rows: seq<seq<string>>, c: Columns, clock: Clock)
    returns (imported: seq<Imported>, failed: seq<Failure<Reason>>)
    modifies tool
    ensures imported == ImportedOf(rows, Checker(c)) && failed == FailuresOf(rows, Checker(c))
    ensures imported != [] ==>
      tool.records == old(tool.records) + WithIds(|old(tool.records)| + 1, imported, clock) && tool.persisted == tool.records
    ensures imported == [] ==> tool.records == old(tool.records) && tool.persisted == old(tool.persisted)
  {
    imported, failed := JudgeRows(rows, Checker(c));
    if imported != [] {
      tool.AppendImported(imported, clock);
    }
  }

  /** `merge_imported_data` on the two files' contents: the imported records are numbered after the
      existing ones and added at the end. */
  method MergeImported(existing: seq<Record>, imported: seq<Imported>, clock: Clock) returns (merged: seq<Record>)
    ensures merged == existing + WithIds(|existing| + 1, imported, clock)
    ensures Numbered(existing) ==> Numbered(merged)
  {
    var numbered: seq<Record> := [];
    var i := 0;
    while i < |imported|
      invariant 0 <= i <= |imported|
      invariant numbered == WithIds(|existing| + 1, imported[..i], clock)
    {
      assert imported[..i + 1][..i] == imported[..i];
      numbered := numbered + [FromImported(imported[i], |existing| + 1 + i, clock(i))];
      i := i + 1;
    }
    assert imported[..i] == imported;
    merged := existing + numbered;
    if Numbered(existing) {
      ImportKeepsNumbering(existing, imported, clock);
    }
  }
}
