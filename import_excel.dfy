/** The pandas-based importer: cell-typed date and number parsing, priority-based column detection in
    which the last matching column wins, and the row loop that appends contiguous ids to the ledger. */
module ImportExcel {
  import opened Util
  import opened Strings
  import opened Dates
  import opened Records
  import opened Accounting
  import opened Importing
  import ImportCsv

  /** A calendar date that `datetime` can represent. */
  type CalendarDate = d: Date | ValidDate(d) witness Date(1900, 1, 1)

  /** A DataFrame cell, by the Python type pandas gives it. `shown` is the cell's `str()`. */
  datatype Cell =
    | Missing                                 // NaN or None: `pd.isna` holds
    | Number(value: real, shown: string)      // int or float
    | Text(text: string)                      // str
    | Stamp(date: CalendarDate, shown: string) // pandas Timestamp or datetime
    | Other(shown: string)                    // any other object

  /** `str(cell)` for a cell that is not missing. */
  function Shown(v: Cell): string
    requires !v.Missing?
  {
    match v
    case Number(_, s) => s
    case Text(t) => t
    case Stamp(_, s) => s
    case Other(s) => s
  }

  // ---------------------------------------------------------------- cells

  /** `parse_date`: a text cell is tried against the import formats after stripping, then read as a
      spreadsheet serial number `int(float(text))` with no range check; a Timestamp or datetime is
      formatted directly; every other cell, a numeric one included, gives None. */
  function ParseCellDate(v: Cell): (r: Option<string>)
    ensures r.Some? ==> IsIsoDate(r.value)
  {
    match v
    case Text(s) =>
      (match FirstFormat(Strip(s), ImportFormats)
       case Some(d) => FormatIsoIsIsoDate(d); Some(FormatIso(d))
       case None => SerialCell(s))
    case Stamp(d, _) => FormatIsoIsIsoDate(d); Some(FormatIso(d))
    case _ => None
  }

  /** `datetime(1899, 12, 30) + timedelta(days=int(float(s)))`, None when `float` fails or the date leaves
      the years 1..9999. */
  function SerialCell(s: string): (r: Option<string>)
    ensures r.Some? ==> IsIsoDate(r.value)
  {
    match ParseDecimal(s)
    case Some(x) =>
      (match SerialDate(Trunc(x))
       case Some(d) => FormatIsoIsIsoDate(d); Some(FormatIso(d))
       case None => None)
    case None => None
  }

  /** `parse_number`: missing cells and unusable values are 0.0; text is read after the currency marks,
      commas and spaces are removed. */
  function CellNumber(v: Cell): (x: real)
    ensures v.Number? ==> x == v.value
    ensures v.Missing? || v.Stamp? || v.Other? ==> x == 0.0
  {
    match v
    case Number(x, _) => x
    case Text(s) =>
      (match ParseDecimal(Strip(Unmarked(s)))
       case Some(x) => x
       case None => 0.0)
    case _ => 0.0
  }

  /** On text the two importers read numbers alike. */
  lemma TextNumberAsCsv(s: string)
    ensures CellNumber(Text(s)) == ImportCsv.ParseNumber(s)
  {
    if s == [] {
      assert Unmarked(s) == [];
      assert Strip([]) == [];
    }
  }

  lemma ParseDecimalStripped(s: string)
    ensures ParseDecimal(Strip(s)) == ParseDecimal(s)
  {
    StripIdempotent(s);
  }

  /** Every text the CSV importer reads as a date is read the same way here. */
  lemma TextDateExtendsCsv(s: string)
    requires ImportCsv.ParseDate(s).Some?
    ensures ParseCellDate(Text(s)) == ImportCsv.ParseDate(s)
  {
    var t := Strip(s);
    if FirstFormat(t, ImportFormats).None? {
      ParseDecimalStripped(s);
    }
  }

  /** The serial fallback has no range check: any serial whose date exists is accepted, where the CSV
      importer accepts only 1..50000. */
  lemma SerialWithoutRange(s: string)
    requires FirstFormat(Strip(s), ImportFormats).None?
    requires ParseDecimal(s).Some? && SerialDate(Trunc(ParseDecimal(s).value)).Some?
    ensures ParseCellDate(Text(s)) == Some(FormatIso(SerialDate(Trunc(ParseDecimal(s).value)).value))
  {
  }

  /** A numeric cell is never read as a date, even when it holds a serial number. */
  lemma NumberIsNoDate(x: real, shown: string)
    ensures ParseCellDate(Number(x, shown)) == None
  {
  }

  // ---------------------------------------------------------------- columns

  datatype Field = DateField | QuantityField | PriceField | NoteField | TotalField

  /** The column-name patterns of each field. */
  function Patterns(f: Field): seq<string>
  {
    match f
    case DateField => ["日期", "date", "时间", "Date", "TIME", "Date"]
    case QuantityField => ["数量", "quantity", "套数", "件数", "Quantity", "qty", "Qty", "套"]
    case PriceField => ["单价", "price", "unit_price", "Price", "单价(元)", "价格"]
    case NoteField => ["备注", "note", "说明", "描述", "Note", "notes", "Notes", "客户"]
    case TotalField => ["总金额", "total", "金额", "Total", "总价", "合计", "total_amount"]
  }

  /** `any(pattern.lower() in col_lower for pattern in patterns)`. */
  predicate AnyPattern(colLower: string, patterns: seq<string>)
  {
    patterns != [] && (Contains(colLower, Lower(patterns[0])) || AnyPattern(colLower, patterns[1..]))
  }

  /** One pattern found in the column name is enough. */
  lemma {:induction false} AnyPatternAt(colLower: string, patterns: seq<string>, k: nat)
    requires k < |patterns| && Contains(colLower, Lower(patterns[k]))
    ensures AnyPattern(colLower, patterns)
  {
    if k > 0 {
      AnyPatternAt(colLower, patterns[1..], k - 1);
    }
  }

  /** The column name, lower-cased, contains one of the field's patterns, lower-cased. */
  predicate Matches(col: string, f: Field)
  {
    AnyPattern(Lower(col), Patterns(f))
  }

  /** The `if/elif` chain over the fields in the order date, quantity, unit price, note, total. */
  function FirstMatch(matches: Field -> bool): Option<Field>
  {
    if matches(DateField) then Some(DateField)
    else if matches(QuantityField) then Some(QuantityField)
    else if matches(PriceField) then Some(PriceField)
    else if matches(NoteField) then Some(NoteField)
    else if matches(TotalField) then Some(TotalField)
    else None
  }

  /** The field a column is assigned to, if any. */
  function Classify(col: string): Option<Field>
  {
    FirstMatch((f: Field) => Matches(col, f))
  }

  /** `g` is checked before `f` in the chain. */
  predicate Before(g: Field, f: Field)
  {
    Rank(g) < Rank(f)
  }

  function Rank(f: Field): nat
  {
    match f
    case DateField => 0
    case QuantityField => 1
    case PriceField => 2
    case NoteField => 3
    case TotalField => 4
  }

  /** The priority of the chain: a column is given to a field exactly when it matches that field and none
      of the fields checked before it, and to no field when it matches none. */
  lemma FirstMatchPriority(matches: Field -> bool, f: Field)
    ensures FirstMatch(matches) == Some(f) <==> matches(f) && forall g :: Before(g, f) ==> !matches(g)
    ensures FirstMatch(matches).None? <==> forall g :: !matches(g)
  {
    forall g | FirstMatch(matches).None?
      ensures !matches(g)
    {
      match g {
        case DateField =>
        case QuantityField =>
        case PriceField =>
        case NoteField =>
        case TotalField =>
      }
    }
  }

  /** The position of the last element `tag` gives `f`. */
  function LastLabelled<T, F(==)>(xs: seq<T>, tag: T -> Option<F>, f: F): (r: Option<nat>)
    ensures r.Some? ==> r.value < |xs| && tag(xs[r.value]) == Some(f)
                        && forall j :: r.value < j < |xs| ==> tag(xs[j]) != Some(f)
    ensures r.None? ==> forall j :: 0 <= j < |xs| ==> tag(xs[j]) != Some(f)
  {
    if xs == [] then None
    else if tag(xs[|xs| - 1]) == Some(f) then Some(|xs| - 1)
    else LastLabelled(xs[..|xs| - 1], tag, f)
  }

  /** Conversely, the last element tagged `f` is the one found. */
  lemma LastLabelledAt<T, F>(xs: seq<T>, tag: T -> Option<F>, f: F, i: nat)
    requires i < |xs| && tag(xs[i]) == Some(f)
    requires forall j :: i < j < |xs| ==> tag(xs[j]) != Some(f)
    ensures LastLabelled(xs, tag, f) == Some(i)
  {
  }

  lemma LastLabelledSnoc<T, F>(xs: seq<T>, tag: T -> Option<F>, i: nat, f: F)
    requires i < |xs|
    ensures LastLabelled(xs[..i + 1], tag, f) == if tag(xs[i]) == Some(f) then Some(i) else LastLabelled(xs[..i], tag, f)
  {
    assert xs[..i + 1][..i] == xs[..i];
  }

  /** `mapping` holds, for each tag, the position of the last element carrying it. */
  ghost predicate Positions<T, F(!new)>(mapping: map<F, nat>, xs: seq<T>, tag: T -> Option<F>)
  {
    forall f :: (f in mapping <==> LastLabelled(xs, tag, f).Some?)
                && (f in mapping ==> mapping[f] == LastLabelled(xs, tag, f).value)
  }

  /** Recording the next element's tag keeps the positions up to date. */
  lemma PositionsStep<T, F(!new)>(mapping: map<F, nat>, xs: seq<T>, tag: T -> Option<F>, i: nat)
    requires i < |xs| && Positions(mapping, xs[..i], tag)
    ensures Positions(if tag(xs[i]).Some? then mapping[tag(xs[i]).value := i] else mapping, xs[..i + 1], tag)
  {
    forall f
      ensures LastLabelled(xs[..i + 1], tag, f) == if tag(xs[i]) == Some(f) then Some(i) else LastLabelled(xs[..i], tag, f)
    {
      LastLabelledSnoc(xs, tag, i, f);
    }
  }

  /** The loop that records, for each tag, the position of each element carrying it: a later position
      overwrites an earlier one. */
  method LabelPositions<T, F(==,!new)>(xs: seq<T>, tag: T -> Option<F>) returns (mapping: map<F, nat>)
    ensures forall f :: f in mapping <==> LastLabelled(xs, tag, f).Some?
    ensures forall f :: f in mapping ==> mapping[f] == LastLabelled(xs, tag, f).value
  {
    mapping := map[];
    var i := 0;
    while i < |xs|
      invariant 0 <= i <= |xs|
      invariant Positions(mapping, xs[..i], tag)
    {
      var c := tag(xs[i]);
      PositionsStep(mapping, xs, tag, i);
      if c.Some? {
        mapping := mapping[c.value := i];
      }
      i := i + 1;
    }
    assert xs[..i] == xs;
  }

  /** The column a field ends up with: each match overwrites the previous one, so the last column
      classified as that field. */
  function LastOf(cols: seq<string>, f: Field): Option<nat>
  {
    LastLabelled(cols, Classify, f)
  }

  /** `detect_columns`, with each field mapped to the position of its column. A field no column matched
      is absent; two fields never share a column. */
  method DetectColumns(cols: seq<string>) returns (mapping: map<Field, nat>)
    ensures forall f :: f in mapping <==> LastOf(cols, f).Some?
    ensures forall f :: f in mapping ==> mapping[f] == LastOf(cols, f).value
    ensures forall f, g :: f in mapping && g in mapping && f != g ==> mapping[f] != mapping[g]
  {
    mapping := LabelPositions(cols, Classify);
  }

  /** A column whose lower-cased name starts with "date" is a date column, whatever else it names:
      "Date/Qty" is taken for the date only, since the elif chain stops at the first match, where the
      CSV importer would use such a column for both fields. */
  lemma DateNamedColumn(col: string)
    requires "date" <= Lower(col)
    ensures Classify(col) == Some(DateField)
  {
    assert Matches(col, DateField) by {
      assert Lower("date") == "date" by {
        LowerNoUpper("date");
      }
      AnyPatternAt(Lower(col), Patterns(DateField), 1);
    }
  }

  /** The required fields detection did not find, in the order the prompts ask for them. */
  function Unmapped(mapping: map<Field, nat>): (r: seq<Field>)
    ensures forall f :: f in r <==> (f == DateField || f == QuantityField || f == PriceField) && f !in mapping
  {
    FilterMembers([DateField, QuantityField, PriceField], (f: Field) => f !in mapping);
    Filter([DateField, QuantityField, PriceField], (f: Field) => f !in mapping)
  }

  // ---------------------------------------------------------------- rows

  /** The cell of a column. pandas pads a short row with NaN, so a position past its end is missing. */
  function CellAt(row: seq<Cell>, k: nat): Cell
  {
    if k < |row| then row[k] else Missing
  }

  datatype Reason = BadDate(value: Cell) | BadNumbers(quantity: real, unitPrice: real)

  /** The checks of one row: the date first, then quantity and unit price together. */
  function CheckCells(row: seq<Cell>, c: ImportCsv.Columns): Verdict<Reason>
  {
    match ParseCellDate(CellAt(row, c.date))
    case None => Reject(BadDate(CellAt(row, c.date)))
    case Some(date) =>
      var q, p := CellNumber(CellAt(row, c.quantity)), CellNumber(CellAt(row, c.unitPrice));
      if q <= 0.0 || p <= 0.0 then Reject(BadNumbers(q, p))
      else Accept(Imported(date, Trunc(q), p, Total(q, p), NoteCell(row, c)))
  }

  /** The optional note: `str(value).strip()` of a note cell that is not missing, else "". */
  function NoteCell(row: seq<Cell>, c: ImportCsv.Columns): string
  {
    match c.note
    case None => []
    case Some(k) => if CellAt(row, k).Missing? then [] else Strip(Shown(CellAt(row, k)))
  }

  /** A row is accepted exactly when its date cell is read and both numbers are above 0. */
  lemma CheckCellsAccepts(row: seq<Cell>, c: ImportCsv.Columns)
    ensures CheckCells(row, c).Accept? <==>
      ParseCellDate(CellAt(row, c.date)).Some?
      && CellNumber(CellAt(row, c.quantity)) > 0.0 && CellNumber(CellAt(row, c.unitPrice)) > 0.0
  {
  }

  /** A rejected row names the check that failed and the values it saw. */
  lemma CheckCellsReasons(row: seq<Cell>, c: ImportCsv.Columns)
    ensures ParseCellDate(CellAt(row, c.date)).None? ==> CheckCells(row, c) == Reject(BadDate(CellAt(row, c.date)))
    ensures ParseCellDate(CellAt(row, c.date)).Some? && !CheckCells(row, c).Accept? ==>
      CheckCells(row, c) == Reject(BadNumbers(CellNumber(CellAt(row, c.quantity)), CellNumber(CellAt(row, c.unitPrice))))
  {
  }

  /** An accepted row carries an ISO date, `int(quantity)`, the price and the untruncated total. */
  lemma AcceptedCells(row: seq<Cell>, c: ImportCsv.Columns)
    requires CheckCells(row, c).Accept?
    ensures var r, q, p := CheckCells(row, c).record, CellNumber(CellAt(row, c.quantity)), CellNumber(CellAt(row, c.unitPrice));
      IsIsoDate(r.date) && r.date == ParseCellDate(CellAt(row, c.date)).value
      && r.quantity == Trunc(q) && r.quantity >= 0 && r.unitPrice == p && r.totalAmount == Total(q, p)
      && r.totalAmount > 0.0 && r.note == NoteCell(row, c)
  {
    var q, p := CellNumber(CellAt(row, c.quantity)), CellNumber(CellAt(row, c.unitPrice));
    var date := ParseCellDate(CellAt(row, c.date)).value;
    assert CheckCells(row, c) == Accept(Imported(date, Trunc(q), p, Total(q, p), NoteCell(row, c)));
    ImportCsv.ProductPositive(q, p);
  }

  function CellChecker(c: ImportCsv.Columns): seq<Cell> -> Verdict<Reason>
  {
    (row: seq<Cell>) => CheckCells(row, c)
  }

  // ---------------------------------------------------------------- import_from_excel

  /** The returned dictionary. `records` are the accepted rows: numbered from `len(records) + 1` when
      they went into the ledger (the dictionaries are the same objects), still with id 0 otherwise. */
  datatype Outcome = Cancelled | Completed(records: seq<Record>, failed: seq<Failure<Reason>>, appended: bool)

  /** The accepted rows as built by the loop, before any id is given. */
  function Unnumbered(xs: seq<Imported>, clock: Clock): (r: seq<Record>)
    ensures |r| == |xs| && forall i :: 0 <= i < |xs| ==> r[i] == FromImported(xs[i], 0, clock(i))
  {
    seq(|xs|, i requires 0 <= i < |xs| => FromImported(xs[i], 0, clock(i)))
  }

  /** The picked columns cover every required field detection missed, and are in range. */
  predicate Covers(cols: seq<string>, picked: map<Field, nat>)
  {
    (forall f :: f in picked ==> picked[f] < |cols|)
    && (LastOf(cols, DateField).None? ==> DateField in picked)
    && (LastOf(cols, QuantityField).None? ==> QuantityField in picked)
    && (LastOf(cols, PriceField).None? ==> PriceField in picked)
  }

  /** The columns the import uses: the detected one for each field, or for a required field detection
      missed, the one picked at the prompt; the note stays optional. */
  function Resolved(cols: seq<string>, picked: map<Field, nat>): (c: ImportCsv.Columns)
    requires Covers(cols, picked)
  {
    ImportCsv.Columns(
      if LastOf(cols, DateField).Some? then LastOf(cols, DateField).value else picked[DateField],
      if LastOf(cols, QuantityField).Some? then LastOf(cols, QuantityField).value else picked[QuantityField],
      if LastOf(cols, PriceField).Some? then LastOf(cols, PriceField).value else picked[PriceField],
      LastOf(cols, NoteField))
  }

  /** The prompt loop `for col_name in missing_cols: column_mapping[col_name] = ...`. */
  method FillMissing<F(==)>(mapping: map<F, nat>, missing: seq<F>, picked: map<F, nat>) returns (m: map<F, nat>)
    requires forall f :: f in missing ==> f in picked
    ensures forall f :: f in m <==> f in mapping || f in missing
    ensures forall f :: f in m && f !in missing ==> m[f] == mapping[f]
    ensures forall f :: f in missing ==> m[f] == picked[f]
  {
    m := mapping;
    var k := 0;
    while k < |missing|
      invariant 0 <= k <= |missing|
      invariant forall f :: f in m <==> f in mapping || f in missing[..k]
      invariant forall f :: f in m && f !in missing[..k] ==> m[f] == mapping[f]
      invariant forall f :: f in missing[..k] ==> m[f] == picked[f]
    {
      assert missing[..k + 1] == missing[..k] + [missing[k]];
      m := m[missing[k] := picked[missing[k]]];
      k := k + 1;
    }
    assert missing[..k] == missing;
  }

  /** Detection followed by the prompts for the required fields it missed. */
  method ResolveColumns(cols: seq<string>, picked: map<Field, nat>) returns (c: ImportCsv.Columns)
    requires Covers(cols, picked)
    ensures c == Resolved(cols, picked)
  {
    var mapping := DetectColumns(cols);
    var missing := Unmapped(mapping);
    var m := FillMissing(mapping, missing, picked);
    c := ImportCsv.Columns(m[DateField], m[QuantityField], m[PriceField],
                           if NoteField in mapping then Some(mapping[NoteField]) else None);
  }

  /** `import_from_excel` after the file is read: `cols` are the column names, `picked` stands for the
      column numbers typed at the prompts and `answer` for the confirmation typed at the last one. The
      records go into the ledger only when there is a ledger and something was accepted. */
  method ImportFromExcel(tool: AccountingTool?, cols: seq<string>, rows: seq<seq<Cell>>,
                         picked: map<Field, nat>, answer: string, clock: Clock) returns (outcome: Outcome)
    requires Covers(cols, picked)
    modifies tool
    ensures Lower(Strip(answer)) != "y" <==> outcome == Cancelled
    ensures tool != null && !(outcome.Completed? && outcome.appended) ==>
      tool.records == old(tool.records) && tool.persisted == old(tool.persisted)
    ensures outcome.Completed? ==>
      var imported := ImportedOf(rows, CellChecker(Resolved(cols, picked)));
      outcome.failed == FailuresOf(rows, CellChecker(Resolved(cols, picked)))
      && outcome.appended == (tool != null && imported != [])
      && (outcome.appended ==>
            outcome.records == WithIds(|old(tool.records)| + 1, imported, clock)
            && tool.records == old(tool.records) + outcome.records && tool.persisted == tool.records)
      && (!outcome.appended ==> outcome.records == Unnumbered(imported, clock))
  {
    var c := ResolveColumns(cols, picked);
    if Lower(Strip(answer)) != "y" {
      return Cancelled;
    }
    var imported, failed := JudgeRows(rows, CellChecker(c));
    if tool != null && imported != [] {
      var start := |tool.records| + 1;
      tool.AppendImported(imported, clock);
      outcome := Completed(WithIds(start, imported, clock), failed, true);
    } else {
      outcome := Completed(Unnumbered(imported, clock), failed, false);
    }
  }
}
