/** The command-line ledger `AccountingTool`: single-line records with a strictly checked date, queries by
    date and range, daily and monthly totals, and deletion without renumbering. */
module Accounting {
  import opened Util
  import opened Strings
  import opened Sorting
  import opened Dates
  import opened Records
  import opened Stats

  datatype AddResult = Added(record: Record) | BadDateFormat

  /** The daily summary: record count and signed totals, with the average guarded against a quantity <= 0. */
  datatype DailyTotals = DailyTotals(count: nat, totalQuantity: int, totalAmount: real, avgPrice: real)

  datatype MonthTotals = MonthTotals(count: nat, totalQuantity: int, totalAmount: real)

  function DailyTotalsOf(rs: seq<Record>): (s: DailyTotals)
    ensures s.count == |rs|
    ensures s.totalQuantity > 0 ==> s.avgPrice * s.totalQuantity as real == s.totalAmount
    ensures s.totalQuantity <= 0 ==> s.avgPrice == 0.0
    ensures rs == [] ==> s == DailyTotals(0, 0, 0.0, 0.0)
  {
    var q := SumQuantity(rs);
    var a := SumAmount(rs);
    DailyTotals(|rs|, q, a, if q > 0 then a / q as real else 0.0)
  }

  /** `datetime.strptime(r["date"], ...)` lies between the two bounds, both included. */
  predicate InDateRange(r: Record, lo: Date, hi: Date)
  {
    var d := Strptime(r.date, IsoFormat);
    d.Some? && NotAfter(lo, d.value) && NotAfter(d.value, hi)
  }

  function InRange(lo: Date, hi: Date): Record -> bool
  {
    (r: Record) => InDateRange(r, lo, hi)
  }

  lemma NotInReversedRange(r: Record, lo: Date, hi: Date)
    requires Before(hi, lo)
    ensures !InDateRange(r, lo, hi)
  {
  }

  /** `map(int, year_month.split('-'))` unpacked into exactly two integers. */
  predicate IsYearMonth(ym: string)
  {
    var parts := Split(ym, '-');
    |parts| == 2 && ParseInt(parts[0]).Some? && ParseInt(parts[1]).Some?
  }

  /** `self.records` with the first record carrying `id` removed (the list unchanged if there is none). */
  function RemoveFirst(rs: seq<Record>, id: int): (r: seq<Record>)
    ensures FindById(rs, id).None? ==> r == rs
    ensures FindById(rs, id).Some? ==> |r| == |rs| - 1
  {
    match FindById(rs, id)
    case Some(k) => rs[..k] + rs[k + 1..]
    case None => rs
  }

  /** Deletion keeps every surviving record as it was, id included: the ids are not renumbered. */
  lemma RemoveFirstKeepsOthers(rs: seq<Record>, id: int)
    requires FindById(rs, id).Some?
    ensures var k := FindById(rs, id).value;
      forall j :: 0 <= j < |rs| - 1 ==> RemoveFirst(rs, id)[j] == (if j < k then rs[j] else rs[j + 1])
    ensures multiset(RemoveFirst(rs, id)) == multiset(rs) - multiset{rs[FindById(rs, id).value]}
  {
    var k := FindById(rs, id).value;
    assert rs == rs[..k] + [rs[k]] + rs[k + 1..];
  }

  /** The ids need not stay contiguous: deleting id 1 from records 1 and 2 leaves a single record with id 2. */
  lemma DeleteLeavesGap(a: Record, b: Record)
    requires a.id == 1 && b.id == 2
    ensures RemoveFirst([a, b], 1) == [b] && RemoveFirst([a, b], 1)[0].id == 2
  {
  }

  class AccountingTool {
    var records: seq<Record>
    /** The contents of the records file as last written. */
    ghost var persisted: seq<Record>

    constructor(loaded: seq<Record>)
      ensures records == loaded && persisted == loaded
    {
      records := loaded;
      persisted := loaded;
    }

    /** `add_record`: the date must pass `strptime("%Y-%m-%d")`; quantity and price are taken as given. */
    method AddRecord(date: string, quantity: int, unitPrice: real, note: string, now: string) returns (result: AddResult)
      modifies this
      ensures !IsIsoDate(date) ==> result == BadDateFormat && records == old(records) && persisted == old(persisted)
      ensures IsIsoDate(date) ==>
        result == Added(Record(|old(records)| + 1, date, quantity, unitPrice, quantity as real * unitPrice, note,
                               None, [], None, now))
        && records == old(records) + [result.record] && persisted == records
    {
      if !IsIsoDate(date) {
        return BadDateFormat;
      }
      var r := Record(|records| + 1, date, quantity, unitPrice, quantity as real * unitPrice, note, None, [], None, now);
      records := records + [r];
      persisted := records;
      return Added(r);
    }

    /** `query_by_date`: the records with exactly this date string, in store order. */
    function QueryByDate(date: string): (r: seq<Record>)
      reads this
      ensures forall x :: x in r <==> x in records && x.date == date
      ensures forall x :: multiset(r)[x] == if x.date == date then multiset(records)[x] else 0
      ensures IsSubsequence(r, records)
    {
      OnDate(records, date)
    }

    /** `query_by_date_range`. Unparsable bounds give []; a stored date that does not parse raises (None). */
    function QueryByDateRange(start: string, end: string): (r: Option<seq<Record>>)
      reads this
      ensures !IsIsoDate(start) || !IsIsoDate(end) ==> r == Some([])
      ensures r.None? <==> IsIsoDate(start) && IsIsoDate(end)
                           && exists k :: 0 <= k < |records| && !IsIsoDate(records[k].date)
      ensures r.Some? && IsIsoDate(start) && IsIsoDate(end) ==>
        var lo, hi := Strptime(start, IsoFormat).value, Strptime(end, IsoFormat).value;
        IsSubsequence(r.value, records) && (forall x :: x in r.value <==> x in records && InDateRange(x, lo, hi))
        && forall x :: multiset(r.value)[x] == if InDateRange(x, lo, hi) then multiset(records)[x] else 0
    {
      match (Strptime(start, IsoFormat), Strptime(end, IsoFormat))
      case (Some(lo), Some(hi)) =>
        if forall k :: 0 <= k < |records| ==> IsIsoDate(records[k].date) then
          FilterExact(records, InRange(lo, hi));
          Some(Filter(records, InRange(lo, hi)))
        else None
      case _ => Some([])
    }

    /** A range whose start lies after its end selects nothing. */
    lemma ReversedRangeIsEmpty(start: string, end: string)
      requires IsIsoDate(start) && IsIsoDate(end)
      requires Before(Strptime(end, IsoFormat).value, Strptime(start, IsoFormat).value)
      ensures QueryByDateRange(start, end).Some? ==> QueryByDateRange(start, end).value == []
    {
      var r := QueryByDateRange(start, end);
      if r.Some? && r.value != [] {
        NotInReversedRange(r.value[0], Strptime(start, IsoFormat).value, Strptime(end, IsoFormat).value);
        assert false;
      }
    }

    /** `get_daily_summary`. */
    function DailySummary(date: string): (s: DailyTotals)
      reads this
      ensures s.count == |QueryByDate(date)|
      ensures QueryByDate(date) == [] ==> s == DailyTotals(0, 0, 0.0, 0.0)
      ensures s.totalQuantity == SumQuantity(QueryByDate(date)) && s.totalAmount == SumAmount(QueryByDate(date))
    {
      DailyTotalsOf(OnDate(records, date))
    }

    /** `get_monthly_summary`: an argument that is not two '-'-separated integers is an error (None);
        otherwise the totals of the records whose date string starts with it. */
    function MonthlySummary(yearMonth: string): (s: Option<MonthTotals>)
      reads this
      ensures s.None? <==> !IsYearMonth(yearMonth)
      ensures s.Some? ==>
        var month := WithDatePrefix(records, yearMonth);
        s.value == MonthTotals(|month|, SumQuantity(month), SumAmount(month))
    {
      if !IsYearMonth(yearMonth) then None
      else
        var month := WithDatePrefix(records, yearMonth);
        Some(MonthTotals(|month|, SumQuantity(month), SumAmount(month)))
    }

    /** `delete_record`: removes the first record with the id and reports whether there was one. */
    method DeleteRecord(id: int) returns (deleted: bool)
      modifies this
      ensures deleted <==> exists k :: 0 <= k < |old(records)| && old(records)[k].id == id
      ensures records == RemoveFirst(old(records), id)
      ensures deleted ==> persisted == records
      ensures !deleted ==> persisted == old(persisted)
    {
      var i := 0;
      while i < |records|
        invariant 0 <= i <= |records| && records == old(records) && persisted == old(persisted)
        invariant forall k :: 0 <= k < i ==> records[k].id != id
      {
        if records[i].id == id {
          assert FindById(records, id) == Some(i);
          records := records[..i] + records[i + 1..];
          persisted := records;
          return true;
        }
        i := i + 1;
      }
      return false;
    }

    /** The id-assignment loop both importers run on the tool they were given: each imported row gets
        `len(records) + 1 + i` and the `i`-th clock reading as its creation time, is appended, and the
        file is saved. */
    method AppendImported(xs: seq<Imported>, clock: Clock)
      modifies this
      ensures records == old(records) + WithIds(|old(records)| + 1, xs, clock) && persisted == records
    {
      var start := |records| + 1;
      var i := 0;
      while i < |xs|
        invariant 0 <= i <= |xs|
        invariant records == old(records) + WithIds(start, xs[..i], clock)
      {
        assert xs[..i + 1][..i] == xs[..i];
        records := records + [FromImported(xs[i], start + i, clock(i))];
        i := i + 1;
      }
      assert xs[..i] == xs;
      persisted := records;
    }

    /** `get_all_records`: a copy sorted by date string, newest first; records with equal dates keep
        their store order. */
    function GetAllRecords(): (r: seq<Record>)
      reads this
      ensures Sorted(r, DateKey, true)
      ensures multiset(r) == multiset(records)
      ensures forall d :: Filter(r, KeyIs(DateKey, d)) == Filter(records, KeyIs(DateKey, d))
    {
      SortBySorted(records, DateKey, true);
      SortByPermutation(records, DateKey, true);
      SortByStableAll(records, DateKey, true);
      SortBy(records, DateKey, true)
    }
  }
}
