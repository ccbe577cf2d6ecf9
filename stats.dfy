/** The figures the GUI shows for a day or a month: sales and returns counted apart, returns as absolute
    values, net figures and an average price guarded against a zero quantity; and the month's per-day table. */
module Stats {
  import opened Util
  import opened Strings
  import opened Sorting
  import opened Records

  // ---------------------------------------------------------------- sums (left folds, in store order)

  function SumQuantity(rs: seq<Record>): int
  {
    if rs == [] then 0 else SumQuantity(rs[..|rs| - 1]) + rs[|rs| - 1].quantity
  }

  function SumAmount(rs: seq<Record>): real
  {
    if rs == [] then 0.0 else SumAmount(rs[..|rs| - 1]) + rs[|rs| - 1].totalAmount
  }

  function SumAbsQuantity(rs: seq<Record>): (n: int)
    ensures n >= 0
  {
    if rs == [] then 0 else SumAbsQuantity(rs[..|rs| - 1]) + Abs(rs[|rs| - 1].quantity)
  }

  function SumAbsAmount(rs: seq<Record>): (x: real)
    ensures x >= 0.0
  {
    if rs == [] then 0.0 else SumAbsAmount(rs[..|rs| - 1]) + AbsReal(rs[|rs| - 1].totalAmount)
  }

  /** Every sum splits over a concatenation. */
  lemma {:induction false} SumsAppend(a: seq<Record>, b: seq<Record>)
    ensures SumQuantity(a + b) == SumQuantity(a) + SumQuantity(b)
    ensures SumAmount(a + b) == SumAmount(a) + SumAmount(b)
    ensures SumAbsQuantity(a + b) == SumAbsQuantity(a) + SumAbsQuantity(b)
    ensures SumAbsAmount(a + b) == SumAbsAmount(a) + SumAbsAmount(b)
    decreases |b|
  {
    if b == [] {
      assert a + b == a;
    } else {
      var b' := b[..|b| - 1];
      assert (a + b)[..|a + b| - 1] == a + b';
      SumsAppend(a, b');
    }
  }

  function Sales(rs: seq<Record>): seq<Record>
  {
    Filter(rs, IsSale)
  }

  function Returns(rs: seq<Record>): seq<Record>
  {
    Filter(rs, IsReturn)
  }

  // ---------------------------------------------------------------- the summary block

  datatype Summary = Summary(
    count: nat,
    saleQty: int,
    saleAmount: real,
    returnQty: int,
    returnAmount: real,
    netQty: int,
    netAmount: real,
    avgPrice: real)

  /** The summary of a list of records (one day or one month). */
  function Summarize(rs: seq<Record>): (s: Summary)
    ensures s.count == |rs|
    ensures s.returnQty >= 0 && s.returnAmount >= 0.0
    ensures s.saleQty > 0 ==> s.avgPrice * s.saleQty as real == s.saleAmount
    ensures s.saleQty <= 0 ==> s.avgPrice == 0.0
  {
    var sales := Sales(rs);
    var rets := Returns(rs);
    var saleQty := SumQuantity(sales);
    var saleAmount := SumAmount(sales);
    var returnQty := SumAbsQuantity(rets);
    var returnAmount := SumAbsAmount(rets);
    Summary(|rs|, saleQty, saleAmount, returnQty, returnAmount, saleQty - returnQty, saleAmount - returnAmount,
            if saleQty > 0 then saleAmount / saleQty as real else 0.0)
  }

  lemma {:induction false} SalesReturnsAppend(a: seq<Record>, b: seq<Record>)
    ensures Sales(a + b) == Sales(a) + Sales(b) && Returns(a + b) == Returns(a) + Returns(b)
  {
    FilterAppend(a, b, IsSale);
    FilterAppend(a, b, IsReturn);
  }

  /** The summary of two lists together adds up the summaries of each. */
  lemma SummaryAppend(a: seq<Record>, b: seq<Record>)
    ensures Summarize(a + b).saleQty == Summarize(a).saleQty + Summarize(b).saleQty
    ensures Summarize(a + b).saleAmount == Summarize(a).saleAmount + Summarize(b).saleAmount
    ensures Summarize(a + b).returnQty == Summarize(a).returnQty + Summarize(b).returnQty
    ensures Summarize(a + b).returnAmount == Summarize(a).returnAmount + Summarize(b).returnAmount
    ensures Summarize(a + b).netQty == Summarize(a).netQty + Summarize(b).netQty
    ensures Summarize(a + b).netAmount == Summarize(a).netAmount + Summarize(b).netAmount
  {
    SalesReturnsAppend(a, b);
    SumsAppend(Sales(a), Sales(b));
    SumsAppend(Returns(a), Returns(b));
  }

  /** When every record's signs agree with its kind, the net figures are the plain signed sums of all
      records, which is what the command-line summary reports. */
  lemma {:induction false} NetIsSignedSum(rs: seq<Record>)
    requires forall k :: 0 <= k < |rs| ==> SignConsistent(rs[k])
    ensures Summarize(rs).netQty == SumQuantity(rs)
    ensures Summarize(rs).netAmount == SumAmount(rs)
    decreases |rs|
  {
    if rs != [] {
      var a, x := rs[..|rs| - 1], rs[|rs| - 1];
      assert rs == a + [x];
      NetIsSignedSum(a);
      SummaryAppend(a, [x]);
      assert Sales([x]) == if IsSale(x) then [x] else [];
      assert Returns([x]) == if IsReturn(x) then [x] else [];
      assert SumQuantity([x]) == x.quantity && SumAmount([x]) == x.totalAmount;
      assert SumAbsQuantity([x]) == Abs(x.quantity) && SumAbsAmount([x]) == AbsReal(x.totalAmount);
      SumsAppend(a, [x]);
    }
  }

  /** `update_stats_for_date`: nothing is shown for a date without records. */
  function DateSummary(rs: seq<Record>, date: string): (s: Option<Summary>)
    ensures s.None? <==> OnDate(rs, date) == []
    ensures s.Some? ==> s.value.count >= 1
  {
    var day := OnDate(rs, date);
    if day == [] then None else Some(Summarize(day))
  }

  // ---------------------------------------------------------------- the month view

  /** Python `s.zfill(w)`: left-pad with zeros after an optional sign. */
  function ZFill(s: string, w: nat): (r: string)
    ensures |r| == if |s| >= w then |s| else w
  {
    if |s| >= w then s
    else if s != [] && (s[0] == '+' || s[0] == '-') then [s[0]] + Zeros(w - |s|) + s[1..]
    else Zeros(w - |s|) + s
  }

  /** The month key `f"{year}-{month.zfill(2)}"`. */
  function YearMonth(year: string, month: string): (ym: string)
    ensures year + "-" <= ym && |ym| >= |year| + 3
  {
    year + "-" + ZFill(month, 2)
  }

  /** One row of the per-day table. Non-return records, quantity 0 included, count on the sales side. */
  datatype DayStats = DayStats(qty: int, amount: real, returnQty: int, returnAmount: real)

  const NoDayStats := DayStats(0, 0.0, 0, 0.0)

  function AddToDay(s: DayStats, r: Record): DayStats
  {
    if IsReturn(r) then s.(returnQty := s.returnQty + Abs(r.quantity), returnAmount := s.returnAmount + AbsReal(r.totalAmount))
    else s.(qty := s.qty + r.quantity, amount := s.amount + r.totalAmount)
  }

  /** The totals of one day's records, in the order the loop adds them. */
  function DayTotals(rs: seq<Record>): DayStats
  {
    if rs == [] then NoDayStats else AddToDay(DayTotals(rs[..|rs| - 1]), rs[|rs| - 1])
  }

  /** The `daily_stats` dictionary after processing `rs`. */
  function Breakdown(rs: seq<Record>): map<string, DayStats>
  {
    if rs == [] then map[]
    else
      var m := Breakdown(rs[..|rs| - 1]);
      var r := rs[|rs| - 1];
      m[r.date := AddToDay(if r.date in m then m[r.date] else NoDayStats, r)]
  }

  /** The dictionary's keys in insertion order (first appearance of each date). */
  function FirstSeenDates(rs: seq<Record>): seq<string>
  {
    if rs == [] then []
    else
      var ds := FirstSeenDates(rs[..|rs| - 1]);
      var d := rs[|rs| - 1].date;
      if d in ds then ds else ds + [d]
  }

  predicate NoDuplicates<T(==)>(s: seq<T>)
  {
    forall i, j :: 0 <= i < j < |s| ==> s[i] != s[j]
  }

  function Identity(s: string): string
  {
    s
  }

  /** Appending one record adds it to its own date's list and to no other. */
  lemma OnDateSnoc(a: seq<Record>, x: Record, d: string)
    ensures OnDate(a + [x], d) == OnDate(a, d) + (if x.date == d then [x] else [])
  {
    FilterAppend(a, [x], DateIs(d));
    assert [x][1..] == [];
  }

  lemma {:induction false} BreakdownKeys(rs: seq<Record>)
    ensures forall d :: d in Breakdown(rs) <==> OnDate(rs, d) != []
    decreases |rs|
  {
    if rs != [] {
      var a, x := rs[..|rs| - 1], rs[|rs| - 1];
      assert rs == a + [x];
      BreakdownKeys(a);
      forall d ensures d in Breakdown(rs) <==> OnDate(rs, d) != [] {
        OnDateSnoc(a, x, d);
      }
    }
  }

  lemma {:induction false} BreakdownValues(rs: seq<Record>)
    ensures forall d :: d in Breakdown(rs) ==> Breakdown(rs)[d] == DayTotals(OnDate(rs, d))
    decreases |rs|
  {
    if rs != [] {
      var a, x := rs[..|rs| - 1], rs[|rs| - 1];
      assert rs == a + [x];
      BreakdownValues(a);
      BreakdownKeys(a);
      forall d | d in Breakdown(rs) ensures Breakdown(rs)[d] == DayTotals(OnDate(rs, d)) {
        OnDateSnoc(a, x, d);
        var od := OnDate(rs, d);
        if x.date == d {
          assert od[..|od| - 1] == OnDate(a, d);
        } else {
          assert od == OnDate(a, d);
        }
      }
    }
  }

  lemma {:induction false} FirstSeenDatesKeys(rs: seq<Record>)
    ensures forall d :: d in FirstSeenDates(rs) <==> d in Breakdown(rs)
    ensures NoDuplicates(FirstSeenDates(rs))
    decreases |rs|
  {
    if rs != [] {
      FirstSeenDatesKeys(rs[..|rs| - 1]);
    }
  }

  /** The table has a row exactly for each date that occurs, and each row totals that date's records. */
  lemma BreakdownByDate(rs: seq<Record>)
    ensures forall d :: d in Breakdown(rs) <==> OnDate(rs, d) != []
    ensures forall d :: d in Breakdown(rs) ==> Breakdown(rs)[d] == DayTotals(OnDate(rs, d))
    ensures forall d :: d in FirstSeenDates(rs) <==> d in Breakdown(rs)
    ensures NoDuplicates(FirstSeenDates(rs))
  {
    BreakdownKeys(rs);
    BreakdownValues(rs);
    FirstSeenDatesKeys(rs);
  }

  /** The per-day rows are listed in ascending date-string order, each date once. */
  function DayOrder(rs: seq<Record>): (days: seq<string>)
    ensures |days| == |FirstSeenDates(rs)|
  {
    SortBy(FirstSeenDates(rs), Identity, false)
  }

  lemma DayOrderProperties(rs: seq<Record>)
    ensures Sorted(DayOrder(rs), Identity, false)
    ensures multiset(DayOrder(rs)) == multiset(FirstSeenDates(rs))
    ensures forall d :: d in DayOrder(rs) <==> d in Breakdown(rs)
  {
    SortBySorted(FirstSeenDates(rs), Identity, false);
    SortByPermutation(FirstSeenDates(rs), Identity, false);
    BreakdownByDate(rs);
    forall d ensures d in DayOrder(rs) <==> d in FirstSeenDates(rs) {
      assert d in DayOrder(rs) <==> d in multiset(DayOrder(rs));
      assert d in FirstSeenDates(rs) <==> d in multiset(FirstSeenDates(rs));
    }
  }

  /** With consistent signs, a day's row agrees with the summary block of that day's records. */
  lemma {:induction false} DayTotalsAgreeWithSummary(rs: seq<Record>)
    requires forall k :: 0 <= k < |rs| ==> SignConsistent(rs[k])
    ensures DayTotals(rs).qty == Summarize(rs).saleQty
    ensures DayTotals(rs).amount == Summarize(rs).saleAmount
    ensures DayTotals(rs).returnQty == Summarize(rs).returnQty
    ensures DayTotals(rs).returnAmount == Summarize(rs).returnAmount
    decreases |rs|
  {
    if rs != [] {
      var a, x := rs[..|rs| - 1], rs[|rs| - 1];
      assert rs == a + [x];
      DayTotalsAgreeWithSummary(a);
      SummaryAppend(a, [x]);
      assert Sales([x]) == if IsSale(x) then [x] else [];
      assert Returns([x]) == if IsReturn(x) then [x] else [];
      assert SumQuantity([x]) == x.quantity && SumAmount([x]) == x.totalAmount;
      assert SumAbsQuantity([x]) == Abs(x.quantity) && SumAbsAmount([x]) == AbsReal(x.totalAmount);
    }
  }
}
