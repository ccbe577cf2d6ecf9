/** The receipt printer's text layout: display widths in which a non-ASCII character takes two columns,
    centring, left/right justification and greedy wrapping; the shop settings; and the figures of the
    compact 76 mm receipt. */
module ReceiptPrinting {
  import opened Util
  import opened Strings
  import opened Records
  import opened Stats

  // ---------------------------------------------------------------- display width

  /** A character above code point 127 is taken to be a double-width (Chinese) character. */
  function CharWidth(c: char): nat
  {
    if c as int > 127 then 2 else 1
  }

  /** The display width of a text, character by character from the left. */
  function TextWidth(s: string): (w: nat)
    ensures |s| <= w <= 2 * |s|
  {
    if s == [] then 0 else TextWidth(s[..|s| - 1]) + CharWidth(s[|s| - 1])
  }

  lemma TextWidthSnoc(s: string, c: char)
    ensures TextWidth(s + [c]) == TextWidth(s) + CharWidth(c)
  {
    assert (s + [c])[..|s|] == s;
  }

  /** Widths add up over a concatenation. */
  lemma {:induction false} TextWidthAppend(a: string, b: string)
    ensures TextWidth(a + b) == TextWidth(a) + TextWidth(b)
    decreases |b|
  {
    if b == [] {
      assert a + b == a;
    } else {
      var b' := b[..|b| - 1];
      assert a + b == (a + b') + [b[|b| - 1]];
      TextWidthAppend(a, b');
      TextWidthSnoc(a + b', b[|b| - 1]);
      TextWidthSnoc(b', b[|b| - 1]);
      assert b == b' + [b[|b| - 1]];
    }
  }

  /** The width is the length exactly for ASCII text, and twice the length exactly for text of wide
      characters only. */
  lemma {:induction false} TextWidthExtremes(s: string)
    ensures TextWidth(s) == |s| <==> forall i :: 0 <= i < |s| ==> s[i] as int <= 127
    ensures TextWidth(s) == 2 * |s| <==> forall i :: 0 <= i < |s| ==> s[i] as int > 127
  {
    if s != [] {
      var init := s[..|s| - 1];
      TextWidthExtremes(init);
      assert forall i :: 0 <= i < |init| ==> init[i] == s[i];
    }
  }

  /** Spaces are one column each. */
  lemma {:induction false} SpacesWidth(n: int)
    ensures TextWidth(Spaces(n)) == |Spaces(n)|
  {
    TextWidthExtremes(Spaces(n));
  }

  /** `_get_text_width`: the accumulator loop over the characters. */
  method GetTextWidth(text: string) returns (width: nat)
    ensures width == TextWidth(text)
  {
    width := 0;
    var i := 0;
    while i < |text|
      invariant 0 <= i <= |text|
      invariant width == TextWidth(text[..i])
    {
      assert text[..i + 1] == text[..i] + [text[i]];
      TextWidthSnoc(text[..i], text[i]);
      width := width + (if text[i] as int > 127 then 2 else 1);
      i := i + 1;
    }
    assert text[..i] == text;
  }

  // ---------------------------------------------------------------- centring and justification

  /** `_center_text`: `(width - text_width) // 2` spaces, none when the text is too wide, then the text.
      Python's `//` floors, as Dafny's `/` does for a positive divisor. */
  function CenterText(text: string, width: int): string
  {
    Spaces((width - TextWidth(text)) / 2) + text
  }

  /** The centred text ends with the text itself, after `max(0, (width - text_width) // 2)` spaces; when
      the text fits, the line stays within the width and the margin left over on the right is the left one
      or one column more. */
  lemma CenterTextProperties(text: string, width: int)
    ensures var r, pad := CenterText(text, width), (width - TextWidth(text)) / 2;
      r == Spaces(pad) + text && |r| == |text| + (if pad < 0 then 0 else pad)
      && TextWidth(r) == TextWidth(text) + (if pad < 0 then 0 else pad)
      && (TextWidth(text) <= width ==>
            0 <= pad <= width - TextWidth(r) <= pad + 1)
      && (TextWidth(text) >= width ==> r == text)
  {
    var pad := (width - TextWidth(text)) / 2;
    TextWidthAppend(Spaces(pad), text);
    SpacesWidth(pad);
  }

  /** `_format_line`: the left text, at least one space, and the right text. */
  function FormatLine(left: string, right: string, width: int): string
  {
    var spaces := width - TextWidth(left) - TextWidth(right);
    left + Spaces(if spaces < 1 then 1 else spaces) + right
  }

  /** The justified line is exactly `width` columns wide when the two texts leave room for a space, and
      one column wider than the texts otherwise. */
  lemma FormatLineWidth(left: string, right: string, width: int)
    ensures var lw, rw := TextWidth(left), TextWidth(right);
      TextWidth(FormatLine(left, right, width)) == (if lw + rw < width then width else lw + rw + 1)
    ensures left <= FormatLine(left, right, width)
  {
    var spaces := width - TextWidth(left) - TextWidth(right);
    var gap := Spaces(if spaces < 1 then 1 else spaces);
    TextWidthAppend(left, gap);
    TextWidthAppend(left + gap, right);
    SpacesWidth(if spaces < 1 then 1 else spaces);
    assert FormatLine(left, right, width) == left + (gap + right);
  }

  // ---------------------------------------------------------------- wrapping

  /** The lines joined without separators. */
  function Concat(lines: seq<string>): string
  {
    if lines == [] then [] else Concat(lines[..|lines| - 1]) + lines[|lines| - 1]
  }

  lemma ConcatSnoc(lines: seq<string>, line: string)
    ensures Concat(lines + [line]) == Concat(lines) + line
  {
    assert (lines + [line])[..|lines|] == lines;
  }

  lemma SingleWidth(c: char)
    ensures TextWidth([c]) == CharWidth(c)
  {
    TextWidthSnoc([], c);
    assert [] + [c] == [c];
  }

  /** The shape `_wrap_text` gives its lines: only the first may be empty; a line passes the width only
      when it is a single character; and each line is as long as it can be, since the next line's first
      character would not have fitted on it. */
  predicate Greedy(lines: seq<string>, width: int)
  {
    (forall k :: 1 <= k < |lines| ==> lines[k] != [])
    && (forall k :: 0 <= k < |lines| ==> |lines[k]| <= 1 || TextWidth(lines[k]) <= width)
    && (forall k :: 0 <= k < |lines| - 1 ==> TextWidth(lines[k]) + CharWidth(lines[k + 1][0]) > width)
  }

  /** The lines `_wrap_text` holds after reading `t`, the line being filled last: a character that
      would pass the width starts a new line, any other joins the current one. */
  function WrapLines(t: string, width: int): (ls: seq<string>)
    ensures |ls| >= 1
    decreases |t|
  {
    if t == [] then [[]]
    else
      var ls := WrapLines(t[..|t| - 1], width);
      var c := t[|t| - 1];
      if TextWidth(ls[|ls| - 1]) + CharWidth(c) > width then ls + [[c]]
      else ls[..|ls| - 1] + [ls[|ls| - 1] + [c]]
  }

  /** One more character, seen from the lines already held. */
  lemma WrapLinesSnoc(t: string, c: char, width: int, lines: seq<string>, current: string)
    requires lines + [current] == WrapLines(t, width)
    ensures TextWidth(current) + CharWidth(c) > width ==> WrapLines(t + [c], width) == lines + [current] + [[c]]
    ensures TextWidth(current) + CharWidth(c) <= width ==> WrapLines(t + [c], width) == lines + [current + [c]]
  {
    assert (t + [c])[..|t|] == t;
    assert (lines + [current])[..|lines|] == lines;
  }

  /** Starting a new line with `c` when it does not fit on the current one. */
  lemma BreakStep(lines: seq<string>, current: string, c: char, width: int)
    requires Greedy(lines + [current], width) && (lines != [] ==> current != [])
    requires TextWidth(current) + CharWidth(c) > width
    ensures Greedy(lines + [current] + [[c]], width)
  {
    var all, all' := lines + [current], lines + [current] + [[c]];
    assert forall k :: 0 <= k < |all| ==> all'[k] == all[k];
  }

  /** Adding `c` to the current line when it fits. */
  lemma ExtendStep(lines: seq<string>, current: string, c: char, width: int)
    requires Greedy(lines + [current], width) && (lines != [] ==> current != [])
    requires TextWidth(current) + CharWidth(c) <= width
    ensures Greedy(lines + [current + [c]], width)
  {
    TextWidthSnoc(current, c);
    var all, all' := lines + [current], lines + [current + [c]];
    var n := |lines|;
    forall k | 1 <= k < |all'|
      ensures all'[k] != []
    {
      if k < n {
        assert all'[k] == all[k];
      }
    }
    forall k | 0 <= k < |all'|
      ensures |all'[k]| <= 1 || TextWidth(all'[k]) <= width
    {
      if k < n {
        assert all'[k] == all[k];
      }
    }
    forall k | 0 <= k < |all'| - 1
      ensures TextWidth(all'[k]) + CharWidth(all'[k + 1][0]) > width
    {
      assert all'[k] == all[k];
      if k + 1 < n {
        assert all'[k + 1] == all[k + 1];
      } else {
        assert all[k + 1] == current != [];
        assert all'[k + 1][0] == current[0];
      }
    }
  }

  /** Only before the first character is the line being filled empty, and there is then no other. */
  lemma {:induction false} WrapLinesLast(t: string, width: int)
    ensures var ls := WrapLines(t, width); (t != [] <==> ls[|ls| - 1] != []) && (t == [] ==> ls == [[]])
    ensures var ls := WrapLines(t, width); |ls| > 1 ==> ls[|ls| - 1] != []
  {
  }

  /** Either way a character is placed, the joined lines grow by that character. */
  lemma ConcatStep(lines: seq<string>, current: string, c: char)
    ensures Concat(lines + [current] + [[c]]) == Concat(lines + [current]) + [c]
    ensures Concat(lines + [current + [c]]) == Concat(lines + [current]) + [c]
  {
    ConcatSnoc(lines + [current], [c]);
    ConcatSnoc(lines, current);
    ConcatSnoc(lines, current + [c]);
  }

  /** Joined together, the lines give back the text read so far. */
  lemma {:induction false} WrapLinesConcat(t: string, width: int)
    ensures Concat(WrapLines(t, width)) == t
    decreases |t|
  {
    if t != [] {
      var t', c := t[..|t| - 1], t[|t| - 1];
      WrapLinesConcat(t', width);
      var ls := WrapLines(t', width);
      var lines, current := ls[..|ls| - 1], ls[|ls| - 1];
      assert ls == lines + [current];
      assert t == t' + [c];
      WrapLinesSnoc(t', c, width, lines, current);
      ConcatStep(lines, current, c);
    }
  }

  /** The lines have the greedy shape. */
  lemma {:induction false} WrapLinesGreedy(t: string, width: int)
    ensures Greedy(WrapLines(t, width), width)
    decreases |t|
  {
    if t != [] {
      var t', c := t[..|t| - 1], t[|t| - 1];
      WrapLinesGreedy(t', width);
      WrapLinesLast(t', width);
      var ls := WrapLines(t', width);
      var lines, current := ls[..|ls| - 1], ls[|ls| - 1];
      assert ls == lines + [current];
      if TextWidth(current) + CharWidth(c) > width {
        BreakStep(lines, current, c, width);
      } else {
        ExtendStep(lines, current, c, width);
      }
    }
  }

  /** The first line is empty only when the text's first character is wider than the width on its own. */
  lemma {:induction false} WrapLinesFirst(t: string, width: int)
    ensures var ls := WrapLines(t, width); ls[0] == [] && t != [] ==> width < CharWidth(t[0])
    decreases |t|
  {
    if t != [] {
      var t', c := t[..|t| - 1], t[|t| - 1];
      WrapLinesFirst(t', width);
      var ls := WrapLines(t', width);
      if t' == [] {
        assert t == [c];
      } else {
        assert t'[0] == t[0];
        WrapLinesLast(t', width);
      }
    }
  }

  /** With a width of at least 2 every character fits on a line of its own, so no line is empty or too
      wide once the first is not empty. */
  lemma GreedyNarrow(lines: seq<string>, width: int)
    requires Greedy(lines, width) && width >= 2 && lines != [] && lines[0] != []
    ensures forall k :: 0 <= k < |lines| ==> lines[k] != [] && TextWidth(lines[k]) <= width
  {
    forall k | 0 <= k < |lines|
      ensures lines[k] != [] && TextWidth(lines[k]) <= width
    {
      if |lines[k]| == 1 {
        SingleWidth(lines[k][0]);
        assert lines[k] == [lines[k][0]];
      }
    }
  }

  /** `_wrap_text`: characters are added to the current line until the next one would pass the width.
      The result is the lines of `WrapLines`; they give back the text and have the greedy shape; the
      first line is empty only when the text's first character is wider than the width on its own; so
      when the width is at least 2, no line is empty or too wide. An empty text gives one empty line. */
  method WrapText(text: string, width: int) returns (lines: seq<string>)
    ensures lines == WrapLines(text, width)
    ensures |lines| >= 1 && Concat(lines) == text && Greedy(lines, width)
    ensures text == [] ==> lines == [[]]
    ensures lines[0] == [] && text != [] ==> width < CharWidth(text[0])
    ensures width >= 2 && text != [] ==> forall k :: 0 <= k < |lines| ==> lines[k] != [] && TextWidth(lines[k]) <= width
  {
    lines := [];
    var current: string := [];
    var currentWidth := 0;
    var i := 0;
    while i < |text|
      invariant 0 <= i <= |text|
      invariant lines + [current] == WrapLines(text[..i], width)
      invariant currentWidth == TextWidth(current)
    {
      var c := text[i];
      var w := CharWidth(c);
      assert text[..i + 1] == text[..i] + [c];
      WrapLinesSnoc(text[..i], c, width, lines, current);
      TextWidthSnoc(current, c);
      if currentWidth + w > width {
        lines := lines + [current];
        current := [c];
        currentWidth := w;
      } else {
        current := current + [c];
        currentWidth := currentWidth + w;
      }
      i := i + 1;
    }
    assert text[..i] == text;
    WrapLinesLast(text, width);
    WrapLinesConcat(text, width);
    WrapLinesGreedy(text, width);
    WrapLinesFirst(text, width);
    if current != [] {
      lines := lines + [current];
    } else {
      lines := [text];
    }
    if width >= 2 && text != [] {
      GreedyNarrow(lines, width);
    }
  }

  // ---------------------------------------------------------------- the compact receipt

  /** A line of goods: the 1-based item number (none for a record without items), the number of sets as
      an absolute value, the unit price and the subtotal. */
  datatype GoodsLine = GoodsLine(index: Option<nat>, sets: nat, unitPrice: real, subtotal: real)

  /** A line of the return block: the return's number and its absolute quantity and amount. */
  datatype ReturnLine = ReturnLine(index: nat, sets: nat, amount: real)

  datatype ReturnBlock = ReturnBlock(lines: seq<ReturnLine>, totalSets: nat, totalAmount: real, net: real)

  /** The content of `_format_compact_receipt`, line group by line group; the `:.0f` rendering of the
      figures is not modelled. */
  datatype Compact = Compact(
    shop: string,
    returnLabel: bool,          // 【退】 rather than 【销】
    id: int,
    date: string,
    time: string,
    goods: seq<GoodsLine>,
    totalSets: nat,
    totalAmount: real,
    returnBlock: Option<ReturnBlock>,
    note: Option<string>,
    phone: Option<string>,
    footer: string)

  /** Python's `s[:n]`. */
  function Truncated(s: string, n: nat): (r: string)
    ensures r <= s && |r| == (if |s| <= n then |s| else n)
  {
    if |s| <= n then s else s[..n]
  }

  /** The time shown: `created_at.split(' ')[1]` when it holds a space, so the text between the first
      and the second space; the whole value otherwise. */
  function TimeShown(createdAt: string): string
  {
    if ' ' in createdAt then
      SplitHasTwoParts(createdAt, ' ');
      Split(createdAt, ' ')[1]
    else createdAt
  }

  lemma SplitHasTwoParts(s: string, sep: char)
    requires sep in s
    ensures |Split(s, sep)| >= 2
  {
    var i :| 0 <= i < |s| && s[i] == sep;
    assert s == s[..i] + [sep] + s[i + 1..];
    SplitAppend(s[..i], s[i + 1..], sep);
  }

  /** A stored `created_at` of the form "date time" shows its time part; one without a space is shown
      whole. */
  lemma TimeOfTimestamp(date: string, time: string)
    requires ' ' !in date && ' ' !in time
    ensures TimeShown(date + " " + time) == time
    ensures TimeShown(date) == date
  {
    SplitAppend(date, time, ' ');
    SplitWithoutSep(date, ' ');
    SplitWithoutSep(time, ' ');
    assert date + " " + time == date + [' '] + time;
  }

  /** Only the segment up to a second space is shown. */
  lemma TimeStopsAtSecondSpace(date: string, time: string, rest: string)
    requires ' ' !in date && ' ' !in time
    ensures TimeShown(date + " " + time + " " + rest) == time
  {
    var s := date + " " + time + " " + rest;
    assert s == date + [' '] + (time + [' '] + rest);
    SplitAppend(date, time + [' '] + rest, ' ');
    SplitAppend(time, rest, ' ');
    SplitWithoutSep(date, ' ');
    SplitWithoutSep(time, ' ');
  }

  /** A note longer than 10 characters is cut to 10 and marked with "..". */
  function ShortNote(note: string): (r: string)
    ensures |note| <= 10 ==> r == note
    ensures |note| > 10 ==> r == note[..10] + ".." && |r| == 12
  {
    if |note| > 10 then note[..10] + ".." else note
  }

  /** The footer, cut to 12 characters. */
  function ShortFooter(footer: string): (r: string)
    ensures r == Truncated(footer, 12)
  {
    if |footer| > 12 then footer[..12] else footer
  }

  /** The goods lines: one per item, or one unnumbered line from the record's own figures when it has no
      items. Quantities are shown as absolute values. */
  function GoodsOf(r: Record): (g: seq<GoodsLine>)
    ensures r.items == [] ==> g == [GoodsLine(None, Abs(r.quantity), r.unitPrice, LineAmount(Item(Abs(r.quantity), r.unitPrice)))]
    ensures r.items != [] ==> |g| == |r.items| && forall k :: 0 <= k < |r.items| ==>
      g[k] == GoodsLine(Some(k + 1), Abs(r.items[k].quantity), r.items[k].unitPrice,
                        LineAmount(Item(Abs(r.items[k].quantity), r.items[k].unitPrice)))
  {
    if r.items == [] then
      [GoodsLine(None, Abs(r.quantity), r.unitPrice, LineAmount(Item(Abs(r.quantity), r.unitPrice)))]
    else
      seq(|r.items|, k requires 0 <= k < |r.items| =>
      GoodsLine(Some(k + 1), Abs(r.items[k].quantity), r.items[k].unitPrice,
                LineAmount(Item(Abs(r.items[k].quantity), r.items[k].unitPrice))))
  }

  function ReturnLines(rets: seq<Record>): (ls: seq<ReturnLine>)
    ensures |ls| == |rets| && forall k :: 0 <= k < |rets| ==>
      ls[k] == ReturnLine(k + 1, Abs(rets[k].quantity), AbsReal(rets[k].totalAmount))
  {
    seq(|rets|, k requires 0 <= k < |rets| => ReturnLine(k + 1, Abs(rets[k].quantity), AbsReal(rets[k].totalAmount)))
  }

  /** The receipt for `r` with the shop settings given; `rets` are the linked returns passed in. */
  function CompactOf(shopName: string, shopPhone: string, footerText: string, r: Record, rets: seq<Record>): Compact
  {
    Compact(
      Truncated(shopName, 16),
      IsReturn(r),
      r.id,
      r.date,
      TimeShown(r.createdAt),
      GoodsOf(r),
      Abs(r.quantity),
      AbsReal(r.totalAmount),
      if rets == [] then None
      else Some(ReturnBlock(ReturnLines(rets), SumAbsQuantity(rets), SumAbsAmount(rets),
                            AbsReal(r.totalAmount) - SumAbsAmount(rets))),
      if r.note == [] then None else Some(ShortNote(r.note)),
      if shopPhone == [] then None else Some(shopPhone),
      ShortFooter(footerText))
  }

  /** The return block's running totals (the `return_total += ...` loop). */
  method ReturnTotals(rets: seq<Record>) returns (lines: seq<ReturnLine>, sets: nat, amount: real)
    ensures lines == ReturnLines(rets) && sets == SumAbsQuantity(rets) && amount == SumAbsAmount(rets)
  {
    lines, sets, amount := [], 0, 0.0;
    var i := 0;
    while i < |rets|
      invariant 0 <= i <= |rets|
      invariant lines == ReturnLines(rets[..i])
      invariant sets == SumAbsQuantity(rets[..i]) && amount == SumAbsAmount(rets[..i])
    {
      assert rets[..i + 1][..i] == rets[..i];
      var ret := rets[i];
      sets := sets + Abs(ret.quantity);
      amount := amount + AbsReal(ret.totalAmount);
      lines := lines + [ReturnLine(i + 1, Abs(ret.quantity), AbsReal(ret.totalAmount))];
      i := i + 1;
    }
    assert rets[..i] == rets;
  }

  /** The goods lines loop `for i, item in enumerate(items, 1)`. */
  method GoodsLines(r: Record) returns (goods: seq<GoodsLine>)
    ensures goods == GoodsOf(r)
  {
    if r.items == [] {
      var q := Abs(r.quantity);
      return [GoodsLine(None, q, r.unitPrice, LineAmount(Item(q, r.unitPrice)))];
    }
    goods := [];
    var i := 0;
    while i < |r.items|
      invariant 0 <= i <= |r.items| && |goods| == i
      invariant forall k :: 0 <= k < i ==> goods[k] == GoodsOf(r)[k]
    {
      var q := Abs(r.items[i].quantity);
      goods := goods + [GoodsLine(Some(i + 1), q, r.items[i].unitPrice, LineAmount(Item(q, r.items[i].unitPrice)))];
      i := i + 1;
    }
  }

  /** The receipt is labelled a return exactly when the record is one by the ledger's rule. */
  lemma ReturnLabel(shopName: string, shopPhone: string, footerText: string, r: Record, rets: seq<Record>)
    ensures CompactOf(shopName, shopPhone, footerText, r, rets).returnLabel <==> r.kind == Some(Return) || r.quantity < 0
  {
  }

  /** The net due is the sale's amount less the returned amounts; for a sale and returns whose signs
      agree with their kind, it is the signed sum of the sale and its returns. */
  lemma NetOfReturns(shopName: string, shopPhone: string, footerText: string, r: Record, rets: seq<Record>)
    requires rets != []
    ensures var b := CompactOf(shopName, shopPhone, footerText, r, rets).returnBlock;
      b.Some? && b.value.net == AbsReal(r.totalAmount) - SumAbsAmount(rets)
      && ((r.totalAmount >= 0.0 && forall k :: 0 <= k < |rets| ==> rets[k].totalAmount <= 0.0) ==>
            b.value.net == r.totalAmount + SumAmount(rets))
  {
    if forall k :: 0 <= k < |rets| ==> rets[k].totalAmount <= 0.0 {
      NonPositiveAbsSum(rets);
    }
  }

  lemma {:induction false} NonPositiveAbsSum(rs: seq<Record>)
    requires forall k :: 0 <= k < |rs| ==> rs[k].totalAmount <= 0.0
    ensures SumAbsAmount(rs) == -SumAmount(rs)
  {
    if rs != [] {
      NonPositiveAbsSum(rs[..|rs| - 1]);
    }
  }

  /** Without linked returns there is no return block. */
  lemma NoReturnsNoBlock(shopName: string, shopPhone: string, footerText: string, r: Record)
    ensures CompactOf(shopName, shopPhone, footerText, r, []).returnBlock.None?
  {
  }

  // ---------------------------------------------------------------- the printer

  class ReceiptPrinter {
    var receiptWidth: int
    var shopName: string
    var shopAddress: string
    var shopPhone: string
    var headerText: string
    var footerText: string

    constructor()
      ensures receiptWidth == 32 && shopName == "家纺四件套" && shopAddress == [] && shopPhone == []
      ensures headerText == [] && footerText == "谢谢惠顾，欢迎下次光临！"
    {
      receiptWidth := 32;
      shopName := "家纺四件套";
      shopAddress := [];
      shopPhone := [];
      headerText := [];
      footerText := "谢谢惠顾，欢迎下次光临！";
    }

    /** `set_shop_info`: an empty argument leaves its setting as it was. */
    method SetShopInfo(name: string, address: string, phone: string)
      modifies this
      ensures shopName == (if name != [] then name else old(shopName))
      ensures shopAddress == (if address != [] then address else old(shopAddress))
      ensures shopPhone == (if phone != [] then phone else old(shopPhone))
      ensures receiptWidth == old(receiptWidth) && headerText == old(headerText) && footerText == old(footerText)
    {
      if name != [] {
        shopName := name;
      }
      if address != [] {
        shopAddress := address;
      }
      if phone != [] {
        shopPhone := phone;
      }
    }

    /** `_format_compact_receipt` with this printer's settings. */
    method FormatCompactReceipt(r: Record, rets: seq<Record>) returns (receipt: Compact)
      ensures receipt == CompactOf(shopName, shopPhone, footerText, r, rets)
    {
      var goods := GoodsLines(r);
      var block: Option<ReturnBlock> := None;
      if rets != [] {
        var lines, sets, amount := ReturnTotals(rets);
        block := Some(ReturnBlock(lines, sets, amount, AbsReal(r.totalAmount) - amount));
      }
      receipt := Compact(Truncated(shopName, 16), r.kind == Some(Return) || r.quantity < 0, r.id, r.date,
                         TimeShown(r.createdAt), goods, Abs(r.quantity), AbsReal(r.totalAmount), block,
                         if r.note != [] then Some(ShortNote(r.note)) else None,
                         if shopPhone != [] then Some(shopPhone) else None,
                         ShortFooter(footerText));
    }
  }
}
