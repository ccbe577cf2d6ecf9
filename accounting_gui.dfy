/** The ledger operations of the desktop application `AccountingApp`: multi-item sales and returns, partial
    returns against a sale, editing a record's items and note, deletion with renumbering, the sale/return
    tree, the month view and the application's own version comparison. */
module AccountingGui {
  import opened Util
  import opened Strings
  import opened Sorting
  import opened Records
  import opened Stats

  /** One row of an item form: the quantity and price texts as typed. */
  datatype ItemRow = ItemRow(qty: string, price: string)

  datatype Refusal =
    | MissingDate          // add: the date field is empty
    | NoValidItems         // add / return: no row gave an item with quantity > 0 and price > 0
    | RecordNotFound       // no record has the selected id
    | AlreadyReturn        // a partial return was asked for a return record
    | ExceedsSale          // this return's quantity is larger than the sale's quantity
    | EmptyItemList        // saving an item edit that left no items

  datatype Outcome = Appended(record: Record) | Refused(reason: Refusal)

  const ReturnTag := "[退货]"

  // ---------------------------------------------------------------- reading item rows

  /** A row of the add form: both stripped texts non-empty, `int()` and `float()` succeed, both positive.
      Any other row is skipped. */
  function FormItem(row: ItemRow): (r: Option<Item>)
    ensures r.Some? ==> r.value.quantity > 0 && r.value.unitPrice > 0.0
  {
    var q, p := Strip(row.qty), Strip(row.price);
    if q == [] || p == [] then None
    else match (ParseInt(q), ParseDecimal(p))
      case (Some(n), Some(x)) => if n > 0 && x > 0.0 then Some(Item(n, x)) else None
      case _ => None
  }

  /** A row of the partial-return form: `int(qty or 0)`, `float(price or 0)`, both positive. The texts are
      not stripped first (`int()` and `float()` accept surrounding whitespace themselves). */
  function ReturnItem(row: ItemRow): (r: Option<Item>)
    ensures r.Some? ==> r.value.quantity > 0 && r.value.unitPrice > 0.0
  {
    var q := if row.qty == [] then Some(0) else ParseInt(row.qty);
    var p := if row.price == [] then Some(0.0) else ParseDecimal(row.price);
    match (q, p)
    case (Some(n), Some(x)) => if n > 0 && x > 0.0 then Some(Item(n, x)) else None
    case _ => None
  }

  /** The item one row yields under the add form's rule or the return form's. */
  function RowItem(row: ItemRow, forReturn: bool): (r: Option<Item>)
    ensures r.Some? ==> r.value.quantity > 0 && r.value.unitPrice > 0.0
  {
    if forReturn then ReturnItem(row) else FormItem(row)
  }

  /** The items a form yields, in row order: the add form's rule (`forReturn` false) or the return form's. */
  function ValidItems(rows: seq<ItemRow>, forReturn: bool): (items: seq<Item>)
    ensures AllPositive(items) && |items| <= |rows|
  {
    if rows == [] then []
    else
      var items := ValidItems(rows[..|rows| - 1], forReturn);
      match RowItem(rows[|rows| - 1], forReturn)
      case Some(it) => items + [it]
      case None => items
  }

  /** The item a row contributes: none or one. */
  function AsSeq(o: Option<Item>): seq<Item>
  {
    if o.Some? then [o.value] else []
  }

  /** The collection grows one row at a time. */
  lemma ValidItemsStep(rows: seq<ItemRow>, i: nat, forReturn: bool)
    requires i < |rows|
    ensures ValidItems(rows[..i + 1], forReturn) == ValidItems(rows[..i], forReturn) + AsSeq(RowItem(rows[i], forReturn))
  {
    assert rows[..i + 1][..i] == rows[..i];
  }

  /** The accumulating loops of `add_record` and `do_return`: the valid items with their running quantity
      and amount totals. */
  method CollectItems(rows: seq<ItemRow>, forReturn: bool) returns (items: seq<Item>, totalQty: int, totalAmount: real)
    ensures items == ValidItems(rows, forReturn)
    ensures totalQty == ItemsQuantity(items) && totalAmount == ItemsAmount(items)
  {
    items, totalQty, totalAmount := [], 0, 0.0;
    var i := 0;
    while i < |rows|
      invariant 0 <= i <= |rows|
      invariant items == ValidItems(rows[..i], forReturn)
      invariant totalQty == ItemsQuantity(items) && totalAmount == ItemsAmount(items)
    {
      var it := RowItem(rows[i], forReturn);
      ValidItemsStep(rows, i, forReturn);
      ItemsAppend(items, AsSeq(it));
      if it.Some? {
        ItemsSingleton(it.value);
        items := items + [it.value];
        totalQty := totalQty + it.value.quantity;
        totalAmount := totalAmount + LineAmount(it.value);
      }
      i := i + 1;
    }
    assert rows[..i] == rows;
  }

  // ---------------------------------------------------------------- add_record

  /** The loop that negates, in place, the quantity of every collected item of a return. */
  method NegateItems(items: seq<Item>) returns (r: seq<Item>)
    ensures r == Negated(items)
  {
    r := items;
    var i := 0;
    while i < |r|
      invariant 0 <= i <= |r| == |items|
      invariant forall k :: 0 <= k < i ==> r[k] == Item(-items[k].quantity, items[k].unitPrice)
      invariant forall k :: i <= k < |r| ==> r[k] == items[k]
    {
      r := r[i := Item(-r[i].quantity, r[i].unitPrice)];
      i := i + 1;
    }
  }

  /** `abs(total_amount) / abs(total_quantity)`, 0 for a zero quantity. */
  function AveragePrice(amount: real, qty: int): real
  {
    if qty != 0 then AbsReal(amount) / Abs(qty) as real else 0.0
  }

  function ReturnNote(note: string): (r: string)
    ensures ReturnTag <= r
  {
    if note != [] then ReturnTag + " " + note else ReturnTag
  }

  /** The record `add_record` builds from valid items. A return negates the item quantities and both totals
      and tags the note. */
  function NewEntry(id: int, date: string, note: string, kind: Kind, items: seq<Item>, now: string): Record
  {
    var q, a := ItemsQuantity(items), ItemsAmount(items);
    if kind == Return then
      Record(id, date, -q, AveragePrice(-a, -q), -a, ReturnNote(note), Some(Return), Negated(items), None, now)
    else
      Record(id, date, q, AveragePrice(a, q), a, note, Some(Sale), items, None, now)
  }

  /** What `add_record` does with the form: the only date check is that the stripped date is non-empty. */
  function AddDecision(rs: seq<Record>, dateText: string, noteText: string, kind: Kind, rows: seq<ItemRow>, now: string): Outcome
  {
    var date := Strip(dateText);
    if date == [] then Refused(MissingDate)
    else
      var items := ValidItems(rows, false);
      if items == [] then Refused(NoValidItems)
      else Appended(NewEntry(|rs| + 1, date, Strip(noteText), kind, items, now))
  }

  /** A new record gets the next id, its totals are the sums of its items, and its signs follow its kind. */
  lemma AddDecisionProperties(rs: seq<Record>, dateText: string, noteText: string, kind: Kind, rows: seq<ItemRow>, now: string)
    ensures AddDecision(rs, dateText, noteText, kind, rows, now).Appended?
            <==> Strip(dateText) != [] && ValidItems(rows, false) != []
    ensures Strip(dateText) == [] ==> AddDecision(rs, dateText, noteText, kind, rows, now) == Refused(MissingDate)
    ensures AddDecision(rs, dateText, noteText, kind, rows, now).Appended? ==>
      var r := AddDecision(rs, dateText, noteText, kind, rows, now).record;
      r.id == |rs| + 1 && r.date == Strip(dateText) && r.createdAt == now
      && r.kind == Some(kind) && r.originalId.None?
      && TotalsMatchItems(r) && SignConsistent(r) && (IsReturn(r) <==> kind == Return)
      && (kind == Sale ==> r.items == ValidItems(rows, false) && r.quantity > 0 && r.totalAmount > 0.0 && r.note == Strip(noteText))
      && (kind == Return ==> r.items == Negated(ValidItems(rows, false)) && AllNegative(r.items)
                             && r.quantity < 0 && r.totalAmount < 0.0 && r.note == ReturnNote(Strip(noteText)))
  {
    var items := ValidItems(rows, false);
    if Strip(dateText) != [] && items != [] {
      PositiveSums(items);
      NegatedSums(items);
    }
  }

  /** The tail of `add_record` once the items are collected: a return negates the totals, tags the note and
      negates every item in place. */
  method BuildEntry(id: int, date: string, note: string, kind: Kind, items: seq<Item>, totalQty: int, totalAmount: real,
                    now: string) returns (r: Record)
    requires totalQty == ItemsQuantity(items) && totalAmount == ItemsAmount(items)
    ensures r == NewEntry(id, date, note, kind, items, now)
  {
    if kind == Return {
      var negated := NegateItems(items);
      r := Record(id, date, -totalQty, AveragePrice(-totalAmount, -totalQty), -totalAmount, ReturnNote(note),
                  Some(Return), negated, None, now);
    } else {
      r := Record(id, date, totalQty, AveragePrice(totalAmount, totalQty), totalAmount, note, Some(Sale), items, None, now);
    }
  }

  // ---------------------------------------------------------------- convert_to_return / do_return

  /** The return record `do_return` appends against `sale`, dated today. */
  function ReturnEntry(id: int, sale: Record, items: seq<Item>, today: string, now: string): Record
  {
    var q, a := ItemsQuantity(items), ItemsAmount(items);
    Record(id, today, -q, if q > 0 then a / q as real else 0.0, -a,
           ReturnTag + " 原记录#" + IntToString(sale.id) + " " + sale.note,
           Some(Return), Negated(items), Some(sale.id), now)
  }

  /** What `convert_to_return` and `do_return` do for the selected id and the return form. The quantity check
      compares this return alone with the sale: earlier returns against the same sale are not counted. */
  function ReturnDecision(rs: seq<Record>, id: int, rows: seq<ItemRow>, today: string, now: string): Outcome
  {
    match FindById(rs, id)
    case None => Refused(RecordNotFound)
    case Some(k) =>
      var sale := rs[k];
      if IsReturn(sale) then Refused(AlreadyReturn)
      else
        var items := ValidItems(rows, true);
        if items == [] then Refused(NoValidItems)
        else if ItemsQuantity(items) > sale.quantity then Refused(ExceedsSale)
        else Appended(ReturnEntry(|rs| + 1, sale, items, today, now))
  }

  /** `get_return_records`: for a sale, the returns that point back to it, in store order; nothing for a return. */
  function ReturnsOf(rs: seq<Record>, rec: Record): (r: seq<Record>)
    ensures IsReturn(rec) ==> r == []
    ensures !IsReturn(rec) ==> forall x :: x in r <==> x in rs && IsReturn(x) && x.originalId == Some(rec.id)
    ensures !IsReturn(rec) ==>
      forall x :: multiset(r)[x] == if IsReturn(x) && x.originalId == Some(rec.id) then multiset(rs)[x] else 0
    ensures IsSubsequence(r, rs)
  {
    FilterExact(rs, PointsTo(rec.id));
    if IsReturn(rec) then [] else Filter(rs, PointsTo(rec.id))
  }

  function PointsTo(id: int): Record -> bool
  {
    (x: Record) => IsReturn(x) && x.originalId == Some(id)
  }

  /** A return of positive items stores them negated, with totals that match and the signs of a return. */
  lemma ReturnEntryShape(id: int, sale: Record, items: seq<Item>, today: string, now: string)
    requires AllPositive(items) && items != []
    ensures var r := ReturnEntry(id, sale, items, today, now);
      r.id == id && r.date == today && r.kind == Some(Return) && r.originalId == Some(sale.id)
      && r.items == Negated(items) && AllNegative(r.items)
      && r.quantity == -ItemsQuantity(items) && r.quantity < 0
      && TotalsMatchItems(r) && SignConsistent(r)
  {
    PositiveSums(items);
    NegatedSums(items);
  }

  /** A successful partial return appends a linked return: negative items, quantity at most the sale's,
      dated today, and listed last among the sale's returns. */
  lemma ReturnDecisionProperties(rs: seq<Record>, id: int, rows: seq<ItemRow>, today: string, now: string)
    ensures FindById(rs, id).None? ==> ReturnDecision(rs, id, rows, today, now) == Refused(RecordNotFound)
    ensures FindById(rs, id).Some? && IsReturn(rs[FindById(rs, id).value]) ==>
              ReturnDecision(rs, id, rows, today, now) == Refused(AlreadyReturn)
    ensures ReturnDecision(rs, id, rows, today, now).Appended? ==>
      var sale := rs[FindById(rs, id).value];
      var r := ReturnDecision(rs, id, rows, today, now).record;
      !IsReturn(sale) && sale.id == id
      && r.id == |rs| + 1 && r.date == today && r.kind == Some(Return) && r.originalId == Some(id)
      && r.items == Negated(ValidItems(rows, true)) && AllNegative(r.items)
      && r.quantity == -ItemsQuantity(ValidItems(rows, true)) && r.quantity < 0 && -r.quantity <= sale.quantity
      && TotalsMatchItems(r) && SignConsistent(r)
      && ReturnsOf(rs + [r], sale) == ReturnsOf(rs, sale) + [r]
  {
    var out := ReturnDecision(rs, id, rows, today, now);
    if out.Appended? {
      var sale := rs[FindById(rs, id).value];
      ReturnEntryShape(|rs| + 1, sale, ValidItems(rows, true), today, now);
      FilterAppend(rs, [out.record], PointsTo(id));
    }
  }

  /** The over-return check is not cumulative: a return that was accepted is accepted again when repeated,
      so the returns against one sale can add up to more than it sold. */
  lemma ReturnNotCumulative(rs: seq<Record>, id: int, rows: seq<ItemRow>, today: string, now: string)
    requires ReturnDecision(rs, id, rows, today, now).Appended?
    ensures var r1 := ReturnDecision(rs, id, rows, today, now).record;
      ReturnDecision(rs + [r1], id, rows, today, now).Appended?
  {
    var r1 := ReturnDecision(rs, id, rows, today, now).record;
    var k := FindById(rs, id).value;
    FindByIdAppend(rs, [r1], id);
    assert (rs + [r1])[k] == rs[k];
  }

  lemma {:induction false} FindByIdAppend(a: seq<Record>, b: seq<Record>, id: int)
    requires FindById(a, id).Some?
    ensures FindById(a + b, id) == FindById(a, id)
  {
    if a[0].id != id {
      assert (a + b)[1..] == a[1..] + b;
      FindByIdAppend(a[1..], b, id);
    }
  }

  // ---------------------------------------------------------------- edit_quantity_price

  /** The list the item dialog edits: the record's items, or for a record without items a single item of
      `abs(quantity)` at the record's unit price. The dialog stores this list back into the record at once. */
  function DialogItems(r: Record): (items: seq<Item>)
    ensures items != []
    ensures r.items != [] ==> items == r.items
  {
    if r.items != [] then r.items else [Item(Abs(r.quantity), r.unitPrice)]
  }

  /** How `do_add` reads one row: a row with an empty stripped text is skipped; otherwise `int()` and then
      `float()` must succeed, or the loop stops with a ValueError. */
  datatype DialogRow = Blank | Unparsable | Parsed(item: Item)

  function ReadDialogRow(row: ItemRow): DialogRow
  {
    var q, p := Strip(row.qty), Strip(row.price);
    if q == [] || p == [] then Blank
    else match (ParseInt(q), ParseDecimal(p))
      case (Some(n), Some(x)) => Parsed(Item(n, x))
      case _ => Unparsable
  }

  /** `do_add` over the rows of the add-items dialog: the items to append, and whether a ValueError stopped
      the loop. Only items with quantity > 0 and price > 0 are added. */
  function DialogAdd(rows: seq<ItemRow>): (r: (seq<Item>, bool))
    ensures AllPositive(r.0) && |r.0| <= |rows|
  {
    if rows == [] then ([], false)
    else match ReadDialogRow(rows[0])
      case Blank => DialogAdd(rows[1..])
      case Unparsable => ([], true)
      case Parsed(it) =>
        var rest := DialogAdd(rows[1..]);
        if it.quantity > 0 && it.unitPrice > 0.0 then ([it] + rest.0, rest.1) else rest
  }

  datatype AddItemsOutcome = ItemsAdded(count: nat) | NoValidItem | InvalidNumber

  /** `save_changes`: the totals become the item sums, negated when the record counts as a return, and the
      unit price becomes the first item's. */
  function Resaved(r: Record): Record
    requires r.items != []
  {
    var q, a := ItemsQuantity(r.items), ItemsAmount(r.items);
    if IsReturn(r) then r.(quantity := -q, totalAmount := -a, unitPrice := r.items[0].unitPrice)
    else r.(quantity := q, totalAmount := a, unitPrice := r.items[0].unitPrice)
  }

  /** Saving an unchanged item list: a sale keeps its totals, but a return whose stored items are already
      negative has both totals negated, so its quantity turns positive. */
  lemma ResaveFlipsReturns(r: Record)
    requires r.items != [] && TotalsMatchItems(r)
    ensures !IsReturn(r) ==> Resaved(r).quantity == r.quantity && Resaved(r).totalAmount == r.totalAmount
    ensures IsReturn(r) ==> Resaved(r).quantity == -r.quantity && Resaved(r).totalAmount == -r.totalAmount
    ensures IsReturn(r) && r.quantity < 0 ==> Resaved(r).quantity > 0 && IsReturn(Resaved(r)) == (r.kind == Some(Return))
  {
  }

  /** Every return the application creates has its sign flipped by an edit that changes nothing. */
  lemma EditingNewReturnFlipsSign(rs: seq<Record>, dateText: string, noteText: string, rows: seq<ItemRow>, now: string)
    requires AddDecision(rs, dateText, noteText, Return, rows, now).Appended?
    ensures var r := AddDecision(rs, dateText, noteText, Return, rows, now).record;
      r.quantity < 0 && DialogItems(r) == r.items && Resaved(r).quantity == -r.quantity && Resaved(r).quantity > 0
  {
    AddDecisionProperties(rs, dateText, noteText, Return, rows, now);
  }

  /** A record without items (a return written by the command-line tool, say) keeps its sign. */
  lemma LegacyReturnKeepsSign(r: Record)
    requires r.items == [] && r.quantity < 0
    ensures Resaved(r.(items := DialogItems(r))).quantity == r.quantity
  {
    ItemsSingleton(Item(Abs(r.quantity), r.unitPrice));
  }

  // ---------------------------------------------------------------- delete_selected

  function IdIs(id: int): Record -> bool
  {
    (x: Record) => x.id == id
  }

  function IdIsNot(id: int): Record -> bool
  {
    (x: Record) => x.id != id
  }

  /** The records after `delete_selected` removed `id` and renumbered the rest. */
  function Renumbered(rs: seq<Record>): (r: seq<Record>)
    ensures |r| == |rs| && forall k :: 0 <= k < |rs| ==> r[k] == rs[k].(id := k + 1)
  {
    seq(|rs|, k requires 0 <= k < |rs| => rs[k].(id := k + 1))
  }

  /** After deletion the ids are 1..N, nothing with the deleted id survives unless renumbered to it, and the
      survivors keep their order and every other field, `original_record_id` included. */
  lemma DeleteKeepsOrderAndLinks(rs: seq<Record>, id: int)
    ensures var out := Renumbered(Filter(rs, IdIsNot(id)));
      |out| == |rs| - |Filter(rs, IdIs(id))|
      && (forall k :: 0 <= k < |out| ==> out[k].id == k + 1)
      && IsSubsequence(ClearIds(out), ClearIds(rs))
  {
    DeleteCount(rs, id);
    var kept := Filter(rs, IdIsNot(id));
    FilterMembers(rs, IdIsNot(id));
    SubsequenceMap(kept, rs);
    assert ClearIds(Renumbered(kept)) == ClearIds(kept);
  }

  lemma {:induction false} DeleteCount(rs: seq<Record>, id: int)
    ensures |Filter(rs, IdIsNot(id))| + |Filter(rs, IdIs(id))| == |rs|
  {
    if rs != [] {
      DeleteCount(rs[1..], id);
    }
  }

  function ClearIds(s: seq<Record>): (r: seq<Record>)
    ensures |r| == |s| && forall k :: 0 <= k < |s| ==> r[k] == s[k].(id := 0)
  {
    seq(|s|, k requires 0 <= k < |s| => s[k].(id := 0))
  }

  lemma {:induction false} SubsequenceMap(sub: seq<Record>, s: seq<Record>)
    requires IsSubsequence(sub, s)
    ensures IsSubsequence(ClearIds(sub), ClearIds(s))
    decreases |s|
  {
    if sub != [] && s != [] {
      assert ClearIds(s)[1..] == ClearIds(s[1..]);
      assert ClearIds(sub)[1..] == ClearIds(sub[1..]);
      if sub[0] == s[0] {
        SubsequenceMap(sub[1..], s[1..]);
      } else {
        SubsequenceMap(sub, s[1..]);
        if ClearIds(sub)[0] == ClearIds(s)[0] {
          SubsequenceDropHead(ClearIds(sub), ClearIds(s[1..]));
        }
      }
    }
  }

  // ---------------------------------------------------------------- the sale / return tree

  /** A top-level row of the record tree with the returns shown under it. */
  datatype TreeNode = TreeNode(record: Record, children: seq<Record>)

  /** Every record that is not a return becomes a top-level row. */
  predicate IsNonReturn(r: Record)
  {
    !IsReturn(r)
  }

  /** A return without a (truthy) `original_record_id` is shown at the top level after the sales. */
  predicate IsOrphan(r: Record)
  {
    IsReturn(r) && !HasParent(r)
  }

  /** `returns_by_parent.get(record['id'], [])` ordered by `created_at`; 0 is never a key. */
  function ChildrenOf(rs: seq<Record>, sale: Record): seq<Record>
  {
    if sale.id != 0 then SortBy(Filter(rs, PointsTo(sale.id)), CreatedAtKey, false) else []
  }

  function SaleNodes(sales: seq<Record>, rs: seq<Record>): (nodes: seq<TreeNode>)
    ensures |nodes| == |sales|
    ensures forall k :: 0 <= k < |sales| ==> nodes[k] == TreeNode(sales[k], ChildrenOf(rs, sales[k]))
  {
    seq(|sales|, k requires 0 <= k < |sales| => TreeNode(sales[k], ChildrenOf(rs, sales[k])))
  }

  function Leaves(orphans: seq<Record>): (nodes: seq<TreeNode>)
    ensures |nodes| == |orphans|
    ensures forall k :: 0 <= k < |orphans| ==> nodes[k] == TreeNode(orphans[k], [])
  {
    seq(|orphans|, k requires 0 <= k < |orphans| => TreeNode(orphans[k], []))
  }

  /** The tree of `update_tree_all` (key `date`) and `update_tree_today` (key `created_at`): the non-returns
      newest first, each with its linked returns, then the orphan returns newest first. */
  function TreeView(rs: seq<Record>, key: Record -> string): seq<TreeNode>
  {
    SaleNodes(SortedSales(rs, key), rs) + Leaves(SortedOrphans(rs, key))
  }

  function SortedSales(rs: seq<Record>, key: Record -> string): seq<Record>
  {
    SortBy(Filter(rs, IsNonReturn), key, true)
  }

  function SortedOrphans(rs: seq<Record>, key: Record -> string): seq<Record>
  {
    SortBy(Filter(rs, IsOrphan), key, true)
  }

  /** Row `j` of the tree: a sale with its children, or past the sales an orphan return without any. */
  lemma TreeRow(rs: seq<Record>, key: Record -> string, j: int)
    requires 0 <= j < |TreeView(rs, key)|
    ensures var sales, orphans := SortedSales(rs, key), SortedOrphans(rs, key);
      |TreeView(rs, key)| == |sales| + |orphans|
      && (j < |sales| ==> TreeView(rs, key)[j] == TreeNode(sales[j], ChildrenOf(rs, sales[j])))
      && (j >= |sales| ==> TreeView(rs, key)[j] == TreeNode(orphans[j - |sales|], []))
  {
  }

  /** The top level shows exactly the non-returns and the orphan returns, the non-returns first. */
  lemma TreeTopLevel(rs: seq<Record>, key: Record -> string, x: Record)
    ensures var t := TreeView(rs, key);
      (exists j :: 0 <= j < |t| && t[j].record == x) <==> x in rs && (IsNonReturn(x) || IsOrphan(x))
  {
    var t := TreeView(rs, key);
    if x in rs && (IsNonReturn(x) || IsOrphan(x)) {
      TreeShowsRecord(rs, key, x);
    }
    if exists j :: 0 <= j < |t| && t[j].record == x {
      var j :| 0 <= j < |t| && t[j].record == x;
      TreeRowRecord(rs, key, j);
    }
  }

  /** Every non-return and every orphan return has a top-level row. */
  lemma TreeShowsRecord(rs: seq<Record>, key: Record -> string, x: Record)
    requires x in rs && (IsNonReturn(x) || IsOrphan(x))
    ensures var t := TreeView(rs, key); exists j :: 0 <= j < |t| && t[j].record == x
  {
    var sales, orphans := SortedSales(rs, key), SortedOrphans(rs, key);
    if IsNonReturn(x) {
      FilterMembers(rs, IsNonReturn);
      SortByMembers(Filter(rs, IsNonReturn), key, true);
      var j :| 0 <= j < |sales| && sales[j] == x;
      TreeRow(rs, key, j);
    } else {
      FilterMembers(rs, IsOrphan);
      SortByMembers(Filter(rs, IsOrphan), key, true);
      var j :| 0 <= j < |orphans| && orphans[j] == x;
      TreeRow(rs, key, |sales| + j);
    }
  }

  /** A top-level row shows a non-return or an orphan return of the store. */
  lemma TreeRowRecord(rs: seq<Record>, key: Record -> string, j: int)
    requires 0 <= j < |TreeView(rs, key)|
    ensures var x := TreeView(rs, key)[j].record; x in rs && (IsNonReturn(x) || IsOrphan(x))
  {
    var sales, orphans := SortedSales(rs, key), SortedOrphans(rs, key);
    TreeRow(rs, key, j);
    FilterMembers(rs, IsNonReturn);
    FilterMembers(rs, IsOrphan);
    SortByMembers(Filter(rs, IsNonReturn), key, true);
    SortByMembers(Filter(rs, IsOrphan), key, true);
    if j < |sales| {
      assert sales[j] in sales;
    } else {
      assert orphans[j - |sales|] in orphans;
    }
  }

  /** The rows before the orphans are the non-returns, ordered newest first by the key; the orphans follow,
      also newest first; every child row is a return linked to its row's record. */
  lemma TreeOrder(rs: seq<Record>, key: Record -> string, j: int)
    requires 0 <= j < |TreeView(rs, key)|
    ensures var t, sales := TreeView(rs, key), SortedSales(rs, key);
      (j < |sales| <==> !IsReturn(t[j].record))
      && (forall c :: c in t[j].children ==> IsReturn(c) && c.originalId == Some(t[j].record.id))
    ensures Sorted(SortedSales(rs, key), key, true) && Sorted(SortedOrphans(rs, key), key, true)
  {
    var sales, orphans := SortedSales(rs, key), SortedOrphans(rs, key);
    TreeRow(rs, key, j);
    FilterMembers(rs, IsNonReturn);
    FilterMembers(rs, IsOrphan);
    SortByMembers(Filter(rs, IsNonReturn), key, true);
    SortByMembers(Filter(rs, IsOrphan), key, true);
    SortBySorted(Filter(rs, IsNonReturn), key, true);
    SortBySorted(Filter(rs, IsOrphan), key, true);
    if j < |sales| {
      assert sales[j] in sales;
      var sale := sales[j];
      if sale.id != 0 {
        FilterMembers(rs, PointsTo(sale.id));
        SortByMembers(Filter(rs, PointsTo(sale.id)), CreatedAtKey, false);
      }
    } else {
      assert orphans[j - |sales|] in orphans;
    }
  }

  /** A return linked to a parent id is shown under a sale exactly when some non-return record carries that
      id; a linked return whose parent is gone (or is itself a return) is not shown at all. */
  lemma LinkedReturnShownIff(rs: seq<Record>, key: Record -> string, x: Record)
    requires x in rs && IsReturn(x) && HasParent(x)
    ensures var t := TreeView(rs, key);
      (exists j :: 0 <= j < |t| && x in t[j].children)
      <==> exists s :: s in rs && !IsReturn(s) && s.id == x.originalId.value
  {
    var t := TreeView(rs, key);
    var p := x.originalId.value;
    var sales := SortedSales(rs, key);
    FilterMembers(rs, IsNonReturn);
    SortByMembers(Filter(rs, IsNonReturn), key, true);
    if exists s :: s in rs && !IsReturn(s) && s.id == p {
      var s :| s in rs && !IsReturn(s) && s.id == p;
      var j :| 0 <= j < |sales| && sales[j] == s;
      TreeRow(rs, key, j);
      FilterMembers(rs, PointsTo(p));
      SortByMembers(Filter(rs, PointsTo(p)), CreatedAtKey, false);
      assert x in t[j].children;
    }
    if exists j :: 0 <= j < |t| && x in t[j].children {
      var j :| 0 <= j < |t| && x in t[j].children;
      TreeRow(rs, key, j);
      TreeOrder(rs, key, j);
      assert sales[j] in sales;
    }
  }

  // ---------------------------------------------------------------- compare_versions

  /** `parse_version`: the '.'-separated components that are all digits, as integers; the others are dropped. */
  function VersionParts(v: string): (parts: seq<nat>)
    ensures |parts| <= |Split(v, '.')|
  {
    DigitParts(Split(v, '.'))
  }

  function DigitParts(cs: seq<string>): (parts: seq<nat>)
    ensures |parts| <= |cs|
  {
    if cs == [] then []
    else if IsDigits(cs[0]) then [DigitsValue(cs[0])] + DigitParts(cs[1..])
    else DigitParts(cs[1..])
  }

  /** `parts.extend([0] * (n - len(parts)))`. */
  function ZeroExtended(p: seq<nat>, n: nat): (r: seq<nat>)
    ensures |r| == (if |p| >= n then |p| else n)
    ensures r[..|p|] == p && forall k :: |p| <= k < |r| ==> r[k] == 0
  {
    if |p| >= n then p else p + seq(n - |p|, _ => 0)
  }

  /** The first differing component decides: 1 if `a`'s is larger, -1 if smaller, 0 if there is none. */
  function CompareParts(a: seq<nat>, b: seq<nat>): (c: int)
    requires |a| == |b|
    ensures -1 <= c <= 1
  {
    if a == [] then 0
    else if a[0] > b[0] then 1
    else if a[0] < b[0] then -1
    else CompareParts(a[1..], b[1..])
  }

  /** The result `compare_versions(v1, v2)` computes. */
  function VersionOrder(v1: string, v2: string): (c: int)
    ensures -1 <= c <= 1
  {
    var p1, p2 := VersionParts(v1), VersionParts(v2);
    var n := if |p1| >= |p2| then |p1| else |p2|;
    CompareParts(ZeroExtended(p1, n), ZeroExtended(p2, n))
  }

  lemma {:induction false} ComparePartsZeroIff(a: seq<nat>, b: seq<nat>)
    requires |a| == |b|
    ensures CompareParts(a, b) == 0 <==> a == b
  {
    if a != [] {
      ComparePartsZeroIff(a[1..], b[1..]);
      if a[0] == b[0] && a[1..] == b[1..] {
        assert a == [a[0]] + a[1..] && b == [b[0]] + b[1..];
      }
    }
  }

  lemma {:induction false} ComparePartsAntisymmetric(a: seq<nat>, b: seq<nat>)
    requires |a| == |b|
    ensures CompareParts(a, b) == -CompareParts(b, a)
  {
    if a != [] {
      ComparePartsAntisymmetric(a[1..], b[1..]);
    }
  }

  /** Swapping the arguments negates the result, and a version equals itself. */
  lemma VersionOrderProperties(v1: string, v2: string)
    ensures VersionOrder(v1, v2) == -VersionOrder(v2, v1)
    ensures VersionOrder(v1, v1) == 0
    ensures VersionOrder(v1, v2) == 0 <==>
      var p1, p2 := VersionParts(v1), VersionParts(v2);
      var n := if |p1| >= |p2| then |p1| else |p2|;
      ZeroExtended(p1, n) == ZeroExtended(p2, n)
  {
    var p1, p2 := VersionParts(v1), VersionParts(v2);
    var n := if |p1| >= |p2| then |p1| else |p2|;
    ComparePartsAntisymmetric(ZeroExtended(p1, n), ZeroExtended(p2, n));
    ComparePartsZeroIff(ZeroExtended(p1, n), ZeroExtended(p2, n));
    ComparePartsZeroIff(ZeroExtended(p1, |p1|), ZeroExtended(p1, |p1|));
  }

  lemma {:induction false} DigitPartsAppend(a: seq<string>, b: seq<string>)
    ensures DigitParts(a + b) == DigitParts(a) + DigitParts(b)
  {
    if a == [] {
      assert a + b == b;
    } else {
      assert (a + b)[0] == a[0] && (a + b)[1..] == a[1..] + b;
      DigitPartsAppend(a[1..], b);
    }
  }

  /** A trailing ".0" changes nothing, and neither does a trailing component that is not all digits. */
  lemma TrailingComponentIgnored(v: string, c: string)
    requires '.' !in c && (c == "0" || !IsDigits(c))
    ensures VersionOrder(v, v + "." + c) == 0
  {
    SplitAppend(v, c, '.');
    SplitWithoutSep(c, '.');
    DigitPartsAppend(Split(v, '.'), [c]);
    assert [c][1..] == [];
    var p := VersionParts(v);
    if c == "0" {
      assert DigitsValue("0") == 0 by {
        assert "0"[..0] == [];
      }
      assert VersionParts(v + "." + c) == p + [0];
      var n := |p| + 1;
      assert ZeroExtended(p, n) == p + [0];
    } else {
      assert VersionParts(v + "." + c) == p;
    }
    VersionOrderProperties(v, v + "." + c);
  }

  // ---------------------------------------------------------------- the dialogs' computations

  /** The search loop `for r in self.records: if r['id'] == record_id: ... break`. */
  method FindIndex(rs: seq<Record>, id: int) returns (index: Option<nat>)
    ensures index == FindById(rs, id)
  {
    var i := 0;
    while i < |rs|
      invariant 0 <= i <= |rs|
      invariant forall k :: 0 <= k < i ==> rs[k].id != id
    {
      if rs[i].id == id {
        return Some(i);
      }
      i := i + 1;
    }
    return None;
  }

  /** `convert_to_return` and `do_return` up to the save: the checks in order, then the new return record. */
  method ReturnForm(rs: seq<Record>, id: int, rows: seq<ItemRow>, today: string, now: string) returns (outcome: Outcome)
    ensures outcome == ReturnDecision(rs, id, rows, today, now)
  {
    var found := FindIndex(rs, id);
    if found.None? {
      return Refused(RecordNotFound);
    }
    var sale := rs[found.value];
    if IsReturn(sale) {
      return Refused(AlreadyReturn);
    }
    var items, totalQty, totalAmount := CollectItems(rows, true);
    if items == [] {
      return Refused(NoValidItems);
    }
    if totalQty > sale.quantity {
      return Refused(ExceedsSale);
    }
    return Appended(ReturnEntry(|rs| + 1, sale, items, today, now));
  }

  /** `DialogAdd` of a suffix, unfolded by one row. */
  lemma DialogAddStep(rows: seq<ItemRow>, i: nat)
    requires i < |rows|
    ensures ReadDialogRow(rows[i]).Blank? ==> DialogAdd(rows[i..]) == DialogAdd(rows[i + 1..])
    ensures ReadDialogRow(rows[i]).Unparsable? ==> DialogAdd(rows[i..]) == ([], true)
    ensures ReadDialogRow(rows[i]).Parsed? ==>
      var it := ReadDialogRow(rows[i]).item;
      DialogAdd(rows[i..]) == if it.quantity > 0 && it.unitPrice > 0.0
                              then ([it] + DialogAdd(rows[i + 1..]).0, DialogAdd(rows[i + 1..]).1)
                              else DialogAdd(rows[i + 1..])
  {
    assert rows[i..][0] == rows[i] && rows[i..][1..] == rows[i + 1..];
  }

  /** The row loop of `do_add`: the accepted items in row order, and whether a row that does not parse
      stopped the loop. */
  method ReadDialogRows(rows: seq<ItemRow>) returns (added: seq<Item>, invalid: bool)
    ensures (added, invalid) == DialogAdd(rows)
  {
    added := [];
    var i := 0;
    assert rows[0..] == rows;
    while i < |rows|
      invariant 0 <= i <= |rows|
      invariant DialogAdd(rows).0 == added + DialogAdd(rows[i..]).0
      invariant DialogAdd(rows).1 == DialogAdd(rows[i..]).1
    {
      DialogAddStep(rows, i);
      match ReadDialogRow(rows[i]) {
        case Blank =>
        case Unparsable =>
          assert added + [] == added;
          return added, true;
        case Parsed(it) =>
          if it.quantity > 0 && it.unitPrice > 0.0 {
            assert added + DialogAdd(rows[i..]).0 == (added + [it]) + DialogAdd(rows[i + 1..]).0;
            added := added + [it];
          }
      }
      i := i + 1;
    }
    assert rows[i..] == [] && added + [] == added;
    return added, false;
  }

  /** The partition loop of the tree views: non-returns, linked returns grouped by parent id, orphans. */
  method PartitionRecords(rs: seq<Record>) returns (sales: seq<Record>, byParent: map<int, seq<Record>>, orphans: seq<Record>)
    ensures sales == Filter(rs, IsNonReturn)
    ensures orphans == Filter(rs, IsOrphan)
    ensures forall p :: p in byParent <==> p != 0 && Filter(rs, PointsTo(p)) != []
    ensures forall p :: p in byParent ==> byParent[p] == Filter(rs, PointsTo(p))
  {
    sales, byParent, orphans := [], map[], [];
    var i := 0;
    while i < |rs|
      invariant 0 <= i <= |rs|
      invariant sales == Filter(rs[..i], IsNonReturn)
      invariant orphans == Filter(rs[..i], IsOrphan)
      invariant GroupedByParent(byParent, rs[..i])
    {
      var r := rs[i];
      FilterSnoc(rs, i, IsNonReturn);
      FilterSnoc(rs, i, IsOrphan);
      GroupStep(byParent, rs, i);
      if IsReturn(r) {
        if HasParent(r) {
          var p := r.originalId.value;
          if p !in byParent {
            byParent := byParent[p := []];
          }
          byParent := byParent[p := byParent[p] + [r]];
        } else {
          orphans := orphans + [r];
        }
      } else {
        sales := sales + [r];
      }
      i := i + 1;
    }
    assert rs[..i] == rs;
    forall p
      ensures (p in byParent <==> p != 0 && Filter(rs, PointsTo(p)) != [])
      ensures p in byParent ==> byParent[p] == Filter(rs, PointsTo(p))
    {
      assert GroupedAt(byParent, rs, p);
    }
  }

  /** `children_map`: each parent id that some linked return points to, with those returns in order. */
  ghost predicate GroupedByParent(g: map<int, seq<Record>>, rs: seq<Record>)
  {
    forall p :: GroupedAt(g, rs, p)
  }

  ghost predicate GroupedAt(g: map<int, seq<Record>>, rs: seq<Record>, p: int)
  {
    (p in g <==> p != 0 && Filter(rs, PointsTo(p)) != [])
    && (p in g ==> g[p] == Filter(rs, PointsTo(p)))
  }

  /** One step of the grouping: the map updated by the next record groups the longer prefix. */
  lemma GroupStep(g: map<int, seq<Record>>, rs: seq<Record>, i: nat)
    requires i < |rs| && GroupedByParent(g, rs[..i])
    ensures var r := rs[i];
      if IsReturn(r) && HasParent(r) then
        var q := r.originalId.value;
        var g' := if q in g then g else g[q := []];
        GroupedByParent(g'[q := g'[q] + [r]], rs[..i + 1])
      else GroupedByParent(g, rs[..i + 1])
  {
    var r, pre := rs[i], rs[..i + 1];
    if IsReturn(r) && HasParent(r) {
      var q := r.originalId.value;
      var g' := if q in g then g else g[q := []];
      var h := g'[q := g'[q] + [r]];
      forall p
        ensures GroupedAt(h, pre, p)
      {
        FilterSnoc(rs, i, PointsTo(p));
        assert GroupedAt(g, rs[..i], p);
      }
    } else {
      forall p
        ensures GroupedAt(g, pre, p)
      {
        FilterSnoc(rs, i, PointsTo(p));
        assert GroupedAt(g, rs[..i], p);
      }
    }
  }

  /** The `daily_stats` loop of `calculate_stats`: the table built record by record, and its keys in the
      order they first appear. */
  method DailyBreakdown(m: seq<Record>) returns (daily: map<string, DayStats>, seen: seq<string>)
    ensures daily == Breakdown(m) && seen == FirstSeenDates(m)
  {
    daily := map[];
    seen := [];
    var i := 0;
    while i < |m|
      invariant 0 <= i <= |m|
      invariant daily == Breakdown(m[..i]) && seen == FirstSeenDates(m[..i])
    {
      assert m[..i + 1][..i] == m[..i];
      FirstSeenDatesKeys(m[..i]);
      var r := m[i];
      if r.date !in daily {
        daily := daily[r.date := NoDayStats];
        seen := seen + [r.date];
      }
      daily := daily[r.date := AddToDay(daily[r.date], r)];
      i := i + 1;
    }
    assert m[..i] == m;
  }

  /** `compare_versions`: pad both component lists with zeros to the same length, then compare pairwise. */
  method CompareVersions(v1: string, v2: string) returns (c: int)
    ensures c == VersionOrder(v1, v2)
  {
    var parts1, parts2 := VersionParts(v1), VersionParts(v2);
    var n := if |parts1| >= |parts2| then |parts1| else |parts2|;
    parts1 := parts1 + seq(n - |parts1|, _ => 0);
    parts2 := parts2 + seq(n - |parts2|, _ => 0);
    assert parts1 == ZeroExtended(VersionParts(v1), n) && parts2 == ZeroExtended(VersionParts(v2), n);
    var i := 0;
    while i < n
      invariant 0 <= i <= n == |parts1| == |parts2|
      invariant VersionOrder(v1, v2) == CompareParts(parts1[i..], parts2[i..])
    {
      assert parts1[i..][1..] == parts1[i + 1..] && parts2[i..][1..] == parts2[i + 1..];
      if parts1[i] > parts2[i] {
        return 1;
      } else if parts1[i] < parts2[i] {
        return -1;
      }
      i := i + 1;
    }
    return 0;
  }


  // ---------------------------------------------------------------- the application's ledger

  class AccountingApp {
    var records: seq<Record>
    /** The contents of the records file as last written by `save_records`. */
    ghost var persisted: seq<Record>

    constructor(loaded: seq<Record>)
      ensures records == loaded && persisted == loaded
    {
      records := loaded;
      persisted := loaded;
    }

    /** `add_record`: a refused form changes nothing and saves nothing; an accepted one appends one record
        and saves. */
    method AddRecord(dateText: string, noteText: string, kind: Kind, rows: seq<ItemRow>, now: string)
      returns (outcome: Outcome)
      modifies this
      ensures outcome == AddDecision(old(records), dateText, noteText, kind, rows, now)
      ensures outcome.Appended? ==> records == old(records) + [outcome.record] && persisted == records
      ensures outcome.Refused? ==> records == old(records) && persisted == old(persisted)
    {
      var date := Strip(dateText);
      var note := Strip(noteText);
      if date == [] {
        return Refused(MissingDate);
      }
      var valid, totalQty, totalAmount := CollectItems(rows, false);
      if valid == [] {
        return Refused(NoValidItems);
      }
      var r := BuildEntry(|records| + 1, date, note, kind, valid, totalQty, totalAmount, now);
      records := records + [r];
      persisted := records;
      return Appended(r);
    }

    /** `convert_to_return` followed by `do_return` for the selected id and the return form. */
    method ConvertToReturn(id: int, rows: seq<ItemRow>, today: string, now: string) returns (outcome: Outcome)
      modifies this
      ensures outcome == ReturnDecision(old(records), id, rows, today, now)
      ensures outcome.Appended? ==> records == old(records) + [outcome.record] && persisted == records
      ensures outcome.Refused? ==> records == old(records) && persisted == old(persisted)
    {
      outcome := ReturnForm(records, id, rows, today, now);
      if outcome.Appended? {
        records := records + [outcome.record];
        persisted := records;
      }
    }

    /** `edit_note` / `save_note`: the stripped text replaces the note of the first record with the id. */
    method EditNote(id: int, text: string) returns (found: bool)
      modifies this
      ensures found <==> FindById(old(records), id).Some?
      ensures found ==>
        var k := FindById(old(records), id).value;
        records == old(records)[k := old(records)[k].(note := Strip(text))] && persisted == records
      ensures !found ==> records == old(records) && persisted == old(persisted)
    {
      var k := FindIndex(records, id);
      if k.None? {
        return false;
      }
      records := records[k.value := records[k.value].(note := Strip(text))];
      persisted := records;
      return true;
    }

    /** Opening `edit_quantity_price`: the dialog's list is stored into the record at once, in memory only. */
    method BeginItemEdit(id: int) returns (index: Option<nat>)
      modifies this
      ensures index == FindById(old(records), id)
      ensures index.Some? ==>
        records == old(records)[index.value := old(records)[index.value].(items := DialogItems(old(records)[index.value]))]
      ensures index.None? ==> records == old(records)
      ensures persisted == old(persisted)
    {
      index := FindIndex(records, id);
      if index.Some? {
        var k := index.value;
        records := records[k := records[k].(items := DialogItems(records[k]))];
      }
    }

    /** `delete_item`: the selected entry leaves the shared list, so the record changes in memory at once. */
    method DeleteEditedItem(index: nat, position: nat)
      requires index < |records| && position < |records[index].items|
      modifies this
      ensures var r := old(records)[index];
        records == old(records)[index := r.(items := r.items[..position] + r.items[position + 1..])]
      ensures persisted == old(persisted)
    {
      var r := records[index];
      records := records[index := r.(items := r.items[..position] + r.items[position + 1..])];
    }

    /** `do_add`: the valid rows go to the end of the shared list; a row that does not parse stops the
        loop, and what was accepted before it stays. */
    method AddEditedItems(index: nat, rows: seq<ItemRow>) returns (outcome: AddItemsOutcome)
      requires index < |records|
      modifies this
      ensures var r := old(records)[index];
        records == old(records)[index := r.(items := r.items + DialogAdd(rows).0)]
      ensures outcome == (if DialogAdd(rows).1 then InvalidNumber
                          else if DialogAdd(rows).0 != [] then ItemsAdded(|DialogAdd(rows).0|)
                          else NoValidItem)
      ensures persisted == old(persisted)
    {
      var added, invalid := ReadDialogRows(rows);
      var r := records[index];
      records := records[index := r.(items := r.items + added)];
      if invalid {
        return InvalidNumber;
      }
      if added != [] {
        return ItemsAdded(|added|);
      }
      return NoValidItem;
    }

    /** `save_changes`: an empty list is refused; otherwise the totals are recomputed and the file saved. */
    method SaveItemEdit(index: nat) returns (refusal: Option<Refusal>)
      requires index < |records|
      modifies this
      ensures old(records)[index].items == [] ==>
        refusal == Some(EmptyItemList) && records == old(records) && persisted == old(persisted)
      ensures old(records)[index].items != [] ==>
        refusal == None && records == old(records)[index := Resaved(old(records)[index])] && persisted == records
    {
      var r := records[index];
      if r.items == [] {
        return Some(EmptyItemList);
      }
      var q, a := ItemsQuantity(r.items), ItemsAmount(r.items);
      if IsReturn(r) {
        r := r.(quantity := -q, totalAmount := -a);
      } else {
        r := r.(quantity := q, totalAmount := a);
      }
      r := r.(unitPrice := r.items[0].unitPrice);
      records := records[index := r];
      persisted := records;
      return None;
    }

    /** `delete_selected`: every record with the id goes, then the survivors are renumbered 1..N in place. */
    method DeleteSelected(id: int)
      modifies this
      ensures records == Renumbered(Filter(old(records), IdIsNot(id))) && persisted == records
    {
      records := Filter(records, IdIsNot(id));
      ghost var kept := records;
      var i := 0;
      while i < |records|
        invariant 0 <= i <= |records| == |kept|
        invariant forall k :: 0 <= k < i ==> records[k] == kept[k].(id := k + 1)
        invariant forall k :: i <= k < |records| ==> records[k] == kept[k]
      {
        records := records[i := records[i].(id := i + 1)];
        i := i + 1;
      }
      persisted := records;
    }

    /** `calculate_stats`: the month's summary, the `daily_stats` table and its keys in the order they are
        listed. */
    method MonthlyStats(year: string, month: string) returns (summary: Summary, daily: map<string, DayStats>, days: seq<string>)
      ensures var m := WithDatePrefix(records, YearMonth(year, month));
        summary == Summarize(m) && daily == Breakdown(m) && days == DayOrder(m)
    {
      var m := WithDatePrefix(records, YearMonth(year, month));
      summary := Summarize(m);
      var seen;
      daily, seen := DailyBreakdown(m);
      days := SortBy(seen, Identity, false);
    }
  }
}
