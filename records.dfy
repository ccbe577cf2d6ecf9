/** The ledger's record: one JSON object of the records file, as the GUI, the command-line tool and the
    importers write it. */
module Records {
  import opened Util
  import opened Strings

  /** The `type` field: "sale" or "return". Records written by the command-line tool and the importers
      have no `type` field (None). */
  datatype Kind = Sale | Return

  /** One line item: a quantity of sets at a unit price. Return items carry negative quantities. */
  datatype Item = Item(quantity: int, unitPrice: real)

  datatype Record = Record(
    id: int,
    date: string,
    quantity: int,
    unitPrice: real,
    totalAmount: real,
    note: string,
    kind: Option<Kind>,
    items: seq<Item>,             // [] when the record has no `items` field
    originalId: Option<int>,      // `original_record_id`, set on partial returns
    createdAt: string)

  /** The rule every component uses to recognise a return: `type == 'return' or quantity < 0`. */
  predicate IsReturn(r: Record)
  {
    r.kind == Some(Return) || r.quantity < 0
  }

  /** The statistics' notion of a sale: `type != 'return' and quantity > 0`. */
  predicate IsSale(r: Record)
  {
    r.kind != Some(Return) && r.quantity > 0
  }

  /** Sales and returns never overlap; the records that are neither have quantity 0 and no return type. */
  lemma SaleReturnDisjoint(r: Record)
    ensures !(IsSale(r) && IsReturn(r))
    ensures !IsSale(r) && !IsReturn(r) <==> r.quantity == 0 && r.kind != Some(Return)
  {
  }

  /** The truthiness test `if record.get('original_record_id'):` — present and non-zero. */
  predicate HasParent(r: Record)
  {
    r.originalId.Some? && r.originalId.value != 0
  }

  function ItemsQuantity(items: seq<Item>): int
  {
    if items == [] then 0 else items[0].quantity + ItemsQuantity(items[1..])
  }

  function ItemsAmount(items: seq<Item>): real
  {
    if items == [] then 0.0 else LineAmount(items[0]) + ItemsAmount(items[1..])
  }

  /** The stored totals are the line-item sums. */
  predicate TotalsMatchItems(r: Record)
  {
    r.quantity == ItemsQuantity(r.items) && r.totalAmount == ItemsAmount(r.items)
  }

  /** A sale's figures are non-negative and a return's non-positive. */
  predicate SignConsistent(r: Record)
  {
    (IsReturn(r) ==> r.quantity <= 0 && r.totalAmount <= 0.0)
    && (!IsReturn(r) ==> r.quantity >= 0 && r.totalAmount >= 0.0)
    && (r.quantity == 0 ==> r.totalAmount == 0.0)
  }

  predicate AllPositive(items: seq<Item>)
  {
    forall k :: 0 <= k < |items| ==> items[k].quantity > 0 && items[k].unitPrice > 0.0
  }

  predicate AllNegative(items: seq<Item>)
  {
    forall k :: 0 <= k < |items| ==> items[k].quantity < 0 && items[k].unitPrice > 0.0
  }

  /** The items with their quantities negated, as a return stores them. */
  function Negated(items: seq<Item>): (r: seq<Item>)
    ensures |r| == |items|
    ensures forall k :: 0 <= k < |items| ==> r[k] == Item(-items[k].quantity, items[k].unitPrice)
  {
    if items == [] then [] else [Item(-items[0].quantity, items[0].unitPrice)] + Negated(items[1..])
  }

  lemma {:induction false} NegatedSums(items: seq<Item>)
    ensures ItemsQuantity(Negated(items)) == -ItemsQuantity(items)
    ensures ItemsAmount(Negated(items)) == -ItemsAmount(items)
  {
    if items != [] {
      NegatedSums(items[1..]);
      assert Negated(items)[1..] == Negated(items[1..]);
    }
  }

  lemma {:induction false} PositiveSums(items: seq<Item>)
    requires AllPositive(items) && items != []
    ensures ItemsQuantity(items) >= |items| && ItemsAmount(items) > 0.0
  {
    if |items| > 1 {
      PositiveSums(items[1..]);
    }
  }

  /** `quantity * unit_price` of one item. */
  function LineAmount(x: Item): real
  {
    x.quantity as real * x.unitPrice
  }

  /** `quantity * unit_price` for a quantity that is not yet truncated to an integer. */
  function Total(q: real, p: real): real
  {
    q * p
  }

  lemma ItemsSingleton(x: Item)
    ensures ItemsQuantity([x]) == x.quantity && ItemsAmount([x]) == LineAmount(x)
  {
    assert [x][1..] == [];
  }

  lemma {:induction false} ItemsAppend(a: seq<Item>, b: seq<Item>)
    ensures ItemsQuantity(a + b) == ItemsQuantity(a) + ItemsQuantity(b)
    ensures ItemsAmount(a + b) == ItemsAmount(a) + ItemsAmount(b)
  {
    if a == [] {
      assert a + b == b;
    } else {
      assert (a + b)[1..] == a[1..] + b;
      ItemsAppend(a[1..], b);
    }
  }

  /** The index of the first record with the given id (the GUI's search loop with `break`). */
  function FindById(rs: seq<Record>, id: int): (r: Option<nat>)
    ensures r.Some? ==> r.value < |rs| && rs[r.value].id == id
                        && forall k :: 0 <= k < r.value ==> rs[k].id != id
    ensures r.None? ==> forall k :: 0 <= k < |rs| ==> rs[k].id != id
  {
    if rs == [] then None
    else if rs[0].id == id then Some(0)
    else match FindById(rs[1..], id)
      case Some(k) => Some(k + 1)
      case None => None
  }

  function DateIs(date: string): Record -> bool
  {
    (x: Record) => x.date == date
  }

  function DateStartsWith(prefix: string): Record -> bool
  {
    (x: Record) => prefix <= x.date
  }

  /** The records of one date, in store order: `[r for r in records if r['date'] == date]`. */
  function OnDate(rs: seq<Record>, date: string): (r: seq<Record>)
    ensures forall x :: x in r <==> x in rs && x.date == date
    ensures forall x :: multiset(r)[x] == if x.date == date then multiset(rs)[x] else 0
    ensures IsSubsequence(r, rs)
  {
    FilterExact(rs, DateIs(date));
    Filter(rs, DateIs(date))
  }

  /** The records whose date string starts with `prefix`: `r['date'].startswith(prefix)`. */
  function WithDatePrefix(rs: seq<Record>, prefix: string): (r: seq<Record>)
    ensures forall x :: x in r <==> x in rs && prefix <= x.date
    ensures forall x :: multiset(r)[x] == if prefix <= x.date then multiset(rs)[x] else 0
    ensures IsSubsequence(r, rs)
  {
    FilterExact(rs, DateStartsWith(prefix));
    Filter(rs, DateStartsWith(prefix))
  }

  /** Sort keys: `lambda x: x['date']` and `lambda x: x.get('created_at', '')`. */
  function DateKey(r: Record): string
  {
    r.date
  }

  function CreatedAtKey(r: Record): string
  {
    r.createdAt
  }

  // ---------------------------------------------------------------- imported rows

  /** A spreadsheet row the importers accepted, before it receives its id and creation time. */
  datatype Imported = Imported(date: string, quantity: int, unitPrice: real, totalAmount: real, note: string)

  /** The ledger record an imported row becomes: no `type`, no items, no link. */
  function FromImported(x: Imported, id: int, now: string): Record
  {
    Record(id, x.date, x.quantity, x.unitPrice, x.totalAmount, x.note, None, [], None, now)
  }

  /** The successive readings of `datetime.now()` during one import: reading `i` is the creation time of
      the `i`-th imported record, since the importers read the clock once per record. */
  type Clock = nat -> string

  /** The imported rows numbered `start`, `start + 1`, ... in input order, row `i` created at reading `i`. */
  function WithIds(start: int, xs: seq<Imported>, clock: Clock): (r: seq<Record>)
    ensures |r| == |xs|
    ensures forall i :: 0 <= i < |xs| ==> r[i] == FromImported(xs[i], start + i, clock(i))
  {
    if xs == [] then [] else WithIds(start, xs[..|xs| - 1], clock) + [FromImported(xs[|xs| - 1], start + |xs| - 1, clock(|xs| - 1))]
  }

  /** Ids 1..N in store order. */
  predicate Numbered(rs: seq<Record>)
  {
    forall k :: 0 <= k < |rs| ==> rs[k].id == k + 1
  }

  /** Appending imported rows numbered from `len(records) + 1` keeps the ids contiguous. */
  lemma ImportKeepsNumbering(rs: seq<Record>, xs: seq<Imported>, clock: Clock)
    requires Numbered(rs)
    ensures Numbered(rs + WithIds(|rs| + 1, xs, clock))
  {
    var all := rs + WithIds(|rs| + 1, xs, clock);
    forall k | 0 <= k < |all|
      ensures all[k].id == k + 1
    {
      if k >= |rs| {
        assert all[k] == WithIds(|rs| + 1, xs, clock)[k - |rs|];
      }
    }
  }
}
