/** The ledger's records: customers, transactions (a credit with item lines
    or a payment with a method), and the totals derived from them. Money,
    quantities and prices are exact reals; timestamps are milliseconds. */
module Domain {
  import opened Common

  datatype Customer = Customer(id: string, name: string, phone: string, address: string, createdAt: int)

  /** A normalised item line of a credit. */
  datatype Item = Item(name: string, qty: real, price: real)

  /** An item line as a caller passes it; `None` is a missing field. */
  datatype ItemInput = ItemInput(name: Option<string>, qty: Option<real>, price: Option<real>)

  /** What distinguishes the two kinds of transaction (`type` in the records). */
  datatype TxnKind = Credit(items: seq<Item>) | Payment(paymentMethod: string, note: string)

  datatype Txn = Txn(id: string, customerId: string, dateISO: int, amount: real, kind: TxnKind)

  /** The ids `find` compares. */
  function CustomerId(c: Customer): string { c.id }
  function TxnId(t: Txn): string { t.id }

  /** The `{ credit, received, balance }` object. */
  datatype Totals = Totals(credit: real, received: real, balance: real)

  /** The record's `type` field. */
  function TypeName(t: Txn): string {
    if t.kind.Credit? then "credit" else "payment"
  }

  /** `{ name: i.name || "Item", qty: Number(i.qty || 0), price: Number(i.price || 0) }`. */
  function NormalizeItem(i: ItemInput): Item {
    Item(if i.name == None || i.name == Some("") then "Item" else i.name.value,
         i.qty.GetOr(0.0), i.price.GetOr(0.0))
  }

  function NormalizeItems(items: seq<ItemInput>): (r: seq<Item>)
    ensures |r| == |items|
    ensures forall k :: 0 <= k < |items| ==> r[k] == NormalizeItem(items[k])
  {
    seq(|items|, k requires 0 <= k < |items| => NormalizeItem(items[k]))
  }

  /** Normalisation names every line (a missing or empty name becomes
      "Item"), keeps the quantities and prices given, and reads missing ones
      as 0. */
  lemma NormalizeItemsMeaning(items: seq<ItemInput>, k: nat)
    requires k < |items|
    ensures NormalizeItems(items)[k].name != ""
    ensures items[k].name.Some? && items[k].name.value != "" ==> NormalizeItems(items)[k].name == items[k].name.value
    ensures items[k].qty.None? ==> NormalizeItems(items)[k].qty == 0.0
    ensures items[k].price.None? ==> NormalizeItems(items)[k].price == 0.0
    ensures items[k].qty.Some? ==> NormalizeItems(items)[k].qty == items[k].qty.value
    ensures items[k].price.Some? ==> NormalizeItems(items)[k].price == items[k].price.value
  {
  }

  /** `items.reduce((s, i) => s + i.qty * i.price, 0)`. */
  function ItemsTotal(items: seq<Item>): real {
    if items == [] then 0.0 else items[0].qty * items[0].price + ItemsTotal(items[1..])
  }

  /** The total of two groups of lines is the sum of their totals. */
  lemma {:induction false} ItemsTotalAppend(a: seq<Item>, b: seq<Item>)
    ensures ItemsTotal(a + b) == ItemsTotal(a) + ItemsTotal(b)
  {
    if a == [] {
      assert a + b == b;
    } else {
      assert (a + b)[1..] == a[1..] + b;
      ItemsTotalAppend(a[1..], b);
    }
  }

  /** Lines with no negative quantity or price never total below zero, and
      total exactly zero when each line has a zero quantity or price: such a
      credit (or one with no lines) is refused. */
  lemma {:induction false} ItemsTotalZeroLines(items: seq<Item>)
    requires forall k :: 0 <= k < |items| ==> items[k].qty >= 0.0 && items[k].price >= 0.0
    ensures ItemsTotal(items) >= 0.0
    ensures (forall k :: 0 <= k < |items| ==> items[k].qty == 0.0 || items[k].price == 0.0) ==> ItemsTotal(items) == 0.0
  {
    if items != [] {
      ItemsTotalZeroLines(items[1..]);
      assert items[0].qty * items[0].price >= 0.0;
    }
  }

  /** `arr.reduce((s, t) => s + Number(t.amount), 0)`. */
  function SumAmounts(ts: seq<Txn>): real {
    if ts == [] then 0.0 else ts[0].amount + SumAmounts(ts[1..])
  }

  /** Sums over two groups of transactions add up. */
  lemma {:induction false} SumAmountsAppend(a: seq<Txn>, b: seq<Txn>)
    ensures SumAmounts(a + b) == SumAmounts(a) + SumAmounts(b)
  {
    if a == [] {
      assert a + b == b;
    } else {
      assert (a + b)[1..] == a[1..] + b;
      SumAmountsAppend(a[1..], b);
    }
  }
}
