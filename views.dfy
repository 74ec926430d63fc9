/** The derived views of the ledger (the `useMemo` values of the hook and of
    the inline application): the search filter, the selected customer, that
    customer's transactions newest first, split by kind, their totals, the
    per-customer balance of the customer list and the "last 5" slices. */
module Views {
  import opened Common
  import opened Text
  import opened Domain

  // ---------------------------------------------------------------- customers

  /** Whether customer `c` matches the normalised query `q`. */
  predicate MatchesQuery(c: Customer, q: string) {
    Includes(Lower(c.name), q) || Includes(c.phone, q)
  }

  /** The test "matches `q`". */
  function Matching(q: string): Customer -> bool {
    c => MatchesQuery(c, q)
  }

  /** `filteredCustomers`: a blank query lists every customer; otherwise the
      customers whose lower-cased name or whose phone contains the trimmed,
      lower-cased query, in store order. */
  function FilteredCustomers(customers: seq<Customer>, search: string): seq<Customer> {
    var q := Lower(Trim(search));
    if q == "" then customers else Filter(customers, Matching(q))
  }

  /** A blank query changes nothing; any other query keeps exactly the
      matching customers, and keeps them in store order: the k-th listed
      customer is the store's customer at position `pos[k]`, and the
      positions increase. */
  lemma FilteredCustomersMeaning(customers: seq<Customer>, search: string, c: Customer) returns (pos: seq<nat>)
    ensures Trim(search) == "" ==> FilteredCustomers(customers, search) == customers
    ensures Trim(search) != "" ==>
      (c in FilteredCustomers(customers, search) <==> c in customers && MatchesQuery(c, Lower(Trim(search))))
    ensures |pos| == |FilteredCustomers(customers, search)|
    ensures forall k :: 0 <= k < |pos| ==> pos[k] < |customers| && customers[pos[k]] == FilteredCustomers(customers, search)[k]
    ensures forall k, l :: 0 <= k < l < |pos| ==> pos[k] < pos[l]
  {
    var q := Lower(Trim(search));
    if Trim(search) != "" {
      assert |q| > 0;
      FilterMembership(customers, Matching(q), c);
      pos := FilterSubsequence(customers, Matching(q));
    } else {
      pos := seq(|customers|, k requires 0 <= k < |customers| => k);
    }
  }

  /** `customers.find((c) => c.id === id)`: `Find` on customer ids. */
  function FindCustomer(customers: seq<Customer>, id: string): Option<Customer> {
    Find(customers, CustomerId, id)
  }

  /** `current`: the selected customer, or null when nothing (or an unknown
      id) is selected. */
  function Current(customers: seq<Customer>, selectedId: Option<string>): (r: Option<Customer>)
    ensures r.Some? <==> selectedId.Some? && exists k :: 0 <= k < |customers| && customers[k].id == selectedId.value
    ensures r.Some? ==> r.value in customers && Some(r.value.id) == selectedId
  {
    if selectedId.None? then None else FindCustomer(customers, selectedId.value)
  }

  // ---------------------------------------------------------------- ordering

  /** Newest first. */
  predicate SortedDesc(ts: seq<Txn>) {
    forall i, j :: 0 <= i < j < |ts| ==> ts[i].dateISO >= ts[j].dateISO
  }

  /** Places `x` before the first transaction that is not newer than it. */
  function Insert(x: Txn, ts: seq<Txn>): (r: seq<Txn>)
    ensures |r| == |ts| + 1
  {
    if ts == [] || x.dateISO >= ts[0].dateISO then [x] + ts
    else [ts[0]] + Insert(x, ts[1..])
  }

  /** Inserting adds exactly `x`. */
  lemma {:induction false} InsertPermutes(x: Txn, ts: seq<Txn>)
    ensures multiset(Insert(x, ts)) == multiset(ts) + multiset{x}
  {
    if !(ts == [] || x.dateISO >= ts[0].dateISO) {
      InsertPermutes(x, ts[1..]);
      assert ts == [ts[0]] + ts[1..];
    }
  }

  /** Inserting into a newest-first list keeps it newest first; the head is
      `x` or the old head. */
  lemma {:induction false} InsertSorted(x: Txn, ts: seq<Txn>)
    requires SortedDesc(ts)
    ensures SortedDesc(Insert(x, ts))
    ensures Insert(x, ts)[0] == x || (ts != [] && Insert(x, ts)[0] == ts[0])
  {
    var r := Insert(x, ts);
    if ts == [] || x.dateISO >= ts[0].dateISO {
      forall i, j | 0 <= i < j < |r| ensures r[i].dateISO >= r[j].dateISO {
        if i > 0 {
          assert r[i] == ts[i - 1] && r[j] == ts[j - 1];
        }
      }
    } else {
      var rest := ts[1..];
      var tail := Insert(x, rest);
      InsertSorted(x, rest);
      assert tail[0].dateISO <= ts[0].dateISO;
      forall i, j | 0 <= i < j < |r| ensures r[i].dateISO >= r[j].dateISO {
        assert r[j] == tail[j - 1];
        if i == 0 {
          assert tail[0].dateISO >= tail[j - 1].dateISO;
        } else {
          assert r[i] == tail[i - 1];
        }
      }
    }
  }

  /** A non-empty sequence holds its head and its tail. */
  lemma MultisetCons(ts: seq<Txn>)
    requires ts != []
    ensures multiset(ts) == multiset(ts[1..]) + multiset{ts[0]}
  {
    assert ts == [ts[0]] + ts[1..];
  }

  /** `.sort((a, b) => new Date(b.dateISO) - new Date(a.dateISO))`: newest
      first, a permutation of the input. */
  function SortByDateDesc(ts: seq<Txn>): (r: seq<Txn>)
    ensures SortedDesc(r)
    ensures multiset(r) == multiset(ts)
  {
    if ts == [] then [] else
      var rest := SortByDateDesc(ts[1..]);
      InsertSorted(ts[0], rest);
      InsertPermutes(ts[0], rest);
      MultisetCons(ts);
      Insert(ts[0], rest)
  }

  /** The test "dated `d`". */
  function DatedAt(d: int): Txn -> bool {
    (t: Txn) => t.dateISO == d
  }

  /** Inserting keeps the order among transactions of one date: `x` goes
      before every other transaction of its own date. */
  lemma {:induction false} InsertStable(x: Txn, ts: seq<Txn>, d: int)
    ensures Filter(Insert(x, ts), DatedAt(d)) == Filter([x] + ts, DatedAt(d))
  {
    if !(ts == [] || x.dateISO >= ts[0].dateISO) {
      var y, rest, p := ts[0], ts[1..], DatedAt(d);
      var keptX: seq<Txn> := if p(x) then [x] else [];
      var keptY: seq<Txn> := if p(y) then [y] else [];
      InsertStable(x, rest, d);
      FilterCons(y, Insert(x, rest), p);
      FilterCons(x, rest, p);
      FilterCons(x, ts, p);
      assert Filter(ts, p) == keptY + Filter(rest, p);
      SwapEmpty(keptX, keptY, Filter(rest, p));
    }
  }

  /** The sort is stable: transactions with equal dates keep their relative
      order (`Array.prototype.sort` is stable). */
  lemma {:induction false} SortStable(ts: seq<Txn>, d: int)
    ensures Filter(SortByDateDesc(ts), DatedAt(d)) == Filter(ts, DatedAt(d))
  {
    if ts != [] {
      var rest := ts[1..];
      assert ts == [ts[0]] + rest;
      SortStable(rest, d);
      InsertStable(ts[0], SortByDateDesc(rest), d);
      FilterCons(ts[0], SortByDateDesc(rest), DatedAt(d));
      FilterCons(ts[0], rest, DatedAt(d));
    }
  }

  // ---------------------------------------------------------------- current customer's transactions

  /** The test "belongs to the selected customer": `t.customerId === selectedId`. */
  function SelectedBy(selectedId: Option<string>): Txn -> bool {
    (t: Txn) => selectedId == Some(t.customerId)
  }

  /** The test "is a credit": `t.type === "credit"`. */
  predicate IsCredit(t: Txn) {
    t.kind.Credit?
  }

  /** The test "is a payment": `t.type === "payment"`. */
  predicate IsPayment(t: Txn) {
    t.kind.Payment?
  }

  /** `txns.filter((t) => t.customerId === selectedId)`. */
  function OfCustomer(txns: seq<Txn>, selectedId: Option<string>): seq<Txn> {
    Filter(txns, SelectedBy(selectedId))
  }

  /** `currentTxns`. */
  function CurrentTxns(txns: seq<Txn>, selectedId: Option<string>): seq<Txn> {
    SortByDateDesc(OfCustomer(txns, selectedId))
  }

  /** `creditTxns`. */
  function CreditTxns(current: seq<Txn>): seq<Txn> {
    Filter(current, IsCredit)
  }

  /** `paymentTxns`. */
  function PaymentTxns(current: seq<Txn>): seq<Txn> {
    Filter(current, IsPayment)
  }

  /** `currentTxns` holds exactly the selected customer's transactions (each
      as often as it is stored), newest first, ties in store order. */
  lemma CurrentTxnsMeaning(txns: seq<Txn>, selectedId: Option<string>, d: int)
    ensures SortedDesc(CurrentTxns(txns, selectedId))
    ensures multiset(CurrentTxns(txns, selectedId)) == multiset(OfCustomer(txns, selectedId))
    ensures forall t :: t in CurrentTxns(txns, selectedId) <==> t in txns && selectedId == Some(t.customerId)
    ensures Filter(CurrentTxns(txns, selectedId), DatedAt(d)) == Filter(OfCustomer(txns, selectedId), DatedAt(d))
  {
    SortStable(OfCustomer(txns, selectedId), d);
    forall t ensures t in CurrentTxns(txns, selectedId) <==> t in txns && selectedId == Some(t.customerId) {
      assert t in CurrentTxns(txns, selectedId) <==> t in multiset(CurrentTxns(txns, selectedId));
      FilterMembership(txns, SelectedBy(selectedId), t);
    }
  }

  /** Every transaction is a credit or a payment, so the two lists together
      hold each transaction exactly as often as the input does. */
  lemma {:induction false} KindsPartition(current: seq<Txn>)
    ensures multiset(CreditTxns(current)) + multiset(PaymentTxns(current)) == multiset(current)
  {
    if current != [] {
      var t, rest := current[0], current[1..];
      assert current == [t] + rest;
      KindsPartition(rest);
      FilterCons(t, rest, IsCredit);
      FilterCons(t, rest, IsPayment);
    }
  }

  /** The credits and the payments split the current list: every transaction
      lands in exactly one of them, and each keeps the newest-first order. */
  lemma SplitByKind(current: seq<Txn>)
    ensures multiset(CreditTxns(current)) + multiset(PaymentTxns(current)) == multiset(current)
    ensures forall t :: t in CreditTxns(current) <==> t in current && t.kind.Credit?
    ensures forall t :: t in PaymentTxns(current) <==> t in current && t.kind.Payment?
    ensures SortedDesc(current) ==> SortedDesc(CreditTxns(current)) && SortedDesc(PaymentTxns(current))
  {
    KindsPartition(current);
    FilterMembers(current, IsCredit);
    FilterMembers(current, IsPayment);
    if SortedDesc(current) {
      FilterKeepsSorted(current, IsCredit);
      FilterKeepsSorted(current, IsPayment);
    }
  }

  /** A sub-list of a newest-first list is newest first. */
  lemma FilterKeepsSorted(ts: seq<Txn>, keep: Txn -> bool)
    requires SortedDesc(ts)
    ensures SortedDesc(Filter(ts, keep))
  {
    var pos := FilterSubsequence(ts, keep);
  }

  // ---------------------------------------------------------------- totals

  /** `totals` from the credit and payment lists. */
  function TotalsOf(credits: seq<Txn>, payments: seq<Txn>): (r: Totals)
    ensures r.balance == r.credit - r.received
  {
    var credit := SumAmounts(credits);
    var received := SumAmounts(payments);
    Totals(credit, received, credit - received)
  }

  /** The totals of the selected customer. */
  function TotalsFor(txns: seq<Txn>, selectedId: Option<string>): Totals {
    var current := CurrentTxns(txns, selectedId);
    TotalsOf(CreditTxns(current), PaymentTxns(current))
  }

  /** The balance shown beside each customer in the customer list: credits
      minus payments over that customer's transactions, in store order. */
  function CustomerBalance(txns: seq<Txn>, customerId: string): real {
    var mine := OfCustomer(txns, Some(customerId));
    SumAmounts(Filter(mine, IsCredit)) - SumAmounts(Filter(mine, IsPayment))
  }

  /** Inserting into a list does not change the sum over any sub-list. */
  lemma {:induction false} SumInsert(x: Txn, ts: seq<Txn>, keep: Txn -> bool)
    ensures SumAmounts(Filter(Insert(x, ts), keep)) == SumAmounts(Filter([x] + ts, keep))
  {
    if !(ts == [] || x.dateISO >= ts[0].dateISO) {
      var y, rest := ts[0], ts[1..];
      var keptX: seq<Txn> := if keep(x) then [x] else [];
      var keptY: seq<Txn> := if keep(y) then [y] else [];
      SumInsert(x, rest, keep);
      FilterCons(y, Insert(x, rest), keep);
      FilterCons(x, rest, keep);
      FilterCons(x, ts, keep);
      assert Filter(ts, keep) == keptY + Filter(rest, keep);
      SumAmountsAppend(keptY, Filter(Insert(x, rest), keep));
      SumAmountsAppend(keptX, Filter(rest, keep));
      SumAmountsAppend(keptY, Filter(rest, keep));
      SumAmountsAppend(keptX, Filter(ts, keep));
    }
  }

  /** Sorting does not change the sum over any sub-list. */
  lemma {:induction false} SumSorted(ts: seq<Txn>, keep: Txn -> bool)
    ensures SumAmounts(Filter(SortByDateDesc(ts), keep)) == SumAmounts(Filter(ts, keep))
  {
    if ts != [] {
      var x, rest := ts[0], ts[1..];
      var sorted := SortByDateDesc(rest);
      var keptX: seq<Txn> := if keep(x) then [x] else [];
      SumSorted(rest, keep);
      SumInsert(x, sorted, keep);
      FilterCons(x, sorted, keep);
      assert Filter(ts, keep) == keptX + Filter(rest, keep);
      SumAmountsAppend(keptX, Filter(sorted, keep));
      SumAmountsAppend(keptX, Filter(rest, keep));
    }
  }

  /** The selected customer's due in the totals panel equals that customer's
      balance in the customer list: credits minus payments, exactly. */
  lemma TotalsAgreeWithListBalance(txns: seq<Txn>, customerId: string)
    ensures TotalsFor(txns, Some(customerId)).balance == CustomerBalance(txns, customerId)
    ensures TotalsFor(txns, Some(customerId)).credit == SumAmounts(Filter(OfCustomer(txns, Some(customerId)), IsCredit))
  {
    var mine := OfCustomer(txns, Some(customerId));
    SumSorted(mine, IsCredit);
    SumSorted(mine, IsPayment);
  }

  /** Adding a transaction for a customer moves that customer's balance by
      its amount (up for a credit, down for a payment) and leaves every other
      customer's balance alone. */
  lemma BalanceAfterAdd(t: Txn, txns: seq<Txn>, customerId: string)
    ensures CustomerBalance([t] + txns, customerId) ==
      CustomerBalance(txns, customerId)
      + (if t.customerId != customerId then 0.0 else if t.kind.Credit? then t.amount else -t.amount)
  {
    var isMine := SelectedBy(Some(customerId));
    FilterAppend([t], txns, isMine);
    var mine := Filter(txns, isMine);
    var head := Filter([t], isMine);
    FilterAppend(head, mine, IsCredit);
    FilterAppend(head, mine, IsPayment);
    SumAmountsAppend(Filter(head, IsCredit), Filter(mine, IsCredit));
    SumAmountsAppend(Filter(head, IsPayment), Filter(mine, IsPayment));
  }

  // ---------------------------------------------------------------- last five

  /** `showAll ? list : list.slice(0, 5)`. */
  function Visible(list: seq<Txn>, showAll: bool): (r: seq<Txn>)
    ensures r <= list
    ensures showAll ==> r == list
    ensures !showAll ==> |r| == if |list| < 5 then |list| else 5
  {
    if showAll then list else Take(list, 5)
  }
}
