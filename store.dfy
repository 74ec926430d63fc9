/** The ledger store of `src/hooks/useLedger.js`: the customers and
    transactions, newest first, the selected customer and the search text,
    with the actions that change them. Fresh ids (`uid()`) and the current
    time (`todayISO()`) are parameters of the actions. */
module Store {
  import opened Common
  import opened Text
  import opened Domain
  import opened Views

  // ---------------------------------------------------------------- validation

  /** The customer `addCustomer` would create, or its error: the name, phone
      and address are trimmed (a missing one reads as ""), and a name that
      is blank after trimming is refused. A created customer's name is
      non-empty and neither starts nor ends with white space. */
  function NewCustomer(name: Option<string>, phone: Option<string>, address: Option<string>,
                       id: string, now: int): (r: Outcome<Customer>)
    ensures r.Failed? <==> Trim(name.GetOr("")) == ""
    ensures r.Failed? ==> r.error == "Name is required"
    ensures r.Ok? ==> r.value.id == id && r.value.createdAt == now
    ensures r.Ok? ==> r.value.name == Trim(name.GetOr("")) && r.value.name != "" && Trimmed(r.value.name)
    ensures r.Ok? ==> r.value.phone == Trim(phone.GetOr("")) && r.value.address == Trim(address.GetOr(""))
  {
    var nm := Trim(name.GetOr(""));
    if nm == "" then Failed("Name is required")
    else
      TrimEnds(name.GetOr(""));
      Ok(Customer(id, nm, Trim(phone.GetOr("")), Trim(address.GetOr("")), now))
  }

  /** Whether a transaction is as the actions create it: a positive amount,
      and for a credit the amount is the total of its item lines. */
  predicate TxnValid(t: Txn) {
    t.amount > 0.0 && (t.kind.Credit? ==> t.amount == ItemsTotal(t.kind.items))
  }

  /** The credit `addCredit` would record, or its error. The customer id is
      required (an empty id is refused first); the item lines are normalised
      and the amount is their total, which must be positive; a missing date
      is the current time. */
  function NewCredit(customerId: string, items: seq<ItemInput>, dateISO: Option<int>,
                     id: string, now: int): (r: Outcome<Txn>)
    ensures customerId == "" ==> r == Failed("customerId required")
    ensures customerId != "" && ItemsTotal(NormalizeItems(items)) <= 0.0 ==> r == Failed("Amount must be > 0")
    ensures r.Ok? <==> customerId != "" && ItemsTotal(NormalizeItems(items)) > 0.0
    ensures r.Ok? ==>
      TxnValid(r.value) && r.value.kind == Credit(NormalizeItems(items))
      && r.value.id == id && r.value.customerId == customerId && r.value.dateISO == dateISO.GetOr(now)
  {
    if customerId == "" then Failed("customerId required")
    else
      var normalized := NormalizeItems(items);
      var amount := ItemsTotal(normalized);
      if amount <= 0.0 then Failed("Amount must be > 0")
      else Ok(Txn(id, customerId, dateISO.GetOr(now), amount, Credit(normalized)))
  }

  /** The payment `addPayment` would record, or its error. The customer id is
      required; a missing amount reads as 0 and the amount must be positive;
      the method defaults to "Cash" and the note to "" only when undefined
      (`None` here; a destructuring default does not apply to `null`). */
  function NewPayment(customerId: string, amount: Option<real>, paymentMethod: Option<string>,
                      note: Option<string>, dateISO: Option<int>, id: string, now: int): (r: Outcome<Txn>)
    ensures customerId == "" ==> r == Failed("customerId required")
    ensures customerId != "" && amount.GetOr(0.0) <= 0.0 ==> r == Failed("Amount must be > 0")
    ensures r.Ok? <==> customerId != "" && amount.GetOr(0.0) > 0.0
    ensures r.Ok? ==>
      TxnValid(r.value) && r.value.amount == amount.value
      && r.value.kind == Payment(paymentMethod.GetOr("Cash"), note.GetOr(""))
      && r.value.id == id && r.value.customerId == customerId && r.value.dateISO == dateISO.GetOr(now)
  {
    if customerId == "" then Failed("customerId required")
    else
      var amt := amount.GetOr(0.0);
      if amt <= 0.0 then Failed("Amount must be > 0")
      else Ok(Txn(id, customerId, dateISO.GetOr(now), amt, Payment(paymentMethod.GetOr("Cash"), note.GetOr(""))))
  }

  // ---------------------------------------------------------------- removal

  function OtherCustomer(id: string): Customer -> bool {
    (c: Customer) => c.id != id
  }

  function NotOwnedBy(id: string): Txn -> bool {
    (t: Txn) => t.customerId != id
  }

  function OtherTxn(id: string): Txn -> bool {
    (t: Txn) => t.id != id
  }

  /** `customers.filter((x) => x.id !== id)`: every customer with that id
      goes, every other one stays. */
  function RemoveCustomer(customers: seq<Customer>, id: string): (r: seq<Customer>)
    ensures forall c :: c in r <==> c in customers && c.id != id
  {
    FilterMembers(customers, OtherCustomer(id));
    Filter(customers, OtherCustomer(id))
  }

  /** `txns.filter((t) => t.customerId !== id)`: the cascade removes every
      transaction of that customer and keeps every other one. */
  function RemoveCustomerTxns(txns: seq<Txn>, id: string): (r: seq<Txn>)
    ensures forall t :: t in r <==> t in txns && t.customerId != id
  {
    FilterMembers(txns, NotOwnedBy(id));
    Filter(txns, NotOwnedBy(id))
  }

  /** `txns.filter((x) => x.id !== id)`. */
  function RemoveTxn(txns: seq<Txn>, id: string): (r: seq<Txn>)
    ensures forall t :: t in r <==> t in txns && t.id != id
  {
    FilterMembers(txns, OtherTxn(id));
    Filter(txns, OtherTxn(id))
  }

  /** `txns.find((x) => x.id === id) || null`: `Find` on transaction ids. */
  function FindTxn(txns: seq<Txn>, id: string): Option<Txn> {
    Find(txns, TxnId, id)
  }

  /** Deleting a transaction id that is not there changes nothing. */
  lemma RemoveAbsentTxn(txns: seq<Txn>, id: string)
    requires FindTxn(txns, id).None?
    ensures RemoveTxn(txns, id) == txns
  {
    FilterAll(txns, OtherTxn(id));
  }

  /** With distinct transaction ids, deleting an id that is present removes
      exactly one record: the one `find` returns. */
  lemma {:induction false} RemovePresentTxn(txns: seq<Txn>, id: string)
    requires UniqueTxnIds(txns) && FindTxn(txns, id).Some?
    ensures |RemoveTxn(txns, id)| == |txns| - 1
    ensures FindTxn(txns, id).value !in RemoveTxn(txns, id)
  {
    var rest := txns[1..];
    assert UniqueTxnIds(rest) by {
      forall i, j | 0 <= i < j < |rest| ensures rest[i].id != rest[j].id {
        assert rest[i] == txns[i + 1] && rest[j] == txns[j + 1];
      }
    }
    FilterCons(txns[0], rest, OtherTxn(id));
    assert txns == [txns[0]] + rest;
    if txns[0].id == id {
      forall t | t in rest ensures OtherTxn(id)(t) {
        var j :| 0 <= j < |rest| && rest[j] == t;
        assert txns[j + 1] == t;
      }
      FilterAll(rest, OtherTxn(id));
    } else {
      RemovePresentTxn(rest, id);
    }
  }

  /** Deleting the same transaction twice is deleting it once. */
  lemma RemoveTxnIdempotent(txns: seq<Txn>, id: string)
    ensures RemoveTxn(RemoveTxn(txns, id), id) == RemoveTxn(txns, id)
  {
    FilterIdempotent(txns, OtherTxn(id));
  }

  /** Deleting a transaction just added (with a fresh id) restores the list. */
  lemma AddThenRemoveTxn(t: Txn, txns: seq<Txn>)
    requires FindTxn(txns, t.id).None?
    ensures RemoveTxn([t] + txns, t.id) == txns
  {
    FilterCons(t, txns, OtherTxn(t.id));
    RemoveAbsentTxn(txns, t.id);
  }

  /** Deleting a customer just added (with a fresh id) restores the
      customer list, and the cascade touches no transaction when none
      belongs to that id. */
  lemma AddThenRemoveCustomer(c: Customer, customers: seq<Customer>, txns: seq<Txn>)
    requires FindCustomer(customers, c.id).None?
    requires forall k :: 0 <= k < |txns| ==> txns[k].customerId != c.id
    ensures RemoveCustomer([c] + customers, c.id) == customers
    ensures RemoveCustomerTxns(txns, c.id) == txns
  {
    FilterCons(c, customers, OtherCustomer(c.id));
    FilterAll(customers, OtherCustomer(c.id));
    FilterAll(txns, NotOwnedBy(c.id));
  }

  /** After the cascade, the deleted customer's balance is zero and every
      other customer's balance is what it was. */
  lemma CascadeBalances(txns: seq<Txn>, id: string, other: string)
    ensures CustomerBalance(RemoveCustomerTxns(txns, id), other)
      == if other == id then 0.0 else CustomerBalance(txns, other)
  {
    if other == id {
      FilterDisjoint(txns, NotOwnedBy(id), SelectedBy(Some(other)));
    } else {
      FilterNarrow(txns, NotOwnedBy(id), SelectedBy(Some(other)));
    }
  }

  // ---------------------------------------------------------------- the invariant

  predicate UniqueCustomerIds(customers: seq<Customer>) {
    forall i, j :: 0 <= i < j < |customers| ==> customers[i].id != customers[j].id
  }

  predicate UniqueTxnIds(txns: seq<Txn>) {
    forall i, j :: 0 <= i < j < |txns| ==> txns[i].id != txns[j].id
  }

  /** What the actions maintain: distinct ids, and transactions as the add
      actions create them. */
  predicate LedgerValid(customers: seq<Customer>, txns: seq<Txn>) {
    UniqueCustomerIds(customers) && UniqueTxnIds(txns)
    && forall k :: 0 <= k < |txns| ==> TxnValid(txns[k])
  }

  /** Removing customers keeps their ids distinct. */
  lemma FilterCustomersUnique(customers: seq<Customer>, keep: Customer -> bool)
    requires UniqueCustomerIds(customers)
    ensures UniqueCustomerIds(Filter(customers, keep))
  {
    var pos := FilterSubsequence(customers, keep);
  }

  /** Removing transactions keeps the remaining ones valid and distinct. */
  lemma FilterTxnsValid(txns: seq<Txn>, keep: Txn -> bool)
    requires UniqueTxnIds(txns) && forall k :: 0 <= k < |txns| ==> TxnValid(txns[k])
    ensures UniqueTxnIds(Filter(txns, keep)) && forall k :: 0 <= k < |Filter(txns, keep)| ==> TxnValid(Filter(txns, keep)[k])
  {
    var pos := FilterSubsequence(txns, keep);
  }

  /** Adding a customer with a fresh id keeps the ledger valid. */
  lemma AddCustomerKeepsValid(customers: seq<Customer>, txns: seq<Txn>, c: Customer)
    requires LedgerValid(customers, txns) && FindCustomer(customers, c.id).None?
    ensures LedgerValid([c] + customers, txns)
  {
  }

  /** Adding a valid transaction with a fresh id keeps the ledger valid. */
  lemma AddTxnKeepsValid(customers: seq<Customer>, txns: seq<Txn>, t: Txn)
    requires LedgerValid(customers, txns) && FindTxn(txns, t.id).None? && TxnValid(t)
    ensures LedgerValid(customers, [t] + txns)
  {
    var ts := [t] + txns;
    forall k | 0 <= k < |ts| ensures TxnValid(ts[k]) {
      if k > 0 { assert ts[k] == txns[k - 1]; }
    }
  }

  /** Deleting a customer with the cascade keeps the ledger valid. */
  lemma RemoveCustomerKeepsValid(customers: seq<Customer>, txns: seq<Txn>, id: string)
    requires LedgerValid(customers, txns)
    ensures LedgerValid(RemoveCustomer(customers, id), RemoveCustomerTxns(txns, id))
  {
    FilterCustomersUnique(customers, OtherCustomer(id));
    FilterTxnsValid(txns, NotOwnedBy(id));
  }

  /** Deleting a transaction keeps the ledger valid. */
  lemma RemoveTxnKeepsValid(customers: seq<Customer>, txns: seq<Txn>, id: string)
    requires LedgerValid(customers, txns)
    ensures LedgerValid(customers, RemoveTxn(txns, id))
  {
    FilterTxnsValid(txns, OtherTxn(id));
  }

  // ---------------------------------------------------------------- the store

  /** The hook's state: `customers` and `txns` (newest first, as the actions
      prepend), `selectedId` (`null` is `None`) and `search`. */
  class Ledger {
    var customers: seq<Customer>
    var txns: seq<Txn>
    var selectedId: Option<string>
    var search: string

    /** The invariant the actions keep. */
    predicate Valid()
      reads this
    {
      LedgerValid(customers, txns)
    }

    /** The state after loading: the stored collections, nothing selected,
        no search. */
    constructor(storedCustomers: seq<Customer>, storedTxns: seq<Txn>)
      ensures customers == storedCustomers && txns == storedTxns
      ensures selectedId == None && search == ""
    {
      customers := storedCustomers;
      txns := storedTxns;
      selectedId := None;
      search := "";
    }

    /** `addCustomer({ name, phone, address })`: refuses a blank name and
        changes nothing then; otherwise prepends the new customer. */
    method AddCustomer(name: Option<string>, phone: Option<string>, address: Option<string>,
                       freshId: string, now: int) returns (r: Outcome<Customer>)
      modifies this
      ensures r == NewCustomer(name, phone, address, freshId, now)
      ensures customers == if r.Ok? then [r.value] + old(customers) else old(customers)
      ensures unchanged(this`txns, this`selectedId, this`search)
      ensures old(Valid()) && FindCustomer(old(customers), freshId).None? ==> Valid()
    {
      r := NewCustomer(name, phone, address, freshId, now);
      if r.Failed? {
        return;
      }
      var c := r.value;
      ghost var before := customers;
      customers := [c] + customers;
      if LedgerValid(before, txns) && FindCustomer(before, freshId).None? {
        AddCustomerKeepsValid(before, txns, c);
      }
    }

    /** `deleteCustomer(id)`: removes the customer and, in cascade, all its
        transactions; clears the selection if it was that customer; returns
        the customer found (or `None`). */
    method DeleteCustomer(id: string) returns (found: Option<Customer>)
      modifies this
      ensures found == FindCustomer(old(customers), id)
      ensures customers == RemoveCustomer(old(customers), id)
      ensures txns == RemoveCustomerTxns(old(txns), id)
      ensures selectedId == if old(selectedId) == Some(id) then None else old(selectedId)
      ensures search == old(search)
      ensures old(Valid()) ==> Valid()
    {
      found := FindCustomer(customers, id);
      if Valid() {
        RemoveCustomerKeepsValid(customers, txns, id);
      }
      customers := RemoveCustomer(customers, id);
      txns := RemoveCustomerTxns(txns, id);
      if selectedId == Some(id) {
        selectedId := None;
      }
    }

    /** `addCredit({ customerId, items, dateISO })`. */
    method AddCredit(customerId: string, items: seq<ItemInput>, dateISO: Option<int>,
                     freshId: string, now: int) returns (r: Outcome<Txn>)
      modifies this
      ensures r == NewCredit(customerId, items, dateISO, freshId, now)
      ensures txns == if r.Ok? then [r.value] + old(txns) else old(txns)
      ensures customers == old(customers) && selectedId == old(selectedId) && search == old(search)
      ensures old(Valid()) && FindTxn(old(txns), freshId).None? ==> Valid()
    {
      if customerId == "" {
        return Failed("customerId required");
      }
      var normalized := NormalizeItems(items);
      var amount := ItemsTotal(normalized);
      if amount <= 0.0 {
        return Failed("Amount must be > 0");
      }
      var t := Txn(freshId, customerId, dateISO.GetOr(now), amount, Credit(normalized));
      if Valid() && FindTxn(txns, freshId).None? {
        AddTxnKeepsValid(customers, txns, t);
      }
      txns := [t] + txns;
      r := Ok(t);
    }

    /** `addPayment({ customerId, amount, method, note, dateISO })`. */
    method AddPayment(customerId: string, amount: Option<real>, paymentMethod: Option<string>,
                      note: Option<string>, dateISO: Option<int>, freshId: string, now: int) returns (r: Outcome<Txn>)
      modifies this
      ensures r == NewPayment(customerId, amount, paymentMethod, note, dateISO, freshId, now)
      ensures txns == if r.Ok? then [r.value] + old(txns) else old(txns)
      ensures customers == old(customers) && selectedId == old(selectedId) && search == old(search)
      ensures old(Valid()) && FindTxn(old(txns), freshId).None? ==> Valid()
    {
      if customerId == "" {
        return Failed("customerId required");
      }
      var amt := amount.GetOr(0.0);
      if amt <= 0.0 {
        return Failed("Amount must be > 0");
      }
      var t := Txn(freshId, customerId, dateISO.GetOr(now), amt, Payment(paymentMethod.GetOr("Cash"), note.GetOr("")));
      if Valid() && FindTxn(txns, freshId).None? {
        AddTxnKeepsValid(customers, txns, t);
      }
      txns := [t] + txns;
      r := Ok(t);
    }

    /** `deleteTxn(id)`: removes every transaction with that id and returns
        the one found (or `None`). */
    method DeleteTxn(id: string) returns (found: Option<Txn>)
      modifies this
      ensures found == FindTxn(old(txns), id)
      ensures txns == RemoveTxn(old(txns), id)
      ensures found.None? ==> txns == old(txns)
      ensures old(Valid()) && found.Some? ==> |txns| == |old(txns)| - 1 && found.value !in txns
      ensures customers == old(customers) && selectedId == old(selectedId) && search == old(search)
      ensures old(Valid()) ==> Valid()
    {
      found := FindTxn(txns, id);
      if found.None? {
        RemoveAbsentTxn(txns, id);
      }
      if Valid() {
        RemoveTxnKeepsValid(customers, txns, id);
        if found.Some? {
          RemovePresentTxn(txns, id);
        }
      }
      txns := RemoveTxn(txns, id);
    }

    /** `setSelectedId(id)`. */
    method SetSelectedId(id: Option<string>)
      modifies this
      ensures selectedId == id
      ensures customers == old(customers) && txns == old(txns) && search == old(search)
    {
      selectedId := id;
    }

    /** `setSearch(text)`. */
    method SetSearch(text: string)
      modifies this
      ensures search == text
      ensures customers == old(customers) && txns == old(txns) && selectedId == old(selectedId)
    {
      search := text;
    }
  }
}
