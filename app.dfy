/** The inline application of `src/App.jsx`: the same ledger actions as the
    hook, driven by the state of its forms, a confirm-then-delete dialog,
    the phone input's sanitiser and the WhatsApp share preview. Fresh ids,
    the current time and the date and number renderers are parameters;
    opening the WhatsApp window is the link a method returns. */
module InlineApp {
  import opened Common
  import opened Text
  import opened Domain
  import opened Views
  import opened WhatsApp
  import opened Store

  // ---------------------------------------------------------------- phone input

  /** The phone input's `value.replace(/\D/g, '').slice(0, 10)`: at most
      ten characters, all digits, the first digits of what was typed. */
  function SanitisePhone(raw: string): (r: string)
    ensures AllDigits(r) && |r| <= 10
    ensures r <= DigitsOf(raw)
    ensures |DigitsOf(raw)| <= 10 ==> r == DigitsOf(raw)
    ensures |DigitsOf(raw)| > 10 ==> r == DigitsOf(raw)[..10]
  {
    Take(DigitsOf(raw), 10)
  }

  /** Sanitising what the input already shows leaves it as it is. */
  lemma SanitisePhoneIdempotent(raw: string)
    ensures SanitisePhone(SanitisePhone(raw)) == SanitisePhone(raw)
  {
    DigitsOfKeeps(SanitisePhone(raw));
  }

  /** Trimming a text of digits changes nothing. */
  lemma TrimDigits(s: string)
    requires AllDigits(s)
    ensures Trim(s) == s
  {
    var lo, hi := TrimSlice(s);
    if s != [] {
      assert IsDigit(s[0]) && IsDigit(s[|s| - 1]);
    }
  }

  /** A phone typed into the new-customer form is stored (trimmed) as the
      input shows it, and a message shared with that customer goes to that
      number exactly when it has ten digits; the message arrives whole. */
  lemma SanitisedPhoneLink(raw: string, text: string)
    ensures var p := SanitisePhone(raw);
      Trim(p) == p
      && ReadLink(WaLink(Some(text), Some(Trim(p)))) == Some(Share(if |p| == 10 then Some(p) else None, text))
  {
    var p := SanitisePhone(raw);
    TrimDigits(p);
    DigitsOfKeeps(p);
    WaLinkRoundTrip(Some(text), Some(p));
  }

  // ---------------------------------------------------------------- confirm dialog

  /** The closures `askConfirm` is given: delete one transaction, or delete
      a customer with its transactions and clear the selection if that
      customer was selected when the dialog was opened. */
  datatype PendingDelete = DeleteTxnAction(txnId: string) | DeleteCustomerAction(customerId: string, wasSelected: bool)

  /** The `confirm` state `{ open, text, onYes }`. */
  datatype Confirm = Confirm(open: bool, text: string, onYes: Option<PendingDelete>)

  /** `{ open: false, text: "", onYes: null }`. */
  const Closed: Confirm := Confirm(false, "", None)

  /** The dialog is open exactly while it holds an action, and a closed
      dialog shows no text. */
  predicate DialogValid(c: Confirm) {
    c.open == c.onYes.Some? && (!c.open ==> c.text == "")
  }

  /** The state a pending delete acts on. */
  datatype Records = Records(customers: seq<Customer>, txns: seq<Txn>, selectedId: Option<string>)

  /** Running a pending delete. A transaction delete removes every
      transaction with that id and nothing else; a customer delete removes
      the customer and all of its transactions, keeps every other record,
      and clears the selection exactly when the customer was selected at
      the time of asking. */
  function Perform(p: PendingDelete, b: Records): (r: Records)
    ensures p.DeleteTxnAction? ==>
      r.customers == b.customers && r.selectedId == b.selectedId
      && forall t :: t in r.txns <==> t in b.txns && t.id != p.txnId
    ensures p.DeleteCustomerAction? ==>
      (forall c :: c in r.customers <==> c in b.customers && c.id != p.customerId)
      && (forall t :: t in r.txns <==> t in b.txns && t.customerId != p.customerId)
      && r.selectedId == if p.wasSelected then None else b.selectedId
  {
    match p
    case DeleteTxnAction(id) => b.(txns := RemoveTxn(b.txns, id))
    case DeleteCustomerAction(id, wasSelected) =>
      Records(RemoveCustomer(b.customers, id), RemoveCustomerTxns(b.txns, id),
              if wasSelected then None else b.selectedId)
  }

  /** A pending delete keeps the ledger's invariant. */
  lemma PerformKeepsValid(p: PendingDelete, b: Records)
    requires LedgerValid(b.customers, b.txns)
    ensures LedgerValid(Perform(p, b).customers, Perform(p, b).txns)
  {
    match p
    case DeleteTxnAction(id) => RemoveTxnKeepsValid(b.customers, b.txns, id);
    case DeleteCustomerAction(id, _) => RemoveCustomerKeepsValid(b.customers, b.txns, id);
  }

  /** Running a pending delete a second time would change nothing more. */
  lemma PerformIdempotent(p: PendingDelete, b: Records)
    ensures Perform(p, Perform(p, b)) == Perform(p, b)
  {
    match p
    case DeleteTxnAction(id) => RemoveTxnIdempotent(b.txns, id);
    case DeleteCustomerAction(id, _) =>
      FilterIdempotent(b.customers, OtherCustomer(id));
      FilterIdempotent(b.txns, NotOwnedBy(id));
  }

  /** After a confirmed customer delete the customer is gone, its balance
      in the customer list is zero, and every other customer's balance is
      what it was. */
  lemma PerformCustomerBalances(id: string, wasSelected: bool, b: Records, other: string)
    ensures var r := Perform(DeleteCustomerAction(id, wasSelected), b);
      FindCustomer(r.customers, id).None?
      && CustomerBalance(r.txns, other) == if other == id then 0.0 else CustomerBalance(b.txns, other)
  {
    var r := Perform(DeleteCustomerAction(id, wasSelected), b);
    forall k | 0 <= k < |r.customers| ensures r.customers[k].id != id {
      assert r.customers[k] in r.customers;
    }
    CascadeBalances(b.txns, id, other);
  }

  // ---------------------------------------------------------------- forms

  /** The new-customer form `newCust`. */
  datatype CustomerForm = CustomerForm(name: string, phone: string, address: string)

  /** A line of the credit form; the id only keys the editor's rows. */
  datatype ItemRow = ItemRow(id: string, name: string, qty: real, price: real)

  /** The payment form; an empty amount or date field is `None`. */
  datatype PaymentForm = PaymentForm(amount: Option<real>, paymentMethod: string, note: string, dateISO: Option<int>)

  /** The share preview `{ open, text }`. */
  datatype Preview = Preview(open: bool, text: string)

  /** The credit form's rows as item lines: the name, quantity and price are
      always present (an empty name still becomes "Item"). */
  function RowInputs(rows: seq<ItemRow>): seq<ItemInput> {
    seq(|rows|, k requires 0 <= k < |rows| => ItemInput(Some(rows[k].name), Some(rows[k].qty), Some(rows[k].price)))
  }

  // ---------------------------------------------------------------- the application

  /** The component's state, one field per `useState`. */
  class App {
    var customers: seq<Customer>
    var txns: seq<Txn>
    var selectedId: Option<string>
    var search: string
    var showAddCustomer: bool
    var newCust: CustomerForm
    var showCredit: bool
    var creditItems: seq<ItemRow>
    var creditDate: Option<int>
    var showPayment: bool
    var payment: PaymentForm
    var showAllCredits: bool
    var showAllPayments: bool
    var sharePreview: Preview
    var confirm: Confirm

    /** The ledger's invariant and the dialog's. */
    predicate Valid()
      reads this
    {
      LedgerValid(customers, txns) && DialogValid(confirm)
    }

    /** The records a pending delete acts on. */
    function Data(): Records
      reads this
    {
      Records(customers, txns, selectedId)
    }

    /** `current`. */
    function CurrentCustomer(): Option<Customer>
      reads this
    {
      Current(customers, selectedId)
    }

    /** `visibleCredits`. */
    function VisibleCredits(): seq<Txn>
      reads this
    {
      Visible(CreditTxns(CurrentTxns(txns, selectedId)), showAllCredits)
    }

    /** `visiblePayments`. */
    function VisiblePayments(): seq<Txn>
      reads this
    {
      Visible(PaymentTxns(CurrentTxns(txns, selectedId)), showAllPayments)
    }

    /** `buildShareText({ includeLists })`. */
    function ShareText(includeLists: bool, render: Renderers): string
      reads this
    {
      LedgerMessage(CurrentCustomer(), Some(TotalsFor(txns, selectedId)),
                    VisibleCredits(), VisiblePayments(), Some(includeLists), render)
    }

    /** The first render: the stored records, nothing selected, empty forms
        (one blank item line with quantity 1, dates at the current time,
        payment method "Cash"), every dialog closed. */
    constructor(storedCustomers: seq<Customer>, storedTxns: seq<Txn>, rowId: string, now: int)
      ensures customers == storedCustomers && txns == storedTxns
      ensures selectedId == None && search == ""
      ensures !showAddCustomer && newCust == CustomerForm("", "", "")
      ensures !showCredit && creditItems == [ItemRow(rowId, "", 1.0, 0.0)] && creditDate == Some(now)
      ensures !showPayment && payment == PaymentForm(None, "Cash", "", Some(now))
      ensures !showAllCredits && !showAllPayments
      ensures sharePreview == Preview(false, "") && confirm == Closed
      ensures LedgerValid(storedCustomers, storedTxns) ==> Valid()
    {
      customers := storedCustomers;
      txns := storedTxns;
      selectedId := None;
      search := "";
      showAddCustomer := false;
      newCust := CustomerForm("", "", "");
      showCredit := false;
      creditItems := [ItemRow(rowId, "", 1.0, 0.0)];
      creditDate := Some(now);
      showPayment := false;
      payment := PaymentForm(None, "Cash", "", Some(now));
      showAllCredits := false;
      showAllPayments := false;
      sharePreview := Preview(false, "");
      confirm := Closed;
    }

    /** `addCustomer()`: the form's name, phone and address are trimmed; a
        blank name changes nothing; otherwise the customer the hook would
        create is prepended, the form is emptied and closed. */
    method AddCustomer(freshId: string, now: int)
      modifies this`customers, this`newCust, this`showAddCustomer
      ensures var r := NewCustomer(Some(old(newCust).name), Some(old(newCust).phone), Some(old(newCust).address), freshId, now);
        if r.Failed? then
          customers == old(customers) && newCust == old(newCust) && showAddCustomer == old(showAddCustomer)
        else
          customers == [r.value] + old(customers) && newCust == CustomerForm("", "", "") && !showAddCustomer
      ensures old(Valid()) && FindCustomer(old(customers), freshId).None? ==> Valid()
    {
      var r := NewCustomer(Some(newCust.name), Some(newCust.phone), Some(newCust.address), freshId, now);
      if r.Failed? {
        return;
      }
      ghost var before := customers;
      customers := [r.value] + customers;
      newCust := CustomerForm("", "", "");
      showAddCustomer := false;
      if LedgerValid(before, txns) && FindCustomer(before, freshId).None? {
        AddCustomerKeepsValid(before, txns, r.value);
      }
    }

    /** `addCredit()`: nothing without a selected customer (an empty id
        counts as none) or when the item lines total 0 or less; otherwise
        the credit the hook would record for the selected customer is
        prepended, and the form is reset to one blank line dated now and
        closed. */
    method AddCredit(freshId: string, rowId: string, now: int)
      modifies this`txns, this`creditItems, this`creditDate, this`showCredit
      ensures var r := NewCredit(old(selectedId).GetOr(""), RowInputs(old(creditItems)), old(creditDate), freshId, now);
        if r.Failed? then
          txns == old(txns) && creditItems == old(creditItems) && creditDate == old(creditDate) && showCredit == old(showCredit)
        else
          txns == [r.value] + old(txns) && creditItems == [ItemRow(rowId, "", 1.0, 0.0)]
          && creditDate == Some(now) && !showCredit
      ensures old(Valid()) && FindTxn(old(txns), freshId).None? ==> Valid()
    {
      var r := NewCredit(selectedId.GetOr(""), RowInputs(creditItems), creditDate, freshId, now);
      if r.Failed? {
        return;
      }
      if Valid() && FindTxn(txns, freshId).None? {
        AddTxnKeepsValid(customers, txns, r.value);
      }
      txns := [r.value] + txns;
      creditItems := [ItemRow(rowId, "", 1.0, 0.0)];
      creditDate := Some(now);
      showCredit := false;
    }

    /** `addPayment()`: nothing without a selected customer or when the
        amount (an empty field reads as 0) is 0 or less; otherwise the
        payment is prepended with the form's method and note as they are
        (no default), and the form is reset and closed. */
    method AddPayment(freshId: string, now: int)
      modifies this`txns, this`payment, this`showPayment
      ensures var f := old(payment);
        var r := NewPayment(old(selectedId).GetOr(""), f.amount, Some(f.paymentMethod), Some(f.note), f.dateISO, freshId, now);
        if r.Failed? then
          txns == old(txns) && payment == f && showPayment == old(showPayment)
        else
          txns == [r.value] + old(txns) && r.value.kind == Payment(f.paymentMethod, f.note)
          && payment == PaymentForm(None, "Cash", "", Some(now)) && !showPayment
      ensures old(Valid()) && FindTxn(old(txns), freshId).None? ==> Valid()
    {
      var r := NewPayment(selectedId.GetOr(""), payment.amount, Some(payment.paymentMethod), Some(payment.note),
                          payment.dateISO, freshId, now);
      if r.Failed? {
        return;
      }
      if Valid() && FindTxn(txns, freshId).None? {
        AddTxnKeepsValid(customers, txns, r.value);
      }
      txns := [r.value] + txns;
      payment := PaymentForm(None, "Cash", "", Some(now));
      showPayment := false;
    }

    /** `deleteTxn(id)`: an unknown id does nothing; otherwise the dialog
        opens asking to delete that record, holding the delete. */
    method DeleteTxn(id: string)
      modifies this`confirm
      ensures var tx := FindTxn(txns, id);
        confirm == if tx.None? then old(confirm)
                   else Confirm(true, "Delete this " + TypeName(tx.value) + " record?", Some(DeleteTxnAction(id)))
      ensures old(Valid()) ==> Valid()
    {
      var tx := FindTxn(txns, id);
      if tx.None? {
        return;
      }
      confirm := Confirm(true, "Delete this " + TypeName(tx.value) + " record?", Some(DeleteTxnAction(id)));
    }

    /** `deleteCustomer(id)`: the dialog opens asking to delete the customer
        (named, or with an empty name when unknown) and all its records,
        holding the delete and whether that customer is selected now. */
    method DeleteCustomer(id: string)
      modifies this`confirm
      ensures var c := FindCustomer(customers, id);
        confirm == Confirm(true, "Delete customer \"" + (if c.Some? then c.value.name else "") + "\" and all records?",
                           Some(DeleteCustomerAction(id, selectedId == Some(id))))
      ensures old(Valid()) ==> Valid()
    {
      var c := FindCustomer(customers, id);
      var name := if c.Some? then c.value.name else "";
      confirm := Confirm(true, "Delete customer \"" + name + "\" and all records?",
                         Some(DeleteCustomerAction(id, selectedId == Some(id))));
    }

    /** `onConfirm`: the dialog closes and the delete it held, if any, runs;
        since the closed dialog holds nothing, a second confirm runs nothing. */
    method ConfirmYes()
      modifies this`confirm, this`customers, this`txns, this`selectedId
      ensures confirm == Closed
      ensures Data() == if old(confirm).onYes.None? then old(Data()) else Perform(old(confirm).onYes.value, old(Data()))
      ensures old(Valid()) ==> Valid()
    {
      var y := confirm.onYes;
      confirm := Closed;
      if y.Some? {
        var before := Data();
        var after := Perform(y.value, before);
        if LedgerValid(customers, txns) {
          PerformKeepsValid(y.value, before);
        }
        customers := after.customers;
        txns := after.txns;
        selectedId := after.selectedId;
      }
    }

    /** `onCancel`: the dialog closes and its delete is dropped unrun. */
    method ConfirmCancel()
      modifies this`confirm
      ensures confirm == Closed
      ensures old(Valid()) ==> Valid()
    {
      confirm := Closed;
    }

    /** The phone input's change handler. */
    method EditNewCustomerPhone(raw: string)
      modifies this`newCust
      ensures newCust == old(newCust).(phone := SanitisePhone(raw))
    {
      newCust := newCust.(phone := SanitisePhone(raw));
    }

    /** Opening a customer from the list (`onOpen={setSelectedId}`) or going
        back (`setSelectedId(null)`); the records stay as they are. */
    method SelectCustomer(id: Option<string>)
      modifies this`selectedId
      ensures selectedId == id
    {
      selectedId := id;
    }

    /** The search box's change handler. */
    method EditSearch(text: string)
      modifies this`search
      ensures search == text
    {
      search := text;
    }

    /** `openSharePreview(includeLists)`: nothing without a current
        customer; otherwise the preview opens with the ledger message. */
    method OpenSharePreview(includeLists: bool, render: Renderers)
      modifies this`sharePreview
      ensures CurrentCustomer().None? ==> sharePreview == old(sharePreview)
      ensures CurrentCustomer().Some? ==> sharePreview == Preview(true, ShareText(includeLists, render)) && sharePreview.text != ""
    {
      if CurrentCustomer().None? {
        return;
      }
      var text := BuildLedgerMessage(CurrentCustomer(), Some(TotalsFor(txns, selectedId)),
                                     VisibleCredits(), VisiblePayments(), Some(includeLists), render);
      sharePreview := Preview(true, text);
    }

    /** "Balance only": the preview's text becomes the message without the
        lists (empty without a current customer). */
    method BalanceOnly(render: Renderers)
      modifies this`sharePreview
      ensures sharePreview == old(sharePreview).(text := ShareText(false, render))
    {
      var text := BuildLedgerMessage(CurrentCustomer(), Some(TotalsFor(txns, selectedId)),
                                     VisibleCredits(), VisiblePayments(), Some(false), render);
      sharePreview := sharePreview.(text := text);
    }

    /** Editing the preview's text area. */
    method EditSharePreview(text: string)
      modifies this`sharePreview
      ensures sharePreview == old(sharePreview).(text := text)
    {
      sharePreview := sharePreview.(text := text);
    }

    /** `sendWhatsApp()`: nothing without a current customer; otherwise the
        returned link (the window it opens) carries the preview's text to
        the customer's phone, and the preview closes and empties. */
    method SendWhatsApp() returns (link: Option<string>)
      modifies this`sharePreview
      ensures CurrentCustomer().None? ==> link.None? && sharePreview == old(sharePreview)
      ensures CurrentCustomer().Some? ==>
        link == Some(WaLink(Some(old(sharePreview).text), Some(CurrentCustomer().value.phone)))
        && sharePreview == Preview(false, "")
      ensures link.Some? ==>
        var d := DigitsOf(CurrentCustomer().value.phone);
        ReadLink(link.value) == Some(Share(if |d| == 10 then Some(d) else None, old(sharePreview).text))
    {
      var current := CurrentCustomer();
      if current.None? {
        return None;
      }
      link := Some(WaLink(Some(sharePreview.text), Some(current.value.phone)));
      WaLinkRoundTrip(Some(sharePreview.text), Some(current.value.phone));
      sharePreview := Preview(false, "");
    }
  }
}
