/** The WhatsApp share helpers of `src/utils/whatsapp.js` (and their inline
    copies `waLink` and `buildShareText` in `src/App.jsx`): the `wa.me` deep
    link, with a reader that takes such a link apart again, and the
    line-oriented ledger summary message. */
module WhatsApp {
  import opened Common
  import opened Text
  import opened Format
  import opened Uri
  import opened Domain

  // ---------------------------------------------------------------- waLink

  /** Every link starts here; the query follows. */
  const Base: string := "https://wa.me/?"

  /** `waLink(text, rawPhone)`: the phone's digits, when there are exactly
      ten of them, become `phone=91<digits>`; the text is always the
      `text=` parameter, percent-encoded. A missing text or phone counts as
      the empty string. */
  function WaLink(text: Option<string>, rawPhone: Option<string>): string {
    var phone := DigitsOf(rawPhone.GetOr(""));
    var enc := EncodeURIComponent(text.GetOr(""));
    if |phone| == 10 then Base + ("phone=91" + phone + "&text=" + enc)
    else Base + ("text=" + enc)
  }

  /** What a link carries: the recipient, if any, and the message. */
  datatype Share = Share(phone: Option<string>, text: string)

  /** Reads a `wa.me` link as `WaLink` writes it: `None` for any other text. */
  function ReadLink(link: string): Option<Share> {
    if |link| < |Base| || link[..|Base|] != Base then None
    else ReadQuery(link[|Base|..])
  }

  /** Reads the query `phone=91<10 digits>&text=<enc>` or `text=<enc>`. */
  function ReadQuery(q: string): Option<Share> {
    if |q| >= 24 && q[..8] == "phone=91" && AllDigits(q[8..18]) && q[18..24] == "&text=" then
      match DecodeURIComponent(q[24..])
      case Some(t) => Some(Share(Some(q[8..18]), t))
      case None => None
    else if |q| >= 5 && q[..5] == "text=" then
      match DecodeURIComponent(q[5..])
      case Some(t) => Some(Share(None, t))
      case None => None
    else None
  }

  /** The reader sees the query after the fixed beginning. */
  lemma ReadLinkBase(q: string)
    ensures ReadLink(Base + q) == ReadQuery(q)
  {
    assert (Base + q)[..|Base|] == Base;
    assert (Base + q)[|Base|..] == q;
  }

  /** The query with a recipient reads back as that recipient and the
      decoded text. */
  lemma ReadQueryWithPhone(d: string, enc: string)
    requires |d| == 10 && AllDigits(d)
    ensures ReadQuery("phone=91" + d + "&text=" + enc) ==
      match DecodeURIComponent(enc) case Some(t) => Some(Share(Some(d), t)) case None => None
  {
    var q := "phone=91" + d + "&text=" + enc;
    assert q[..8] == "phone=91";
    assert q[8..18] == d;
    assert q[18..24] == "&text=";
    assert q[24..] == enc;
  }

  /** The query without a recipient reads back as the decoded text alone. */
  lemma ReadQueryPlain(enc: string)
    ensures ReadQuery("text=" + enc) ==
      match DecodeURIComponent(enc) case Some(t) => Some(Share(None, t)) case None => None
  {
    var q := "text=" + enc;
    assert q[0] == 't';
    assert |q| >= 24 ==> q[..8][0] == 't';
    assert q[..5] == "text=";
    assert q[5..] == enc;
  }

  /** A link names the recipient exactly when the phone has ten digits (then
      the recipient is those digits, with the `91` country code in front),
      and always carries the whole message, which decodes back unchanged. */
  lemma WaLinkRoundTrip(text: Option<string>, rawPhone: Option<string>)
    ensures var d := DigitsOf(rawPhone.GetOr(""));
      ReadLink(WaLink(text, rawPhone)) == Some(Share(if |d| == 10 then Some(d) else None, text.GetOr("")))
  {
    var d := DigitsOf(rawPhone.GetOr(""));
    var enc := EncodeURIComponent(text.GetOr(""));
    EncodeDecode(text.GetOr(""));
    if |d| == 10 {
      ReadLinkBase("phone=91" + d + "&text=" + enc);
      ReadQueryWithPhone(d, enc);
    } else {
      ReadLinkBase("text=" + enc);
      ReadQueryPlain(enc);
    }
  }

  /** Two links agree only when they carry the same message and the same
      recipient (or none). */
  lemma WaLinkInjective(t1: Option<string>, p1: Option<string>, t2: Option<string>, p2: Option<string>)
    requires WaLink(t1, p1) == WaLink(t2, p2)
    ensures t1.GetOr("") == t2.GetOr("")
    ensures var d1, d2 := DigitsOf(p1.GetOr("")), DigitsOf(p2.GetOr(""));
      (|d1| == 10 <==> |d2| == 10) && (|d1| == 10 ==> d1 == d2)
  {
    WaLinkRoundTrip(t1, p1);
    WaLinkRoundTrip(t2, p2);
  }

  // ---------------------------------------------------------------- buildLedgerMessage

  /** How dates and item quantities are written: `toLocaleDateString` of the
      transaction's timestamp and JavaScript's number-to-text conversion,
      both supplied by the runtime. */
  datatype Renderers = Renderers(date: int -> string, number: real -> string)

  const PhoneMark: char := '\U{1F4DE}'
  const HomeMark: char := '\U{1F3E0}'
  const ChartMark: char := '\U{1F4CA}'
  const ReceiptMark: char := '\U{1F9FE}'
  const MoneyMark: char := '\U{1F4B8}'
  /** " — ", the separator inside lines. */
  const Dash: string := " \U{2014} "
  /** "₹", written before each amount. */
  const Rupee: string := "\U{20B9}"
  const Signature: string := "_Sent via Kirana Ledger_"

  /** `*<name> — Udhaar Summary*`. */
  function TitleLine(c: Customer): string {
    "*" + c.name + Dash + "Udhaar Summary*"
  }

  function PhoneLine(phone: string): string {
    [PhoneMark] + " *Mob:* " + phone
  }

  function AddressLine(address: string): string {
    [HomeMark] + " *Address:* " + address
  }

  /** The title, the phone and address lines when those are non-empty, and
      a blank line. */
  function HeaderLines(c: Customer): seq<string> {
    [TitleLine(c)]
    + (if c.phone != "" then [PhoneLine(c.phone)] else [])
    + (if c.address != "" then [AddressLine(c.address)] else [])
    + [""]
  }

  /** The summary block; a missing totals object (`totals?.credit`) prints
      every total as 0.00. */
  function SummaryLines(totals: Option<Totals>): seq<string> {
    var credit := if totals.Some? then Some(totals.value.credit) else None;
    var received := if totals.Some? then Some(totals.value.received) else None;
    var balance := if totals.Some? then Some(totals.value.balance) else None;
    [ [ChartMark] + " *Summary*",
      "\U{2022} Total Credit: " + Rupee + Inr(credit),
      "\U{2022} Payments: " + Rupee + Inr(received),
      "\U{2022} *Current Due: " + Rupee + Inr(balance) + "*" ]
  }

  function CreditsHeading(): string {
    [ReceiptMark] + " *Recent Credits (5)*"
  }

  function PaymentsHeading(): string {
    [MoneyMark] + " *Recent Payments (5)*"
  }

  /** `t.items || []`: a payment has no item lines. */
  function ItemsOf(t: Txn): seq<Item> {
    if t.kind.Credit? then t.kind.items else []
  }

  /** `t.method || ""`. */
  function MethodOf(t: Txn): string {
    if t.kind.Payment? then t.kind.paymentMethod else ""
  }

  /** `${it.name} ${it.qty}x${inr(it.price)}`. */
  function ItemPreview(it: Item, render: Renderers): string {
    it.name + " " + render.number(it.qty) + "x" + Inr(Some(it.price))
  }

  function Previews(items: seq<Item>, render: Renderers): seq<string> {
    seq(|items|, k requires 0 <= k < |items| => ItemPreview(items[k], render))
  }

  /** The end of a credit line: ` — ` and the previews of the first two
      items, then ` +k more` when there are more; nothing when `prev` is
      empty. */
  function ItemsSummary(items: seq<Item>, render: Renderers): string {
    var prev := Join(Previews(Take(items, 2), render), ", ");
    var more := if |items| > 2 then " +" + NatText(|items| - 2) + " more" else "";
    if prev != "" then Dash + prev + more else ""
  }

  /** `${i + 1}. ` in front of a list line (`i` counts from 0). */
  function Numbered(i: nat, body: string): string {
    NatText(i + 1) + ". " + body
  }

  /** `${date} — ₹${inr(t.amount)}`, the start of every list line. */
  function AmountText(t: Txn, render: Renderers): string {
    render.date(t.dateISO) + Dash + Rupee + Inr(Some(t.amount))
  }

  /** The line for the credit at position `i` (counting from 0). */
  function CreditLine(t: Txn, i: nat, render: Renderers): string {
    Numbered(i, AmountText(t, render) + ItemsSummary(ItemsOf(t), render))
  }

  /** The line for the payment at position `i` (counting from 0). */
  function PaymentLine(t: Txn, i: nat, render: Renderers): string {
    Numbered(i, AmountText(t, render) + Dash + MethodOf(t))
  }

  function CreditLines(vc: seq<Txn>, render: Renderers): seq<string> {
    seq(|vc|, i requires 0 <= i < |vc| => CreditLine(vc[i], i, render))
  }

  function PaymentLines(vp: seq<Txn>, render: Renderers): seq<string> {
    seq(|vp|, i requires 0 <= i < |vp| => PaymentLine(vp[i], i, render))
  }

  /** The two "recent" sections, present only when lists are included. */
  function ListLines(vc: seq<Txn>, vp: seq<Txn>, includeLists: bool, render: Renderers): seq<string> {
    if includeLists then
      ["", CreditsHeading()] + CreditLines(vc, render) + ["", PaymentsHeading()] + PaymentLines(vp, render)
    else []
  }

  /** The lines `L` of the message for customer `c`. */
  function MessageLines(c: Customer, totals: Option<Totals>, vc: seq<Txn>, vp: seq<Txn>,
                        includeLists: bool, render: Renderers): seq<string> {
    HeaderLines(c) + SummaryLines(totals) + ListLines(vc, vp, includeLists, render) + ["", Signature]
  }

  /** `buildLedgerMessage({ current, totals, visibleCredits, visiblePayments,
      options })`: empty without a current customer, otherwise the lines
      joined by newlines; `includeLists` defaults to true. */
  function LedgerMessage(current: Option<Customer>, totals: Option<Totals>, vc: seq<Txn>, vp: seq<Txn>,
                         includeLists: Option<bool>, render: Renderers): (r: string)
    ensures r == "" <==> current.None?
  {
    if current.None? then ""
    else
      var lines := MessageLines(current.value, totals, vc, vp, includeLists.GetOr(true), render);
      assert TitleLine(current.value)[0] == '*';
      assert lines[0] == TitleLine(current.value);
      JoinStartsWith(lines, "\n");
      Join(lines, "\n")
  }

  /** A join begins with its first line. */
  lemma JoinStartsWith(lines: seq<string>, sep: string)
    requires lines != []
    ensures |Join(lines, sep)| >= |lines[0]| && Join(lines, sep)[..|lines[0]|] == lines[0]
  {
  }

  /** One more credit line at the end of the prefix. */
  lemma CreditLinesSnoc(vc: seq<Txn>, i: nat, render: Renderers)
    requires i < |vc|
    ensures CreditLines(vc[..i + 1], render) == CreditLines(vc[..i], render) + [CreditLine(vc[i], i, render)]
  {
    assert forall k :: 0 <= k < i ==> vc[..i + 1][k] == vc[..i][k];
  }

  /** One more payment line at the end of the prefix. */
  lemma PaymentLinesSnoc(vp: seq<Txn>, j: nat, render: Renderers)
    requires j < |vp|
    ensures PaymentLines(vp[..j + 1], render) == PaymentLines(vp[..j], render) + [PaymentLine(vp[j], j, render)]
  {
    assert forall k :: 0 <= k < j ==> vp[..j + 1][k] == vp[..j][k];
  }

  /** The title, the optional phone and address lines, and a blank line. */
  method PushHeader(c: Customer) returns (L: seq<string>)
    ensures L == HeaderLines(c)
  {
    L := [];
    L := L + [TitleLine(c)];
    if c.phone != "" {
      L := L + [PhoneLine(c.phone)];
    }
    if c.address != "" {
      L := L + [AddressLine(c.address)];
    }
    L := L + [""];
  }

  /** The four summary lines. */
  method PushSummary(L0: seq<string>, totals: Option<Totals>) returns (L: seq<string>)
    ensures L == L0 + SummaryLines(totals)
  {
    var summary := SummaryLines(totals);
    L := L0;
    L := L + [summary[0]];
    L := L + [summary[1]];
    L := L + [summary[2]];
    L := L + [summary[3]];
  }

  // ---------------------------------------------------------------- the message's layout

  /** Whether `line` begins with the character `m`. */
  predicate LedBy(line: string, m: char) {
    line != [] && line[0] == m
  }

  /** Whether some line of `lines` begins with `m`. */
  predicate SomeLineLedBy(lines: seq<string>, m: char) {
    exists k :: 0 <= k < |lines| && LedBy(lines[k], m)
  }

  /** Where each part of the message sits: the title first; the phone line
      next when there is a phone, then the address line when there is an
      address; a blank line and the four summary lines; the optional lists;
      and always a blank line and the signature last. */
  lemma MessageFrame(c: Customer, totals: Option<Totals>, vc: seq<Txn>, vp: seq<Txn>, lists: bool, render: Renderers)
    ensures var lines := MessageLines(c, totals, vc, vp, lists, render);
      var h, a := (if c.phone != "" then 1 else 0), (if c.address != "" then 1 else 0);
      var n := |lines|;
      n == 8 + h + a + (if lists then 4 + |vc| + |vp| else 0)
      && lines[0] == TitleLine(c)
      && (c.phone != "" ==> lines[1] == PhoneLine(c.phone))
      && (c.address != "" ==> lines[1 + h] == AddressLine(c.address))
      && lines[1 + h + a] == ""
      && lines[2 + h + a..6 + h + a] == SummaryLines(totals)
      && lines[n - 2] == "" && lines[n - 1] == Signature
  {
    var head := HeaderLines(c);
    var lines := MessageLines(c, totals, vc, vp, lists, render);
    HeaderLayout(c);
    Concat4(head, SummaryLines(totals), ListLines(vc, vp, lists, render), ["", Signature]);
    assert lines[..|head|][0] == head[0];
  }

  /** The header: the title, the phone line when there is a phone, the
      address line when there is an address, and a blank line. */
  lemma HeaderLayout(c: Customer)
    ensures var head := HeaderLines(c);
      var h, a := (if c.phone != "" then 1 else 0), (if c.address != "" then 1 else 0);
      |head| == 2 + h + a && head[0] == TitleLine(c)
      && (c.phone != "" ==> head[1] == PhoneLine(c.phone))
      && (c.address != "" ==> head[1 + h] == AddressLine(c.address))
      && head[1 + h + a] == ""
  {
  }

  /** The list sections sit between the summary and the closing lines. */
  lemma MessageLists(c: Customer, totals: Option<Totals>, vc: seq<Txn>, vp: seq<Txn>, lists: bool, render: Renderers)
    ensures var lines := MessageLines(c, totals, vc, vp, lists, render);
      var o := 6 + (if c.phone != "" then 1 else 0) + (if c.address != "" then 1 else 0);
      o <= |lines| - 2 && lines[o..|lines| - 2] == ListLines(vc, vp, lists, render)
  {
    var upper := HeaderLines(c) + SummaryLines(totals);
    var middle := ListLines(vc, vp, lists, render);
    var lines := MessageLines(c, totals, vc, vp, lists, render);
    assert lines == (upper + middle) + ["", Signature];
    assert lines[..|lines| - 2] == upper + middle;
    assert lines[|upper|..|lines| - 2] == (upper + middle)[|upper|..];
  }

  /** With lists on, the sections are a blank line and the credits heading,
      the credit lines, a blank line, the payments heading and the payment
      lines. */
  lemma ListLinesLayout(vc: seq<Txn>, vp: seq<Txn>, render: Renderers)
    ensures var m := ListLines(vc, vp, true, render);
      |m| == 4 + |vc| + |vp| && m[0] == "" && m[1] == CreditsHeading()
      && m[2..2 + |vc|] == CreditLines(vc, render)
      && m[2 + |vc|] == "" && m[3 + |vc|] == PaymentsHeading()
      && m[4 + |vc|..] == PaymentLines(vp, render)
  {
    var cl, pl := CreditLines(vc, render), PaymentLines(vp, render);
    var first, second := ["", CreditsHeading()] + cl, ["", PaymentsHeading()] + pl;
    var m := ListLines(vc, vp, true, render);
    assert m == first + second;
    assert m[..|first|] == first;
    assert m[2..2 + |vc|] == first[2..];
    assert m[2 + |vc|..] == second;
  }

  /** No line of `lines` begins with `m`. */
  predicate NoLineLedBy(lines: seq<string>, m: char) {
    forall k :: 0 <= k < |lines| ==> !LedBy(lines[k], m)
  }

  /** The first character of a numbered line is a digit. */
  lemma NumberedLead(i: nat, rest: string)
    ensures LedBy(Numbered(i, rest), NatText(i + 1)[0]) && IsDigit(NatText(i + 1)[0])
  {
  }

  /** The credit and payment lines all begin with a digit. */
  lemma ListLinesLead(vc: seq<Txn>, vp: seq<Txn>, render: Renderers, m: char)
    requires !IsDigit(m)
    ensures NoLineLedBy(CreditLines(vc, render), m) && NoLineLedBy(PaymentLines(vp, render), m)
  {
    forall i | 0 <= i < |vc| ensures !LedBy(CreditLines(vc, render)[i], m) {
      var t := vc[i];
      NumberedLead(i, AmountText(t, render) + ItemsSummary(ItemsOf(t), render));
    }
    forall j | 0 <= j < |vp| ensures !LedBy(PaymentLines(vp, render)[j], m) {
      var t := vp[j];
      NumberedLead(j, AmountText(t, render) + Dash + MethodOf(t));
    }
  }

  /** A character leads some line of a concatenation exactly when it leads
      some line of one of the parts. */
  lemma LedByConcat(a: seq<string>, b: seq<string>, m: char)
    ensures SomeLineLedBy(a + b, m) <==> SomeLineLedBy(a, m) || SomeLineLedBy(b, m)
  {
    if SomeLineLedBy(a + b, m) {
      var k :| 0 <= k < |a + b| && LedBy((a + b)[k], m);
      if k >= |a| {
        assert LedBy(b[k - |a|], m);
      }
    }
    if SomeLineLedBy(b, m) {
      var k :| 0 <= k < |b| && LedBy(b[k], m);
      assert (a + b)[|a| + k] == b[k];
    }
    if SomeLineLedBy(a, m) {
      var k :| 0 <= k < |a| && LedBy(a[k], m);
      assert (a + b)[k] == a[k];
    }
  }

  /** The header has a line led by the phone mark exactly when there is a
      phone, one led by the house mark exactly when there is an address,
      and no list heading. */
  lemma HeaderMarks(c: Customer)
    ensures SomeLineLedBy(HeaderLines(c), PhoneMark) <==> c.phone != ""
    ensures SomeLineLedBy(HeaderLines(c), HomeMark) <==> c.address != ""
    ensures !SomeLineLedBy(HeaderLines(c), ReceiptMark) && !SomeLineLedBy(HeaderLines(c), MoneyMark)
  {
    var head := HeaderLines(c);
    assert TitleLine(c)[0] == '*';
    if c.phone != "" {
      assert LedBy(head[1], PhoneMark);
    }
    if c.address != "" {
      assert LedBy(head[|head| - 2], HomeMark);
    }
  }

  /** The summary and the closing lines carry none of the four marks. */
  lemma SummaryMarks(totals: Option<Totals>, m: char)
    requires m == PhoneMark || m == HomeMark || m == ReceiptMark || m == MoneyMark
    ensures !SomeLineLedBy(SummaryLines(totals), m) && !SomeLineLedBy(["", Signature], m)
  {
  }

  /** The list sections carry the two list marks exactly when lists are on,
      and never the phone or house mark. */
  lemma ListMarks(vc: seq<Txn>, vp: seq<Txn>, lists: bool, render: Renderers)
    ensures SomeLineLedBy(ListLines(vc, vp, lists, render), ReceiptMark) <==> lists
    ensures SomeLineLedBy(ListLines(vc, vp, lists, render), MoneyMark) <==> lists
    ensures !SomeLineLedBy(ListLines(vc, vp, lists, render), PhoneMark)
    ensures !SomeLineLedBy(ListLines(vc, vp, lists, render), HomeMark)
  {
    if lists {
      var cl, pl := CreditLines(vc, render), PaymentLines(vp, render);
      ListLinesLead(vc, vp, render, PhoneMark);
      ListLinesLead(vc, vp, render, HomeMark);
      ListLinesLead(vc, vp, render, ReceiptMark);
      ListLinesLead(vc, vp, render, MoneyMark);
      var first, second := ["", CreditsHeading()], ["", PaymentsHeading()];
      assert LedBy(first[1], ReceiptMark) && LedBy(second[1], MoneyMark);
      forall m | m == PhoneMark || m == HomeMark || m == ReceiptMark || m == MoneyMark
        ensures SomeLineLedBy(ListLines(vc, vp, lists, render), m)
          <==> SomeLineLedBy(first, m) || SomeLineLedBy(second, m)
      {
        LedByConcat(first, cl, m);
        LedByConcat(first + cl, second, m);
        LedByConcat(first + cl + second, pl, m);
      }
    }
  }

  /** A phone line appears exactly when the customer has a phone, an address
      line exactly when there is an address, and the credits and payments
      sections exactly when lists are included. */
  lemma MessageMarkers(c: Customer, totals: Option<Totals>, vc: seq<Txn>, vp: seq<Txn>, lists: bool, render: Renderers)
    ensures var lines := MessageLines(c, totals, vc, vp, lists, render);
      (SomeLineLedBy(lines, PhoneMark) <==> c.phone != "")
      && (SomeLineLedBy(lines, HomeMark) <==> c.address != "")
      && (SomeLineLedBy(lines, ReceiptMark) <==> lists)
      && (SomeLineLedBy(lines, MoneyMark) <==> lists)
  {
    var head, summary, middle, foot := HeaderLines(c), SummaryLines(totals), ListLines(vc, vp, lists, render), ["", Signature];
    HeaderMarks(c);
    ListMarks(vc, vp, lists, render);
    forall m | m == PhoneMark || m == HomeMark || m == ReceiptMark || m == MoneyMark
      ensures SomeLineLedBy(MessageLines(c, totals, vc, vp, lists, render), m)
        <==> SomeLineLedBy(head, m) || SomeLineLedBy(middle, m)
    {
      SummaryMarks(totals, m);
      LedByConcat(head, summary, m);
      LedByConcat(head + summary, middle, m);
      LedByConcat(head + summary + middle, foot, m);
    }
  }

  /** A numbered line begins with its number, counting from 1, and `. `;
      a payment line ends with ` — ` and the payment method (or nothing). */
  lemma LineNumbering(t: Txn, i: nat, render: Renderers)
    ensures var prefix := NatText(i + 1) + ". ";
      CreditLine(t, i, render)[..|prefix|] == prefix && PaymentLine(t, i, render)[..|prefix|] == prefix
    ensures var l, tail := PaymentLine(t, i, render), Dash + MethodOf(t);
      |l| >= |tail| && l[|l| - |tail|..] == tail
  {
    var prefix, amount := NatText(i + 1) + ". ", AmountText(t, render);
    assert PaymentLine(t, i, render) == (prefix + amount) + (Dash + MethodOf(t));
  }

  /** The items preview is empty exactly when the credit has no items; it
      lists every item when there are at most two, and otherwise the first
      two followed by ` +k more`, where k counts the rest. */
  lemma ItemsSummaryMeaning(items: seq<Item>, render: Renderers)
    ensures ItemsSummary(items, render) == "" <==> items == []
    ensures 0 < |items| <= 2 ==> ItemsSummary(items, render) == Dash + Join(Previews(items, render), ", ")
    ensures |items| > 2 ==>
      ItemsSummary(items, render) == Dash + Join(Previews(items[..2], render), ", ") + (" +" + NatText(|items| - 2) + " more")
  {
    if items != [] {
      PreviewShown(items, render);
      if |items| <= 2 {
        FewItems(items, render);
      } else {
        ManyItems(items, render);
      }
    }
  }

  /** At most two items: all of them are shown and nothing more. */
  lemma FewItems(items: seq<Item>, render: Renderers)
    requires 0 < |items| <= 2
    ensures ItemsSummary(items, render) == Dash + Join(Previews(items, render), ", ")
  {
    PreviewShown(items, render);
    assert Take(items, 2) == items;
    var prev := Join(Previews(items, render), ", ");
    assert Dash + prev + "" == Dash + prev;
  }

  /** More than two items: the first two, then the count of the rest. */
  lemma ManyItems(items: seq<Item>, render: Renderers)
    requires |items| > 2
    ensures ItemsSummary(items, render) == Dash + Join(Previews(items[..2], render), ", ") + (" +" + NatText(|items| - 2) + " more")
  {
    PreviewShown(items, render);
    assert Take(items, 2) == items[..2];
  }

  /** With at least one item the joined previews are not empty. */
  lemma PreviewShown(items: seq<Item>, render: Renderers)
    requires items != []
    ensures Join(Previews(Take(items, 2), render), ", ") != ""
  {
    var shown := Previews(Take(items, 2), render);
    assert shown[0] == ItemPreview(items[0], render);
    assert |ItemPreview(items[0], render)| > 0;
    JoinStartsWith(shown, ", ");
  }

  /** Splitting the message at its newlines gives back its lines, as long
      as no field put into a line holds a newline itself. */
  lemma MessageSplit(c: Customer, totals: Option<Totals>, vc: seq<Txn>, vp: seq<Txn>, lists: bool, render: Renderers)
    requires var lines := MessageLines(c, totals, vc, vp, lists, render);
      forall k :: 0 <= k < |lines| ==> '\n' !in lines[k]
    ensures SplitLines(LedgerMessage(Some(c), totals, vc, vp, Some(lists), render))
      == MessageLines(c, totals, vc, vp, lists, render)
  {
    SplitJoin(MessageLines(c, totals, vc, vp, lists, render));
  }

  /** `visibleCredits.forEach((t, i) => L.push(...))`. */
  method PushCreditLines(L0: seq<string>, vc: seq<Txn>, render: Renderers) returns (L: seq<string>)
    ensures L == L0 + CreditLines(vc, render)
  {
    L := L0;
    var i := 0;
    while i < |vc|
      invariant 0 <= i <= |vc|
      invariant L == L0 + CreditLines(vc[..i], render)
    {
      L := L + [CreditLine(vc[i], i, render)];
      CreditLinesSnoc(vc, i, render);
      i := i + 1;
    }
    assert vc[..|vc|] == vc;
  }

  /** `visiblePayments.forEach((t, i) => L.push(...))`. */
  method PushPaymentLines(L0: seq<string>, vp: seq<Txn>, render: Renderers) returns (L: seq<string>)
    ensures L == L0 + PaymentLines(vp, render)
  {
    L := L0;
    var j := 0;
    while j < |vp|
      invariant 0 <= j <= |vp|
      invariant L == L0 + PaymentLines(vp[..j], render)
    {
      L := L + [PaymentLine(vp[j], j, render)];
      PaymentLinesSnoc(vp, j, render);
      j := j + 1;
    }
    assert vp[..|vp|] == vp;
  }

  /** The two "recent" sections: a blank line and a heading before each
      loop. */
  method PushLists(L0: seq<string>, vc: seq<Txn>, vp: seq<Txn>, render: Renderers) returns (L: seq<string>)
    ensures L == L0 + ListLines(vc, vp, true, render)
  {
    L := L0 + [""];
    L := L + [CreditsHeading()];
    assert L == L0 + ["", CreditsHeading()];
    L := PushCreditLines(L, vc, render);
    ghost var credits := L;
    L := L + [""];
    L := L + [PaymentsHeading()];
    assert L == credits + ["", PaymentsHeading()];
    L := PushPaymentLines(L, vp, render);
    AppendFour(L0, ["", CreditsHeading()], CreditLines(vc, render), ["", PaymentsHeading()], PaymentLines(vp, render));
  }

  /** The message as the source builds it: pushing lines onto `L`, a loop
      over the visible credits and one over the visible payments, and a
      final join. */
  method BuildLedgerMessage(current: Option<Customer>, totals: Option<Totals>, vc: seq<Txn>, vp: seq<Txn>,
                            includeLists: Option<bool>, render: Renderers) returns (msg: string)
    ensures msg == LedgerMessage(current, totals, vc, vp, includeLists, render)
  {
    if current.None? {
      return "";
    }
    var c := current.value;
    var lists := includeLists.GetOr(true);
    var L := PushHeader(c);
    L := PushSummary(L, totals);
    if lists {
      L := PushLists(L, vc, vp, render);
    }
    L := L + [""];
    L := L + [Signature];
    assert L == MessageLines(c, totals, vc, vp, lists, render);
    msg := Join(L, "\n");
  }
}
