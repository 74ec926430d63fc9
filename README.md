# Kirana Ledger (UdharBook): a verified model of the ledger core

Kirana Ledger is a small shop's credit book ("udhaar"). It keeps a list of customers and a list of transactions. A transaction is either a **credit**, goods given on credit as item lines whose total is the amount, or a **payment** received with a method and a note. The application shows the following for the selected customer:

- that customer's transactions, newest first;
- the transactions split into credits and payments, with the last five of each shown unless "view all" is on;
- the totals: credit, received, and balance = credit − received.

It can share a WhatsApp summary through a `wa.me` deep link.

This project models that core in Dafny and proves what the code promises. The model follows the code as written:

| file | module | models |
|---|---|---|
| `common.dfy` | `Common` | `Option` for missing values, the `{ ok, error }` outcome, `Array.prototype.filter` and `slice(0, n)` with their laws |
| `text.dfy` | `Text` | `trim` (the JavaScript white-space set), `/\D/g` removal, lower-casing, `includes`, `join("\n")` and splitting, decimal text of numbers |
| `format.dfy` | `Format` | `inr` (`Number(n \|\| 0).toFixed(2)`), the two-digit pad, `toLocalInput` and its reader `fromLocalInput` |
| `uri.dfy` | `Uri` | `encodeURIComponent`: UTF-8, then percent-escaping of every byte outside the unreserved set, with a decoder proved to invert it |
| `domain.dfy` | `Domain` | customers, item lines, transactions (`Credit(items)` / `Payment(method, note)`), totals, item normalisation and the sums |
| `views.dfy` | `Views` | the derived values: `filteredCustomers`, `current`, `currentTxns` (a stable newest-first sort), `creditTxns`/`paymentTxns`, `totals`, the customer list's balance, the "last 5" slices |
| `whatsapp.dfy` | `WhatsApp` | `waLink`, with a reader of the links it makes, and `buildLedgerMessage`, both as the line-list specification and as the loop that pushes lines and joins them |
| `store.dfy` | `Store` | the `useLedger` hook as a class `Ledger`: add or delete a customer (with cascade), add a credit or payment, delete a transaction |
| `app.dfy` | `InlineApp` | the older inline copy in `src/App.jsx` as a class `App`. It covers the form-driven actions, the confirm-then-delete dialog, the phone input's sanitiser, and the share preview and send. |

**State and stamps.** The hook's state and the component's state are Dafny classes, one field per `useState`, and each action is a method with `modifies` and a full description of the new state. Fresh ids (`uid()`) and the current time (`todayISO()`) are parameters of the actions. Where an invariant depends on ids being fresh, freshness is a hypothesis of that invariant.

**Numbers.** Money, quantities and prices are exact `real`s, so the sums are exact. Timestamps are integers (milliseconds). How a date and a quantity are written in the message (`toLocaleDateString`, JavaScript's number-to-text) is supplied by the caller as the `Renderers` functions.

**The inline copy.** `src/App.jsx` repeats several pieces of the factored code, and the model uses one definition for each: the utilities at lines 17-27 (`inr`, the pad, `toLocalInput`, `fromLocalInput`), the derived values at lines 89-109, `waLink` at lines 112-116 and `buildShareText` at lines 117-143 (which always has a totals object). So the rows below that cite the factored files cover those lines too.

**Missing values.** A missing value (`undefined`/`null`) is `None`, except for the `method` and `note` of `addPayment`: their defaults (`"Cash"`, `""`) are destructuring defaults, which apply to `undefined` only, so there `None` stands for `undefined`. An id is "falsy" when it is `None` or the empty string.

## Model

| member | source | states |
|---|---|---|
| Common.Filter | src/hooks/useLedger.js:89-90 | a filter is no longer than its input and every kept element passes the test |
| Common.FilterMembership | src/hooks/useLedger.js:89-90 | an element is kept exactly when it occurs in the input and passes the test |
| Common.FilterMembers | src/hooks/useLedger.js:141 | the kept elements are exactly the input's elements that pass the test |
| Common.FilterCons | src/hooks/useLedger.js:141 | filtering a list with a given head keeps that head exactly when it passes |
| Common.FilterAppend | src/hooks/useLedger.js:50-51 | filtering distributes over concatenation, so kept elements keep their relative order |
| Common.FilterSubsequence | src/hooks/useLedger.js:37-41 | the filtered list is an order-preserving sub-list: its k-th element sits in the input at a strictly increasing position |
| Common.FilterNarrow | src/hooks/useLedger.js:55-63 | filtering by a test and then by a stricter one is filtering by the stricter one |
| Common.FilterDisjoint | src/hooks/useLedger.js:90 | filtering by two tests no element passes together leaves nothing |
| Common.FilterAll | src/hooks/useLedger.js:141 | a filter that keeps every element returns the list unchanged |
| Common.FilterNone | src/hooks/useLedger.js:90 | a filter that keeps no element returns the empty list |
| Common.FilterIdempotent | src/hooks/useLedger.js:141 | filtering twice by the same test is filtering once |
| Common.Find | src/hooks/useLedger.js:45 | `find` by id (this customer lookup, and the transaction lookup at line 140, which use it as `FindCustomer` and `FindTxn`) succeeds exactly when some element has the id, and returns the first element in the list with that id |
| Common.Take | src/App.jsx:102-103 | `slice(0, n)` is the prefix of length min(n, length) |
| Text.TrimStart | src/hooks/useLedger.js:73 | leading trim drops only white space and leaves an empty text or one starting with a non-space |
| Text.TrimEnd | src/hooks/useLedger.js:73 | trailing trim drops only white space and leaves an empty text or one ending with a non-space |
| Text.TrimStartSuffix | src/hooks/useLedger.js:73 | what the leading trim keeps is a suffix of the input |
| Text.TrimEndPrefix | src/hooks/useLedger.js:73 | what the trailing trim keeps is a prefix of the input |
| Text.TrimSlice | src/hooks/useLedger.js:73 | `trim` keeps one contiguous slice with no space at either end and removes only white space around it |
| Text.TrimEnds | src/hooks/useLedger.js:78 | a trimmed text neither starts nor ends with white space |
| Text.TrimEmptyIffAllSpace | src/hooks/useLedger.js:73-74 | the trimmed name is empty exactly when the name is all white space |
| Text.TrimIdempotent | src/hooks/useLedger.js:79-80 | trimming twice is trimming once |
| Text.DigitsOf | src/utils/whatsapp.js:9 | removing non-digits leaves only digits |
| Text.DigitsOfKeeps | src/utils/whatsapp.js:9 | the removal keeps every digit and changes nothing on an all-digit text |
| Text.Lower | src/hooks/useLedger.js:35 | lower-casing keeps the length, leaves no upper-case letter, turns each upper-case letter into its lower-case partner and keeps every other character |
| Text.LowerIdempotent | src/hooks/useLedger.js:35 | lower-casing a lower-cased text changes nothing |
| Text.LowerEqualIff | src/hooks/useLedger.js:35 | two texts lower-case alike exactly when they have the same length and agree character by character once case is ignored |
| Text.IncludesAt | src/hooks/useLedger.js:39-40 | `includes` holds exactly when the query occurs at some offset |
| Text.JoinAppend | src/utils/whatsapp.js:77 | joining two non-empty groups of lines puts exactly one separator between them |
| Text.SplitLines | src/utils/whatsapp.js:77 | splitting at newlines gives at least one line |
| Text.SplitAfterLine | src/utils/whatsapp.js:77 | a line without newline followed by a newline splits off as the first line |
| Text.SplitSingle | src/utils/whatsapp.js:77 | a line without newlines splits to itself |
| Text.SplitJoin | src/utils/whatsapp.js:77 | splitting the joined lines at newlines gives back the lines, when none holds a newline |
| Text.DigitChar | src/utils/format.js:20 | the digit character for a value below ten has that value |
| Text.DigitValue | src/utils/format.js:28-29 | a digit's value is below ten and maps back to the digit |
| Text.NatText | src/utils/whatsapp.js:58 | `String(n)` of a natural number is a non-empty digit string with no leading zero |
| Text.ParseNatTwo | src/utils/format.js:28-29 | a two-digit text is worth ten times its first digit plus its second |
| Text.ParseNatText | src/utils/whatsapp.js:56 | reading a number's decimal text back gives the number |
| Text.ParseNatLeadingZero | src/utils/format.js:20 | a leading zero does not change the value read |
| Text.IntText | src/utils/format.js:21 | `String(year)` is never empty |
| Text.ParseIntText | src/utils/format.js:21 | reading an integer's text back gives the integer |
| Format.PaiseTextShape | src/utils/format.js:15 | whole rupees, a point and two paise digits |
| Format.InrZero | src/utils/format.js:15 | a missing amount and zero both print as "0.00" |
| Format.InrShape | src/utils/format.js:15 | `inr` prints a leading minus exactly for a negative amount, then only digits, a single point, and exactly two digits after it |
| Format.ParseUnsignedLayout | src/utils/format.js:15 | digits, a point and two digits read as whole plus hundredths |
| Format.ParseFixedTwoLayout | src/utils/format.js:15 | a signed two-decimal text reads as its value |
| Format.FixedTwoRoundTrip | src/utils/format.js:15 | reading `toFixed(2)`'s text back gives the amount rounded to paise |
| Format.RoundingError | src/utils/format.js:15 | the printed amount is within half a paisa of the exact amount |
| Format.WholePaiseExact | src/utils/format.js:15 | an amount in whole paise prints and reads back exactly |
| Format.Pad2Meaning | src/utils/format.js:20 | the pad gives at least two digits, exactly two below 100, leaves two-digit numbers unchanged and keeps the value |
| Format.TailLayout | src/utils/format.js:21-23 | where the month, day, hour and minute sit in `-MM-DDTHH:MM` |
| Format.ReadTailPadded | src/utils/format.js:21-23 | the padded tail for in-range fields (month counted from 1) reads back as those fields |
| Format.FromLocalInputParts | src/utils/format.js:28-29 | a year text followed by a well-formed tail reads as those fields with zero seconds |
| Format.LocalInputRoundTrip | src/utils/format.js:18-29 | reading `toLocalInput`'s text back recovers year, month, day, hour and minute; seconds and milliseconds become 0 |
| Uri.Utf8 | src/utils/whatsapp.js:11-13 | a character encodes to one to four bytes, all after the first being continuation bytes |
| Uri.Utf8Head | src/utils/whatsapp.js:11-13 | the decoder consumes between one byte and the whole input |
| Uri.Utf8HeadOf | src/utils/whatsapp.js:11-13 | decoding a character's encoding, whatever follows, gives the character and its width |
| Uri.AccumulateStep | src/utils/whatsapp.js:11-13 | a continuation byte adds six bits to the code point |
| Uri.Utf8HeadTwo | src/utils/whatsapp.js:11-13 | a two-byte encoding decodes to its character |
| Uri.Utf8HeadThree | src/utils/whatsapp.js:11-13 | a three-byte encoding decodes to its character |
| Uri.Utf8HeadFour | src/utils/whatsapp.js:11-13 | a four-byte encoding decodes to its character |
| Uri.Utf8RoundTrip | src/utils/whatsapp.js:11-13 | decoding the UTF-8 of a text gives the text back |
| Uri.HexDigit | src/utils/whatsapp.js:11-13 | an upper-case hex digit is unreserved and reads back as its value |
| Uri.Escape | src/utils/whatsapp.js:11-13 | `%XX` uses only unreserved characters and `%` |
| Uri.EscapeAll | src/utils/whatsapp.js:11-13 | escaped bytes use only unreserved characters and `%` |
| Uri.EncodeChar | src/utils/whatsapp.js:11-13 | an encoded character uses only unreserved characters and `%` |
| Uri.EncodeURIComponent | src/utils/whatsapp.js:11-13 | the encoded text uses only unreserved characters and `%`, so it cannot break the query |
| Uri.PercentBytesEscape | src/utils/whatsapp.js:11-13 | one `%XX` reads back as its byte |
| Uri.PercentBytesEscaped | src/utils/whatsapp.js:11-13 | escaped bytes read back as those bytes |
| Uri.EscapeAllCons | src/utils/whatsapp.js:11-13 | escaping a list of bytes is escaping its head and then its tail |
| Uri.PercentBytesChar | src/utils/whatsapp.js:11-13 | an encoded character reads back as its UTF-8 bytes |
| Uri.PercentBytesEncoded | src/utils/whatsapp.js:11-13 | the encoded text reads back as the UTF-8 bytes of the text |
| Uri.EncodeDecode | src/utils/whatsapp.js:11-13 | decoding the encoded text gives the text back |
| Uri.EncodeInjective | src/utils/whatsapp.js:11-13 | two texts with the same encoding are equal |
| Domain.NormalizeItems | src/hooks/useLedger.js:98-102 | normalisation keeps the number of item lines and normalises each line on its own |
| Domain.NormalizeItemsMeaning | src/hooks/useLedger.js:98-102 | a missing or empty name becomes "Item"; a missing quantity or price becomes 0; given values are kept |
| Domain.ItemsTotalAppend | src/hooks/useLedger.js:103 | the total of two groups of lines is the sum of their totals |
| Domain.ItemsTotalZeroLines | src/hooks/useLedger.js:103-106 | lines with no negative quantity or price never total below 0, and total exactly 0 when each has a zero quantity or price, so that credit is refused |
| Domain.SumAmountsAppend | src/hooks/useLedger.js:66-67 | the sum of amounts over two groups adds up |
| Views.FilteredCustomersMeaning | src/hooks/useLedger.js:34-42 | a blank query lists every customer; otherwise exactly the customers whose lower-cased name or phone contains the query, as an order-preserving sub-list |
| Views.Current | src/App.jsx:95 | there is a current customer exactly when an id is selected and some customer has it; that customer is in the list and has the selected id |
| Views.Insert | src/hooks/useLedger.js:52 | inserting makes the list one longer |
| Views.InsertPermutes | src/hooks/useLedger.js:52 | inserting adds exactly the inserted transaction |
| Views.InsertSorted | src/hooks/useLedger.js:52 | inserting into a newest-first list keeps it newest first |
| Views.SortByDateDesc | src/hooks/useLedger.js:52 | the sort is newest first and a permutation of its input |
| Views.InsertStable | src/hooks/useLedger.js:52 | insertion keeps the order among transactions of one date |
| Views.SortStable | src/hooks/useLedger.js:52 | the sort is stable: transactions with equal dates keep their store order |
| Views.CurrentTxnsMeaning | src/hooks/useLedger.js:49-53 | `currentTxns` holds exactly the selected customer's transactions (with multiplicity), newest first, ties in store order |
| Views.KindsPartition | src/hooks/useLedger.js:55-63 | credits and payments together hold each current transaction exactly as often as it occurs |
| Views.SplitByKind | src/hooks/useLedger.js:55-63 | `creditTxns`/`paymentTxns` partition the current list by type, each keeping the newest-first order |
| Views.FilterKeepsSorted | src/hooks/useLedger.js:55-63 | a sub-list of a newest-first list is newest first |
| Views.TotalsOf | src/hooks/useLedger.js:65-69 | the balance is credit minus received |
| Views.SumInsert | src/hooks/useLedger.js:65-69 | inserting into a list does not change the sum over any sub-list |
| Views.SumSorted | src/hooks/useLedger.js:65-69 | sorting does not change the sum over any sub-list |
| Views.TotalsAgreeWithListBalance | src/App.jsx:340-343 | the totals panel's due for a customer equals that customer's balance in the customer list (credits minus payments over its transactions) |
| Views.BalanceAfterAdd | src/App.jsx:340-343 | adding a transaction moves its customer's list balance by its amount (up for a credit, down for a payment) and leaves every other balance alone |
| Views.Visible | src/App.jsx:102-103 | the visible list is a prefix of the list: all of it when "show all" is on, otherwise its first min(5, n) elements |
| WhatsApp.ReadLinkBase | src/utils/whatsapp.js:11 | the link reader sees the query after the fixed beginning |
| WhatsApp.ReadQueryWithPhone | src/utils/whatsapp.js:10-13 | a query with the phone part reads back as that phone and text |
| WhatsApp.ReadQueryPlain | src/utils/whatsapp.js:10-13 | a query without phone part reads back as the text alone |
| WhatsApp.WaLinkRoundTrip | src/utils/whatsapp.js:8-14 | a link names the recipient (the phone's digits) exactly when the phone has ten digits, with missing phone or text read as ""; the message decodes back unchanged |
| WhatsApp.WaLinkInjective | src/utils/whatsapp.js:8-14 | two equal links carry the same message and the same ten-digit recipient or none |
| WhatsApp.LedgerMessage | src/utils/whatsapp.js:33 | the message is empty exactly when there is no current customer |
| WhatsApp.JoinStartsWith | src/utils/whatsapp.js:77 | a join begins with its first line |
| WhatsApp.CreditLinesSnoc | src/utils/whatsapp.js:50-62 | one more visible credit adds its line at the end |
| WhatsApp.PaymentLinesSnoc | src/utils/whatsapp.js:66-72 | one more visible payment adds its line at the end |
| WhatsApp.PushHeader | src/utils/whatsapp.js:36-40 | the pushes give the title, the phone and address lines when non-empty, and a blank line |
| WhatsApp.PushSummary | src/utils/whatsapp.js:42-45 | the pushes append the summary heading and the three totals |
| WhatsApp.MessageFrame | src/utils/whatsapp.js:36-77 | the title comes first, then the phone line if there is a phone, then the address line if there is an address; the summary block and the lists follow, and the message always ends with "" and the signature |
| WhatsApp.HeaderLayout | src/utils/whatsapp.js:37-40 | the header's length and where each of its lines sits |
| WhatsApp.MessageLists | src/utils/whatsapp.js:47-73 | the list sections sit between the summary and the two closing lines |
| WhatsApp.ListLinesLayout | src/utils/whatsapp.js:48-72 | with lists on: a blank line and the credits heading, one line per visible credit, a blank line and the payments heading, one line per visible payment |
| WhatsApp.NumberedLead | src/utils/whatsapp.js:58 | a numbered line starts with a digit |
| WhatsApp.ListLinesLead | src/utils/whatsapp.js:57-70 | no credit or payment line starts with a non-digit mark |
| WhatsApp.LedByConcat | src/utils/whatsapp.js:36-77 | a mark leads some line of a concatenation exactly when it leads a line of one of the parts |
| WhatsApp.HeaderMarks | src/utils/whatsapp.js:38-39 | a phone line appears exactly when the phone is non-empty, and an address line exactly when the address is non-empty |
| WhatsApp.SummaryMarks | src/utils/whatsapp.js:42-45 | the summary and closing lines carry none of the four marks |
| WhatsApp.ListMarks | src/utils/whatsapp.js:47-73 | the credits and payments headings appear exactly when lists are on |
| WhatsApp.MessageMarkers | src/utils/whatsapp.js:34-47 | in the whole message: phone line iff phone, address line iff address, both list sections iff lists are included (default true) |
| WhatsApp.LineNumbering | src/utils/whatsapp.js:57-71 | the i-th list line starts with "i+1. "; a payment line ends with " — " and the method (or nothing) |
| WhatsApp.ItemsSummaryMeaning | src/utils/whatsapp.js:51-60 | the preview is empty exactly when there are no items, lists every item when there are at most two, and otherwise the first two then " +k more" with k the rest |
| WhatsApp.FewItems | src/utils/whatsapp.js:52-56 | at most two items are all shown with nothing more |
| WhatsApp.ManyItems | src/utils/whatsapp.js:52-56 | more than two items show the first two and the count of the rest |
| WhatsApp.PreviewShown | src/utils/whatsapp.js:52-55 | with at least one item the preview is not empty |
| WhatsApp.MessageSplit | src/utils/whatsapp.js:77 | splitting the message at newlines gives back its lines when no field holds a newline |
| WhatsApp.PushCreditLines | src/utils/whatsapp.js:50-62 | the loop appends exactly the numbered credit lines, in order |
| WhatsApp.PushPaymentLines | src/utils/whatsapp.js:66-72 | the loop appends exactly the numbered payment lines, in order |
| WhatsApp.PushLists | src/utils/whatsapp.js:48-72 | the pushes append the two list sections |
| WhatsApp.BuildLedgerMessage | src/utils/whatsapp.js:26-78 | the line-pushing loops produce exactly the specified message |
| Store.NewCustomer | src/hooks/useLedger.js:72-84 | a name blank after trimming fails with "Name is required"; otherwise the customer has the fresh id, the time, and trimmed name (non-empty, no outer space), phone and address |
| Store.NewCredit | src/hooks/useLedger.js:95-117 | an empty customer id fails first, then a total ≤ 0 fails; otherwise a valid credit whose amount is the total of the normalised lines, with the given or current date |
| Store.NewPayment | src/hooks/useLedger.js:120-136 | an empty customer id or an amount ≤ 0 (missing reads as 0) fails; otherwise the payment keeps the amount, defaults an undefined method to "Cash" and an undefined note to "" |
| Store.RemoveCustomer | src/hooks/useLedger.js:89 | every customer with the id goes and every other one stays |
| Store.RemoveCustomerTxns | src/hooks/useLedger.js:90 | the cascade removes exactly that customer's transactions |
| Store.RemoveTxn | src/hooks/useLedger.js:141 | every transaction with the id goes and every other one stays |
| Store.RemoveAbsentTxn | src/hooks/useLedger.js:139-143 | deleting an id that is not there changes nothing |
| Store.RemovePresentTxn | src/hooks/useLedger.js:140-141 | with distinct transaction ids, deleting a present id removes exactly one record, the one `find` returns |
| Store.RemoveTxnIdempotent | src/hooks/useLedger.js:141 | deleting a transaction twice is deleting it once |
| Store.AddThenRemoveTxn | src/hooks/useLedger.js:116 | deleting a just-added transaction (fresh id) restores the list |
| Store.AddThenRemoveCustomer | src/hooks/useLedger.js:83 | deleting a just-added customer (fresh id, no transactions) restores both lists |
| Store.CascadeBalances | src/hooks/useLedger.js:87-93 | after the cascade the deleted customer's balance is 0 and every other balance is unchanged |
| Store.FilterCustomersUnique | src/hooks/useLedger.js:89 | removing customers keeps ids distinct |
| Store.FilterTxnsValid | src/hooks/useLedger.js:141 | removing transactions keeps the rest valid with distinct ids |
| Store.AddCustomerKeepsValid | src/hooks/useLedger.js:83 | prepending a customer with a fresh id keeps the ledger valid |
| Store.AddTxnKeepsValid | src/hooks/useLedger.js:116 | prepending a valid transaction with a fresh id keeps the ledger valid |
| Store.RemoveCustomerKeepsValid | src/hooks/useLedger.js:89-90 | the cascade keeps the ledger valid |
| Store.RemoveTxnKeepsValid | src/hooks/useLedger.js:141 | deleting a transaction keeps the ledger valid |
| Store.Ledger.constructor | src/hooks/useLedger.js:13-22 | the stored lists, nothing selected, no search |
| Store.Ledger.AddCustomer | src/hooks/useLedger.js:72-85 | returns the outcome of `NewCustomer`; on success exactly that customer is prepended, on failure nothing changes; transactions, selection and search never change |
| Store.Ledger.DeleteCustomer | src/hooks/useLedger.js:87-93 | returns the customer found; removes the customer and, in cascade, its transactions; clears the selection exactly when it was that id |
| Store.Ledger.AddCredit | src/hooks/useLedger.js:95-118 | returns the outcome of `NewCredit`; on success exactly that credit is prepended, on failure nothing changes |
| Store.Ledger.AddPayment | src/hooks/useLedger.js:120-137 | returns the outcome of `NewPayment`; on success exactly that payment is prepended, on failure nothing changes |
| Store.Ledger.DeleteTxn | src/hooks/useLedger.js:139-143 | returns the transaction found; removes every transaction with that id; an absent id changes nothing; in a valid ledger a found transaction is the one record removed |
| Store.Ledger.SetSelectedId | src/hooks/useLedger.js:21 | sets the selection only |
| Store.Ledger.SetSearch | src/hooks/useLedger.js:22 | sets the search text only |
| InlineApp.SanitisePhone | src/App.jsx:234 | the phone input keeps at most ten characters, all digits, exactly the first ten digits typed, or all of them when there are at most ten |
| InlineApp.SanitisePhoneIdempotent | src/App.jsx:234 | sanitising the shown value again changes nothing |
| InlineApp.TrimDigits | src/App.jsx:152 | trimming a digit string changes nothing |
| InlineApp.SanitisedPhoneLink | src/App.jsx:234 | a typed phone is stored as shown, and a share goes to it exactly when it has ten digits, with the message whole |
| InlineApp.Perform | src/App.jsx:166-167 | a confirmed transaction delete removes exactly that id's transactions; a confirmed customer delete removes the customer and all its transactions, and clears the selection iff it was selected when asked |
| InlineApp.PerformKeepsValid | src/App.jsx:166-167 | a confirmed delete keeps the ledger valid |
| InlineApp.PerformIdempotent | src/App.jsx:166-167 | running a confirmed delete a second time would change nothing more |
| InlineApp.PerformCustomerBalances | src/App.jsx:167 | after a confirmed customer delete the customer is gone, its list balance is 0, and other balances are unchanged |
| InlineApp.App.constructor | src/App.jsx:60-79 | the initial state: stored lists, empty forms, one blank item line of quantity 1, dates now, method "Cash", all dialogs closed |
| InlineApp.App.AddCustomer | src/App.jsx:150-154 | a blank trimmed name changes nothing; otherwise the hook's customer is prepended and the form is emptied and closed |
| InlineApp.App.AddCredit | src/App.jsx:155-160 | no selected id, or a total ≤ 0, changes nothing; otherwise the credit is prepended and the form reset to one blank line dated now and closed |
| InlineApp.App.AddPayment | src/App.jsx:161-165 | no selected id, or an amount ≤ 0, changes nothing; otherwise the payment is prepended with the form's method and note as given, and the form is reset and closed |
| InlineApp.App.DeleteTxn | src/App.jsx:166 | an unknown id does nothing; otherwise only the dialog opens, asking about that record's type and holding its delete |
| InlineApp.App.DeleteCustomer | src/App.jsx:167 | only the dialog opens, naming the customer and holding the cascade delete and whether the customer is selected now |
| InlineApp.App.ConfirmYes | src/App.jsx:290 | the dialog closes and holds nothing, and the held delete, if any, runs once |
| InlineApp.App.ConfirmCancel | src/App.jsx:290 | the dialog closes and no data changes |
| InlineApp.App.EditNewCustomerPhone | src/App.jsx:234 | the form's phone becomes the sanitised input; nothing else changes |
| InlineApp.App.SelectCustomer | src/App.jsx:186 | opening a customer or going back sets only the selection |
| InlineApp.App.EditSearch | src/App.jsx:180 | typing in the search box sets only the search text |
| InlineApp.App.OpenSharePreview | src/App.jsx:146 | without a current customer nothing changes; otherwise the preview opens with the (non-empty) ledger message |
| InlineApp.App.BalanceOnly | src/App.jsx:300 | the preview's text becomes the message without lists |
| InlineApp.App.EditSharePreview | src/App.jsx:296 | the preview's text becomes what was typed |
| InlineApp.App.SendWhatsApp | src/App.jsx:147 | without a current customer nothing happens; otherwise the link carries the preview's text to the customer's phone when it has ten digits, and the preview closes empty |

## Left out

- Persistence: the localStorage load and save are left out. The stored lists are constructor parameters. `JSON.parse` is not guarded in the source, so no fallback for corrupt data is modelled.
- `uid()`, `todayISO()` and `Date.now()`: ids and the current time are parameters. Freshness of an id is a hypothesis of the invariant lemmas.
- `fmtDate`, `toLocaleDateString` and the number-to-text conversion of a quantity: caller-supplied functions (`WhatsApp.Renderers`).
- Format.FromLocalInput: reads the local date fields only, and leaves out the time-zone conversion of `new Date(s).toISOString()`. A month, day, hour or minute out of its range gives `None`; there the source's `new Date` gives an Invalid Date and `toISOString` throws a `RangeError`, which `None` stands for. Text without the `<year>-MM-DDTHH:MM` shape also gives `None`; the datetime-local input does not produce such text, and `new Date` would parse some of it. Not checked: the number of days in the month ("2023-02-31T10:00" gives `Some`; engines differ between an Invalid Date and rolling the date over); the year range of ±275760 outside which `toISOString` throws; and the year's width. Any integer text is read as the year, so "999-01-01T10:00" and "10000-01-01T10:00", which `toLocalInput` writes for years 999 and 10000 because it does not pad the year, read back (Format.LocalInputRoundTrip holds for them). The date-time format of ECMAScript requires a four-digit or a signed six-digit year, so what `new Date` does with such text is engine-dependent.
- JavaScript number coercion and binary floating point are left out. Amounts, quantities and prices are exact reals, and a missing value is `None`.
  - `Number(...)` of a non-numeric text is NaN, and `NaN <= 0` is false, so the source would let a NaN amount through. The model has no NaN.
  - `toFixed(2)` is modelled on exact values with halves rounded away from zero. Binary rounding artefacts are not modelled.
- Format.InrShape: for an amount of 1e21 or more in magnitude, `toFixed(2)` returns the number's exponential text (`inr(1e21)` is `"1e+21"`). This is not modelled: the model always prints digits, a point and two digits.
- Domain.NormalizeItems: a quantity or price of 0 is falsy in the source, and `Number(0 || 0)` is still 0, so treating only a missing value as 0 gives the same result. Negative lines are not rejected, as in the source; only the total must be positive.
- Text.Lower: maps only ASCII A–Z. `toLowerCase` also maps other scripts.
- Uri.EncodeURIComponent: texts are sequences of Unicode scalar values. A JavaScript string can also hold a lone UTF-16 surrogate (typed into the preview, say), on which `encodeURIComponent` throws a `URIError`, so `waLink` and `sendWhatsApp` throw and the preview stays open. That error is not modelled: the encoder is total.
- InlineApp.App.SendWhatsApp: always closes the preview, because the `URIError` of a lone surrogate (above) is not modelled.
- Store.NewPayment: a `null` method or note is not modelled. The source stores `null` (the destructuring default does not apply) and the message then prints nothing after the dash; the model's `None` is `undefined` and gets the default.
- Text.IsSpace follows the JavaScript white-space and line-terminator set used by `trim`.
- Views.SortByDateDesc: sorts integer timestamps. The ISO strings and their parsing by `new Date` are not modelled.
- Dates, including `createdAt`, are timestamps rather than ISO strings.
- Presentation is left out: the JSX markup and the component files.
- Theme and `matchMedia` are left out.
- The floating action button is left out.
- Toast notifications (`notify` and its timer) are left out. A refused action only notifies, so it is modelled as changing nothing.
- The clipboard copy is left out.
- `window.open`: `InlineApp.App.SendWhatsApp` returns the link instead of opening it.
- The inline component's remaining setters are left out (selecting a customer and the search box are modelled as InlineApp.App.SelectCustomer and InlineApp.App.EditSearch). These are the show/hide flags, the show-all toggles, the name and address fields, the credit-line editor (adding, removing and editing rows) and the date pickers. Each is a plain assignment from the markup. The fields they set are part of the class state.
- React's scheduling is left out: re-renders, memoisation and batching of `setState`. Each action is modelled as one step on the current state.
- The inline `deleteCustomer` closure reads `selectedId` as it was when the dialog was opened. The model keeps that value in the pending action (`wasSelected`).
- Store.NewCustomer: the hook only trims the phone. Digit stripping and the ten-digit cap happen only in the inline phone input (`InlineApp.SanitisePhone`).
