# Storefront backend business rules in Dafny

This project models the business rules of an Express/MongoDB storefront
backend and proves properties about them. It covers four handler modules:

- **Orders** (`src/utils/Order.js`)
  - the `ORD-nnnnnnn` order-number generator
  - the state a new order starts in (COD or Razorpay)
  - payment confirmation and payment-signature verification
  - the two status-history appends, each guarded against duplicates ignoring case: the manual override and the carrier webhook with its status vocabulary
  - the cancellation guard
  - the filter that hides pending Razorpay orders from listings, and the listing page
- **ShipRocket** (`src/utils/ShipRocket.js`)
  - the carrier payload: SKUs, billing first and last name, the payment label, the `YYYY-MM-DD HH:MM` order date, the package-dimension fold over the line items, and the order items
- **Products** (`src/utils/Products.js`)
  - the stock-history entry an update logs, and the initial history of a new product
  - product-name normalisation
  - the image list after an update: uploads appended, deleted URLs filtered out
  - regular-expression escaping
  - the `under N` price cap a catalogue search may carry
  - the catalogue query's filter fields and the page window
  - the update and create handlers
- **Category** (`src/utils/Category.js`)
  - the partial update object of `updateCategory`, with the subcategory parsing and normalisation
  - the `$set` application of that update
  - the document `createCategory` stores

The JavaScript string and number behaviour these rules rely on is modelled in
`JsStrings`:

- ASCII case mapping
- the ECMAScript white-space set used by `trim`, `\s` and `parseInt`
- `padStart` and integer `toString`
- `parseInt(_, 10)`, `replace`, `split`/`join` on one character, and `split(/\s+/)`

Modelling conventions:

- Documents the handlers change in place are classes: `Orders.Order`, `Products.Product` and `Category.Document`. A handler receives the document its database lookup found, or `null`.
- A failing outside call is an `Option` parameter that is `None`. This covers the payment gateway, the carrier, `JSON.parse` and a query that throws.
- The clock is a `now` parameter.
- The HMAC function and the webhook secret are parameters.
- A handler's answer is a `Reply`: a status code and the `success` flag, or `Thrown` when the handler throws outside its own `try`.

Three places where the model follows the code rather than a looser reading of it:

- `cancelOrder` reads the last history entry inside its `try`. An order with an empty history therefore answers 500; the model does not require a non-empty history.
- The webhook's token check compares two possibly undefined values with `===`. With no secret configured, a request without the header is accepted (`Orders.MissingTokenPassesWithoutSecret`).
- The `updateProduct` deletion loop uses an `async` callback in `forEach` but awaits nothing. The filtering therefore happens in list order before the save, and the model treats it as a plain loop.

## Model

| member | source | states |
|---|---|---|
| JsStrings.Truthy | src/utils/Category.js:126 | a string that may be undefined is truthy exactly when it is present and non-empty |
| JsStrings.Upper | src/utils/ShipRocket.js:8 | `toUpperCase` keeps the length and upper-cases each character independently |
| JsStrings.Lower | src/utils/Order.js:314 | `toLowerCase` keeps the length and lowers each character independently |
| JsStrings.LowerUpper | src/utils/ShipRocket.js:8 | lower-casing is idempotent and undoes upper-casing, so case-insensitive comparisons are unaffected by either |
| JsStrings.TrimStart | src/utils/Products.js:705 | the result is a suffix not starting with white space, and everything it dropped is white space |
| JsStrings.TrimEnd | src/utils/Products.js:705 | the result is a prefix not ending with white space, and everything it dropped is white space |
| JsStrings.Trim | src/utils/Products.js:75 | `trim()` is `trimEnd()` of `trimStart()`: TrimEnds and TrimSlice state what it keeps |
| JsStrings.TrimEnds | src/utils/Products.js:75 | `trim()` never lengthens, and its result has no white space at either end |
| JsStrings.TrimSlice | src/utils/Products.js:705 | `trim` gives a contiguous slice with white space only on either side and no white space at its ends |
| JsStrings.TrimNoop | src/utils/Products.js:75 | trimming a string without outer white space gives it back |
| JsStrings.IsJsSpace | src/utils/Products.js:705 | the white space `trim` and `\s` recognise: the ECMAScript WhiteSpace and LineTerminator characters |
| JsStrings.PadStart | src/utils/Order.js:33 | `padStart` reaches the width or keeps the length, ends with the input, and fills only in front |
| JsStrings.IntToString | src/utils/Order.js:33 | `toString` of an integer: "-" before the text of its magnitude exactly when it is negative |
| JsStrings.IntToStringText | src/utils/Order.js:33 | the text of an integer is non-empty and its digits, after a "-" exactly when the integer is negative, stand for its magnitude |
| JsStrings.NatToString | src/utils/Order.js:33 | `toString` of a natural number is a non-empty digit string without a leading zero that reads back as the number |
| JsStrings.NatToStringWidth | src/utils/Order.js:33 | the decimal text fits in k digits exactly when the number is below 10^k |
| JsStrings.LeadingZeros | src/utils/Order.js:33 | padding digits with zeros keeps their value |
| JsStrings.PaddedNumber | src/utils/Order.js:33 | the zero-padded decimal text of n is a digit string whose value is n |
| JsStrings.DigitRun | src/utils/Products.js:67 | the greedy `\d+` run is all digits and stops at a non-digit or the end |
| JsStrings.ParseIntOfDigits | src/utils/Order.js:32 | `parseInt` of a digit string is its value |
| JsStrings.ParseIntWithoutDigits | src/utils/Order.js:32 | `parseInt` of text starting with neither white space, a sign nor a digit is NaN |
| JsStrings.ParseInt | src/utils/Order.js:32 | `parseInt(s, 10)` skips leading white space, takes an optional sign and the longest run of digits, and is NaN when there is no digit; ParseIntOfDigits and ParseIntWithoutDigits state its values |
| JsStrings.ReplaceFirst | src/utils/Order.js:32 | `replace` with a string pattern rewrites the leftmost occurrence only; ReplaceFirstAt states that the text before and after it is kept |
| JsStrings.ReplaceFirstAt | src/utils/Order.js:32 | when the pattern first occurs right after a prefix, `replace` gives the prefix, the replacement and the text after the occurrence |
| JsStrings.IndexOf | src/utils/ShipRocket.js:77 | the first occurrence of the separator, or the length when there is none |
| JsStrings.Split | src/utils/ShipRocket.js:77 | `split` with a one-character separator gives at least one piece |
| JsStrings.Join | src/utils/ShipRocket.js:78 | `join` puts the separator between consecutive pieces; JoinSplit states that it undoes `split` |
| JsStrings.ReplaceChar | src/utils/Products.js:705 | `replace(/-/g, ' ')` changes every dash and nothing else |
| JsStrings.SplitStep | src/utils/ShipRocket.js:77 | the first piece of `split` ends at the first separator; the rest is the split of what follows it |
| JsStrings.SplitPieces | src/utils/ShipRocket.js:77 | no piece of `split` contains the separator |
| JsStrings.JoinSplit | src/utils/ShipRocket.js:78 | `join` with the separator undoes `split` |
| JsStrings.SplitOnSpaceRuns | src/utils/Products.js:70 | `split(/\s+/)` gives at least one piece, and no piece contains white space |
| JsStrings.CollapseSpaces | src/utils/Products.js:70 | the reference for `split(/\s+/)`: the string with every run of white space replaced by one space |
| JsStrings.CollapseAfterWord | src/utils/Products.js:70 | a stretch without white space passes through the collapse as it is |
| JsStrings.JoinSplitOnSpaceRuns | src/utils/Products.js:70 | the pieces of `split(/\s+/)` joined with single spaces are the string with each white-space run collapsed to one space, so the pieces are exactly the words of the string |
| Orders.NextOrderNumber | src/utils/Order.js:21-40 | every generated number starts with "ORD-" and has at least seven characters after it; no previous number, or a failed lookup, gives ORD-0000001 |
| Orders.FirstOrderNumberIsOne | src/utils/Order.js:22 | the default number is well formed and reads back as 1 |
| Orders.NextOrderNumberFollows | src/utils/Order.js:30-34 | after a well-formed number the next is well formed, stands for one more, reads back as one more, and is eleven characters long exactly while it fits in seven digits |
| Orders.PaddedSuccessor | src/utils/Order.js:33 | "ORD-" and the zero-padded text of v+1 is well formed and reads back as v+1 |
| Orders.NextOfParsed | src/utils/Order.js:32-33 | after a stored number that parses as n >= 0 the generator writes the padded text of n+1 |
| Orders.SuccessorText | src/utils/Order.js:33 | `(lastNumber + 1).toString()`: the decimal text of one more, or "NaN" when the number did not parse |
| Orders.ReadOrderNumber | src/utils/Order.js:32 | the generator reads a number back as `parseInt` of the text with its first "ORD-" removed; ReadWellFormed and UnparsableNumberGivesNaN state its values |
| Orders.ReadWellFormed | src/utils/Order.js:32 | stripping "ORD-" and parsing a well-formed number gives its value |
| Orders.PrefixedDigits | src/utils/Order.js:33 | "ORD-" followed by digits is a well-formed number of their value |
| Orders.UnparsableNumberGivesNaN | src/utils/Order.js:32-33 | a stored number whose text after "ORD-" cannot start an integer makes the generator write "ORD-0000NaN" |
| Orders.ValidStatuses | src/utils/Order.js:333-344 | the ten carrier statuses in their stored spelling |
| Orders.HasStatus | src/utils/Order.js:314 | the duplicate guard: some history entry names the status, ignoring case |
| Orders.ManualHistory | src/utils/Order.js:313-324 | the status is appended exactly when no entry names it ignoring case; old entries stay in front; the status is present afterwards; a history unique ignoring case stays unique |
| Orders.ManualHistoryIdempotent | src/utils/Order.js:314-316 | asking for the same status twice changes nothing the second time |
| Orders.FindIgnoringCase | src/utils/Order.js:367 | `find` returns a word of the list whose lower case is the query, and nothing only when there is none; FindIgnoringCaseFirst states that it is the first such word |
| Orders.FindIgnoringCaseFirst | src/utils/Order.js:367 | a word that matches before every other matching word is the one `find` returns |
| Orders.CanonicalStatus | src/utils/Order.js:361-367 | the canonical spelling exists exactly when the incoming status equals a vocabulary word ignoring case, and is that word |
| Orders.VocabularyDistinctIgnoringCase | src/utils/Order.js:333-347 | no two vocabulary words differ only in case |
| Orders.WebhookHistory | src/utils/Order.js:361-373 | the canonical spelling is appended exactly when the status is in the vocabulary and not yet present ignoring case; old entries stay; uniqueness is kept |
| Orders.WebhookIgnoresCaseVariant | src/utils/Order.js:364-365 | an order at "Ordered" that receives "ordered" keeps its history |
| Orders.WebhookRejectsUnknownStatus | src/utils/Order.js:361-373 | a status equal to no vocabulary word ignoring case leaves every history as it is |
| Orders.WebhookRejectsLost | src/utils/Order.js:364-365 | the carrier status "Lost", which is not in the vocabulary, leaves every history as it is |
| Orders.ShippingCharge | src/utils/Order.js:46 | the flat shipping charge of 50 |
| Orders.Order.constructor | src/utils/Order.js:58-89 | a new order document holds the modelled fields of `orderData` as given: number, customer, amount, shipping charge, payment method, payment id, history and carrier id; its payment status starts at the schema default Pending |
| Orders.CreateOrder | src/utils/Order.js:42-101 | the order is stored under the number generated from the last-order lookup, with the customer, amount, shipping charge 50 and payment method; COD orders start at "Ordered" with the carrier id; Razorpay orders start empty with the gateway order id; a failed gateway or carrier call throws and stores nothing |
| Orders.UpdatePaymentStatus | src/utils/Order.js:123-167 | 404 for no order; with a payment id, Paid, the id, a blind "Ordered" append and the carrier id, or 500 and no change when the carrier call fails; without one, only Pending |
| Orders.PaymentConfirmationCanRepeatOrdered | src/utils/Order.js:138-141 | confirming a COD order gives a history with "Ordered" twice, which breaks uniqueness |
| Orders.ExpectedSignature | src/utils/Order.js:173-175 | the expected signature is the HMAC-SHA256 under the secret of the order id, a vertical bar and the payment id |
| Orders.VerifyPayment | src/utils/Order.js:170-194 | 400 and no change on a wrong signature; 404 with no order; otherwise Paid and nothing else changed |
| Orders.UpdateManualOrderStatus | src/utils/Order.js:301-325 | 404 for no order; otherwise the history becomes ManualHistory, success says whether something was appended, and the other fields stay |
| Orders.MissingTokenPassesWithoutSecret | src/utils/Order.js:350 | with no secret configured, a request without the header passes and one with any header fails |
| Orders.WebhookAuthorized | src/utils/Order.js:350 | a request passes exactly when its header equals the configured secret, either of them possibly missing |
| Orders.UpdateOrderStatus | src/utils/Order.js:327-382 | 403 and no change without the token; 404 for no order; otherwise the history becomes WebhookHistory and the answer is 200 either way |
| Orders.CancelReply | src/utils/Order.js:215-233 | an empty history gives 500, an exact "Delivered" last entry gives 400, and any other last entry gives 200 |
| Orders.CancelLooksOnlyAtLast | src/utils/Order.js:222 | only the last entry decides the cancellation guard |
| Orders.CancelOrder | src/utils/Order.js:211-234 | 404 for no order, otherwise the guard's answer |
| Orders.ListedOrders | src/utils/Order.js:107-111 | the listing holds exactly the orders that are not pending Razorpay orders |
| Orders.ListedOrdersConcat | src/utils/Order.js:107-111 | the filter keeps relative order and multiplicity: the listing of two runs is the listing of the first followed by that of the second |
| Orders.ListedOrdersSnoc | src/utils/Order.js:107-111 | one more stored order is listed after the others exactly when the filter keeps it |
| Orders.Listed | src/utils/Order.js:107-111 | an order is listed unless it is a Razorpay order whose payment is still pending |
| Orders.CustomerOrders | src/utils/Order.js:199-205 | a customer's listing holds exactly that customer's listed orders |
| Orders.Owned | src/utils/Order.js:200 | the customer filter keeps exactly that customer's orders |
| Orders.OrdersPage | src/utils/Order.js:107-112 | a negative skip fails; otherwise the page is the listed orders from index perPage*(page-1) on, in order, as many as the magnitude of perPage (all when 0) and no more than are left |
| ShipRocket.CategoryCode | src/utils/ShipRocket.js:8 | the first up-to-three characters of the category, upper-cased, or "GEN" |
| ShipRocket.IdCode | src/utils/ShipRocket.js:10 | the last up-to-four characters of the id, or "0000" |
| ShipRocket.GenerateSku | src/utils/ShipRocket.js:6-13 | the category code, a dash and the id code, with no lower-case letter in the code |
| ShipRocket.FirstName | src/utils/ShipRocket.js:77 | the name up to its first space, containing no space |
| ShipRocket.NameRemainder | src/utils/ShipRocket.js:78 | the words after the first space joined back: the name after its first space |
| ShipRocket.LastName | src/utils/ShipRocket.js:78 | the remainder, or "NA" when it is empty |
| ShipRocket.NameReconstructs | src/utils/ShipRocket.js:77-78 | first name, a space and last name give the name back; a name without a space has last name "NA" |
| ShipRocket.PaymentLabel | src/utils/ShipRocket.js:87 | "COD" exactly for COD, otherwise "Prepaid" |
| ShipRocket.TwoDigitsPadded | src/utils/ShipRocket.js:39-43 | the two-digit field is `String(n).padStart(2, '0')` |
| ShipRocket.TwoDigitsOf | src/utils/ShipRocket.js:39-43 | a two-digit field reads back as its number |
| ShipRocket.DateText | src/utils/ShipRocket.js:45 | the template `${year}-${month}-${day} ${hours}:${minutes}` |
| ShipRocket.FormatDateLayout | src/utils/ShipRocket.js:35-46 | the formatted date is the year, "-", month, "-", day, " ", hours, ":", minutes |
| ShipRocket.FormatDateFields | src/utils/ShipRocket.js:35-46 | each field of the formatted date reads back as the one-based month, day, hours and minutes, after the year's digits |
| ShipRocket.FormatDate | src/utils/ShipRocket.js:35-46 | the year followed by the one-based month, day, hours and minutes as two-digit fields; FormatDateLayout and FormatDateFields state the layout and the values |
| ShipRocket.MaxOf | src/utils/ShipRocket.js:57-58 | the running `Math.max` from 0 is never negative |
| ShipRocket.MaxOfBounds | src/utils/ShipRocket.js:57-58 | the running maximum bounds every item and is 0 or one of the items |
| ShipRocket.MaxOfSnoc | src/utils/ShipRocket.js:57-58 | one more item updates the maximum by `Math.max` |
| ShipRocket.SumOf | src/utils/ShipRocket.js:59-61 | the running `+=` from 0 over the items; SumOfConcat states that it adds up over concatenated lists |
| ShipRocket.SumOfConcat | src/utils/ShipRocket.js:59-61 | the running sums add up over concatenated lists |
| ShipRocket.AddItem | src/utils/ShipRocket.js:50-63 | one reducer step: `Math.max` of length and breadth, and the quantity-scaled height, weight and volume added |
| ShipRocket.Totals | src/utils/ShipRocket.js:50-64 | the promised totals: the largest length and breadth from 0, and the sums of the scaled height, weight and volume; TotalsSnoc and TotalDimensions connect them to the reduce |
| ShipRocket.TotalsSnoc | src/utils/ShipRocket.js:50-64 | the fold over one more item is one more reducer step |
| ShipRocket.TotalDimensions | src/utils/ShipRocket.js:50-64 | the reduce gives the largest length and breadth, and the quantity-weighted sums of height, weight and volume |
| ShipRocket.OrderItems | src/utils/ShipRocket.js:66-71 | one carrier item per line item, in order, with name, SKU, units and price |
| ShipRocket.BuildPayload | src/utils/ShipRocket.js:73-93 | every payload field: the id, the formatted date, "Home", the billing names, the parsed pin code and phone number, the items, the label and the dimensions |
| Products.StockChangeEntry | src/utils/Products.js:691-702 | an entry exactly when the stock changed, from the old stock to the new one, "restock" exactly when it rose and "stock reduction" exactly when it fell |
| Products.LogStock | src/utils/Products.js:694-702 | the history grows by that entry exactly when the stock changed, and the old entries stay |
| Products.LogStockChains | src/utils/Products.js:691-702 | when the history's last entry recorded the old stock, it records the new stock afterwards and consecutive entries chain |
| Products.InitialHistory | src/utils/Products.js:790-797 | a new product's history is one "new" entry from 0 to its stock with the purchase price |
| Products.NormaliseName | src/utils/Products.js:705 | the normalised name has no dash and no outer white space |
| Products.NormaliseNameSlice | src/utils/Products.js:705 | it is the dash-replaced name with only dashes and white space cut from either side |
| Products.NormaliseNameIdempotent | src/utils/Products.js:705 | normalising twice is normalising once |
| Products.UploadedImages | src/utils/Products.js:665-669 | one image per uploaded file, its path with the raw name as alt text |
| Products.WithoutUrl | src/utils/Products.js:686 | the filter keeps exactly the images with another URL |
| Products.WithoutUrlConcat | src/utils/Products.js:686 | the filter keeps relative order and multiplicity: filtering two runs is filtering each |
| Products.KeepUndeleted | src/utils/Products.js:675-688 | the reference pass keeps exactly the images whose URL was not deleted |
| Products.Survivors | src/utils/Products.js:678-688 | the images after one `filter` per deleted URL, in the order of the deletions; SurvivorsKeepUndeleted equates it to the single reference pass |
| Products.KeepUndeletedSnoc | src/utils/Products.js:686 | filtering one more URL from the reference result is the reference for one more URL |
| Products.SurvivorsKeepUndeleted | src/utils/Products.js:678-688 | filtering URL by URL equals the single reference pass |
| Products.KeepAll | src/utils/Products.js:678 | no deleted URLs keep every image |
| Products.KeepUndeletedConcat | src/utils/Products.js:675 | the kept existing images come before the kept new ones |
| Products.MergeImages | src/utils/Products.js:672-688 | the loop gives the reference pass over the existing and new images; an image survives exactly when it was there and its URL was not deleted |
| Products.IsRegexMeta | src/utils/Products.js:63 | the characters of the escaping class: dot, star, plus, question mark, caret, dollar, braces, parentheses, vertical bar, square brackets and backslash |
| Products.Escape | src/utils/Products.js:62-64 | escaping never shortens and leaves text without metacharacters as it is |
| Products.EscapeChar | src/utils/Products.js:62-64 | a metacharacter gets one backslash in front of it, and every other character stays as it is |
| Products.UnescapeEscape | src/utils/Products.js:62-64 | removing the inserted backslashes gives the input back |
| Products.EscapeConcat | src/utils/Products.js:581-583 | escaping works piece by piece |
| Products.SpaceRun | src/utils/Products.js:67 | the greedy `\s+` run stops at a non-space or the end |
| Products.SpaceRunSpaces | src/utils/Products.js:67 | everything the run takes is white space |
| Products.UnderWordAt | src/utils/Products.js:67 | "under" starts at the index in some ASCII case, as the `i` flag allows |
| Products.UnderAt | src/utils/Products.js:67 | `/under\s+(\d+)/i` matches at an index: "under" in any ASCII case, at least one white-space character, then a digit |
| Products.FirstWhere | src/utils/Products.js:68 | the start index found passes the test and lies in range |
| Products.FirstWhereLeast | src/utils/Products.js:68 | no earlier index passes, and none passes when nothing is found |
| Products.FindUnder | src/utils/Products.js:67-68 | the index found is one where the pattern matches |
| Products.FindUnderFirst | src/utils/Products.js:67-68 | the search skips no matching index |
| Products.MatchAt | src/utils/Products.js:67-68 | a match at an index covers a non-empty stretch and captures a non-empty digit string |
| Products.MatchUnder | src/utils/Products.js:67-68 | a match lies inside the search and captures a non-empty digit string |
| Products.MatchUnderExists | src/utils/Products.js:67-72 | there is a match exactly when the pattern matches somewhere |
| Products.MatchUnderLeftmost | src/utils/Products.js:67-68 | the match starts at the leftmost matching index |
| Products.MatchUnderLayout | src/utils/Products.js:67-68 | after "under" the match crosses only white space and captures the whole digit run |
| Products.ParseSearch | src/utils/Products.js:66-76 | a cap exactly when there is a match, worth its digits, with the terms from the search minus the match, trimmed; otherwise the terms of the whole search; terms hold no white space |
| Products.NoUnderNoCap | src/utils/Products.js:66-76 | a search without "under" in any case has no cap |
| Products.EmptyQuery | src/utils/Products.js:105 | `Object.keys(query).length === 0`: the query has none of the three filter keys |
| Products.BuildQuery | src/utils/Products.js:45-100 | search terms override the category condition; the brand and cap are present only when given; the query is empty exactly when no filter is truthy |
| Products.PageWindow | src/utils/Products.js:548-549 | page 1 and 6 per page by default; skip (page-1)*perPage and limit perPage, or failure for a page below 1 or a non-positive page size |
| Products.PagesAdjoin | src/utils/Products.js:548-549 | consecutive pages follow each other without gap or overlap |
| Products.OnExactlyOnePage | src/utils/Products.js:548-549 | every result lies on exactly one page |
| Products.Product.New | src/utils/Products.js:779-801 | a created product holds the normalised name, the fields, the uploaded images and the initial history |
| Products.Product.Update | src/utils/Products.js:664-718 | the update logs the stock change, merges the images, normalises the name, copies the fields and stamps the time |
| Products.UpdateProduct | src/utils/Products.js:634-734 | 404 for no product; 500 and no change without a name; otherwise 200, with the stock change logged, the images merged, the name normalised, the stock and details copied and the update time stamped |
| Products.NewProduct | src/utils/Products.js:749-815 | 500 without a name; otherwise 201 with a fresh product holding the normalised name, the details, the stock, its initial history, the uploaded images and no update time |
| Category.JsonTruthy | src/utils/Category.js:123-124 | JavaScript truthiness of a body field that may be undefined |
| Category.IsText | src/utils/Category.js:134 | `typeof v === "string"` |
| Category.AsArray | src/utils/Category.js:135 | an array is kept as it is, and anything else becomes [] |
| Category.StoredSubcategories | src/utils/Category.js:134-135 | a string is parsed first and a throw gives `None`; anything that is not then an array is stored as []; StoredSubcategoriesFacts states the cases |
| Category.StoredSubcategoriesFacts | src/utils/Category.js:96-104 | storing throws exactly when a string does not parse; an array, given or parsed, is kept; a non-empty stored list is such an array |
| Category.ResubmittedSubcategories | src/utils/Category.js:134-135 | storing the stored list again gives the same list |
| Category.BuildUpdateData | src/utils/Category.js:121-136 | the field-by-field construction gives the update object the rules describe |
| Category.UpdateAltText | src/utils/Category.js:129 | the alternative text of an updated image: the name when it is truthy, otherwise the empty string |
| Category.Put | src/utils/Category.js:123-135 | `if (present) updateData[key] = value`: the key is set only when its field is truthy |
| Category.UpdateData | src/utils/Category.js:121-136 | the update object: `None` when parsing throws, otherwise each truthy field under its key; UpdateDataThrows and UpdateDataFields state the cases |
| Category.UpdateDataThrows | src/utils/Category.js:133-136 | the update throws exactly when a truthy string of subcategories does not parse |
| Category.UpdateDataFields | src/utils/Category.js:121-136 | each of name, type, Image and subcategories is present exactly when its field is truthy, with the assigned value (alt text: the name or ""), and no other key appears |
| Category.ApplyUpdate | src/utils/Category.js:139 | the update's keys take its values and every other field stays |
| Category.ApplyUpdateIdempotent | src/utils/Category.js:139 | applying an update twice is applying it once |
| Category.UpdateKeepsOtherFields | src/utils/Category.js:121-139 | an update changes no field outside the four keys, and leaves a falsy name or type's field alone |
| Category.EmptyRequestChangesNothing | src/utils/Category.js:121-139 | a request with every field falsy gives an empty update that changes nothing |
| Category.Document.Create | src/utils/Category.js:97 | a created document holds the given fields |
| Category.Document.Set | src/utils/Category.js:139 | the document afterwards is the update applied to it |
| Category.UpdateCategory | src/utils/Category.js:114-149 | 500 with no change when parsing throws; 404 for no category; otherwise 200 with the update applied |
| Category.Defined | src/utils/Category.js:98-99 | a created field is stored only when the request defines it |
| Category.CreatedFields | src/utils/Category.js:97-105 | a created category has an image and a subcategory list, the name and type exactly when given, and no other key |
| Category.CreatedFieldValues | src/utils/Category.js:98-104 | the image URL is the upload path and its alt text the name; the subcategories are the normalised list |
| Category.CreateCategory | src/utils/Category.js:92-111 | 500 without a file or on a parse throw; otherwise 201 with the created document |

## Left out

- Database access is a parameter: the document a lookup found, or `null`. This covers the queries, sorting by `order_number`, and `save()` and its validation. The schemas (`models/Order.js`, `models/Product.js`, `models/Category.js`) are not part of this model.
- Encryption, decryption and `JSON.parse` of request bodies are not modelled; handlers receive the decoded fields. `JSON.parse` of a category's subcategories is a parameter.
- HMAC-SHA256 is a function parameter, and the webhook secret is a parameter. A missing `RAZORPAY_SECRET_KEY`, for which `crypto.createHmac` throws before the `try` of verifyPayment and the route's error handler answers, is not modelled: the secret is always a string.
- Network calls are `Option` parameters, not HTTP: the payment gateway, carrier authentication and order creation, invoice download and tracking.
- Orders.Order: `order_date`, `items` and `shipping_address` are stored as given and are not modelled. The carrier call that reads them is an `Option` parameter. The order's start at payment status Pending is the schema's default, taken as given.
- Orders.CreateOrder and Orders.UpdatePaymentStatus: a carrier response without `order_id`, which stores `undefined` as the carrier id and still answers 201 or 200, is not modelled. A `None` carrier id stands for a carrier call that threw.
- Orders.UpdateOrderStatus: a `current_status` that is present but not a string, for which `toLowerCase` throws outside any `try`, is not modelled. The incoming status is a string or missing.
- The clock is a parameter, and the random receipt id is not modelled.
- `order.cancelOrder()` is a schema method whose body is not part of this model. CancelOrder stops at the guard.
- Concurrency is not modelled: two orders created at once can read the same last number.
- `bestSellers`, `getShippingCharge`, `downloadInvoice` and `trackOrder` are left out. They are aggregation or pass-through calls with no rule of their own.
- The read-only category handlers, `deleteCategory` and its file removal, and the file deletions in `updateProduct` are left out. They are I/O.
- The catalogue ranking pipeline is left out. So are the regular expression built from the search terms, `processTerms`, and the category mappings, which depend on modules not part of this model.
- The `myOrders` sort by date is left out, as are the population of references and the response encryption.
- Numbers are integers or reals. `toFixed(2)`, `parseFloat` of the dimensions, `NaN` stock values, and number-to-string exponent forms are not modelled.
- Orders.NextOrderNumberFollows: integers are unbounded. Above 2^53 `parseInt(...) + 1` loses precision in JavaScript, so there the next number need not read back as one more.
- JavaScript strings are UTF-16 code units, and the model's strings are sequences of characters. `substring(0, 3)` and `slice(-4)` in generateSKU, `padStart` and `.length` count code units, so they differ from the model for text outside the Basic Multilingual Plane.
- Orders.UpdateManualOrderStatus: a request without a status is not modelled. Then `status.toLowerCase()` throws outside any `try` when the history is non-empty, and with an empty history an entry without a status is pushed.
- A `page`/`perPage` given as a string is not modelled, because the model has no string-to-number coercion.
- Case mapping covers ASCII letters only.
- FormatDate: dates come in as their local calendar fields; time zones and invalid dates (`NaN` fields) are not modelled.
- FormatDateFields: states the digit values only for non-negative years, because the digits of a negative year's text are not modelled.
- Category.Json: JSON numbers are integers, and NaN truthiness is not modelled.
