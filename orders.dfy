/**
  The order lifecycle rules of the order handlers: order numbering, the state
  an order is created in, payment confirmation, payment-signature
  verification, the two duplicate-guarded status appends (the manual override
  and the carrier webhook), the cancellation guard and the listing filter.

  An order document is an `Order` object; a handler receives the document its
  database lookup found, or `null`, and changes it in place. A field is only
  changed when the handler reaches its `save()`; a handler that throws before
  that leaves the stored document as it was.
*/
module Orders {
  import opened Wrappers
  import opened JsStrings
  import opened Replies

  // ===== order numbers =====

  const NumberPrefix: string := "ORD-"
  const NumberWidth: nat := 7
  const FirstOrderNumber: string := "ORD-0000001"

  /** What the lookup of the order with the greatest `order_number` gave. */
  datatype LastOrder =
    | LookupFailed                  // the query threw: the catch keeps the default number
    | NoNumberedOrder               // no order has an order_number
    | LastNumber(number: string)

  /** How the generator reads a number back: `parseInt` of the text with the first "ORD-" removed. */
  function ReadOrderNumber(s: string): Option<int> {
    ParseInt(ReplaceFirst(s, NumberPrefix, ""))
  }

  /** The text of `n + 1` for the result of `parseInt`; NaN + 1 is NaN. */
  function SuccessorText(n: Option<int>): string {
    match n
    case None => "NaN"
    case Some(v) => IntToString(v + 1)
  }

  /** generateOrderNumber. */
  function NextOrderNumber(last: LastOrder): (r: string)
    ensures |r| >= |NumberPrefix| + NumberWidth && r[..|NumberPrefix|] == NumberPrefix
    ensures !last.LastNumber? || last.number == "" ==> r == FirstOrderNumber
  {
    if last.LastNumber? && last.number != "" then
      NumberPrefix + PadStart(SuccessorText(ReadOrderNumber(last.number)), NumberWidth, '0')
    else
      FirstOrderNumber
  }

  /** An order number of the shape the generator writes: "ORD-" and then one or more digits. */
  predicate WellFormedNumber(s: string) {
    |s| > |NumberPrefix| && s[..|NumberPrefix|] == NumberPrefix && AllDigits(s[|NumberPrefix|..])
  }

  function NumberValue(s: string): nat
    requires WellFormedNumber(s)
  {
    DigitsValue(s[|NumberPrefix|..])
  }

  /** The very first order number is well formed and stands for 1. */
  lemma FirstOrderNumberIsOne()
    ensures WellFormedNumber(FirstOrderNumber) && NumberValue(FirstOrderNumber) == 1
    ensures ReadOrderNumber(FirstOrderNumber) == Some(1)
  {
    var d := "0000001";
    assert FirstOrderNumber == NumberPrefix + d;
    FirstDigits();
    PrefixedDigits(d);
    ReadWellFormed(FirstOrderNumber);
  }

  lemma FirstDigits()
    ensures AllDigits("0000001") && DigitsValue("0000001") == 1
  {
    assert "0000001" == Repeat('0', 6) + NatToString(1);
    LeadingZeros(6, NatToString(1));
  }

  /**
    After a well-formed number the generator writes "ORD-" and the next
    number, zero-padded to seven digits; reading it back gives that next
    number, and it is exactly eleven characters long while the number fits in
    seven digits.
  */
  lemma {:induction false} NextOrderNumberFollows(previous: string)
    requires WellFormedNumber(previous)
    ensures WellFormedNumber(NextOrderNumber(LastNumber(previous)))
    ensures NumberValue(NextOrderNumber(LastNumber(previous))) == NumberValue(previous) + 1
    ensures ReadOrderNumber(NextOrderNumber(LastNumber(previous))) == Some(NumberValue(previous) + 1)
    ensures |NextOrderNumber(LastNumber(previous))| == |NumberPrefix| + NumberWidth
        <==> NumberValue(previous) + 1 < Pow10(NumberWidth)
  {
    ReadWellFormed(previous);
    NextOfParsed(previous, NumberValue(previous));
    PaddedSuccessor(NumberValue(previous));
  }

  /** "ORD-" and the successor of `v` padded to seven digits is the well-formed number of `v + 1`. */
  lemma PaddedSuccessor(v: nat)
    ensures var next := NumberPrefix + PadStart(NatToString(v + 1), NumberWidth, '0');
      && WellFormedNumber(next) && NumberValue(next) == v + 1 && ReadOrderNumber(next) == Some(v + 1)
      && (|next| == |NumberPrefix| + NumberWidth <==> v + 1 < Pow10(NumberWidth))
  {
    var padded := PadStart(NatToString(v + 1), NumberWidth, '0');
    PaddedNumber(v + 1, NumberWidth);
    PrefixedDigits(padded);
    ReadWellFormed(NumberPrefix + padded);
  }

  /** After a number that parses as `n >= 0` the generator pads the text of `n + 1`. */
  lemma NextOfParsed(last: string, n: int)
    requires last != "" && n >= 0 && ReadOrderNumber(last) == Some(n)
    ensures NextOrderNumber(LastNumber(last)) == NumberPrefix + PadStart(NatToString(n + 1), NumberWidth, '0')
  {
    NextUnfold(last);
    SuccessorOfNat(n);
  }

  lemma NextUnfold(last: string)
    requires last != ""
    ensures NextOrderNumber(LastNumber(last))
         == NumberPrefix + PadStart(SuccessorText(ReadOrderNumber(last)), NumberWidth, '0')
  {
  }

  lemma SuccessorOfNat(n: int)
    requires n >= 0
    ensures SuccessorText(Some(n)) == NatToString(n + 1)
  {
    NatText(n + 1);
  }

  /** "ORD-" in front of a digit string is a well-formed number of that value. */
  lemma PrefixedDigits(d: string)
    requires |d| > 0 && AllDigits(d)
    ensures WellFormedNumber(NumberPrefix + d) && NumberValue(NumberPrefix + d) == DigitsValue(d)
    ensures |NumberPrefix + d| == |NumberPrefix| + |d|
  {
    StripPrefix(d);
  }

  /** `parseInt` of a well-formed number with "ORD-" removed is the number's value. */
  lemma ReadWellFormed(s: string)
    requires WellFormedNumber(s)
    ensures ReadOrderNumber(s) == Some(NumberValue(s))
  {
    var d := s[|NumberPrefix|..];
    assert s == NumberPrefix + d;
    StripPrefix(d);
    ParseIntOfDigits(d);
  }

  lemma StripPrefix(d: string)
    ensures (NumberPrefix + d)[..|NumberPrefix|] == NumberPrefix && (NumberPrefix + d)[|NumberPrefix|..] == d
    ensures ReplaceFirst(NumberPrefix + d, NumberPrefix, "") == d
  {
  }

  /**
    A stored number whose text after "ORD-" starts with neither white space,
    a sign nor a digit parses as NaN, and the generator writes "ORD-0000NaN".
  */
  lemma UnparsableNumberGivesNaN(d: string)
    requires |d| > 0 && !IsJsSpace(d[0]) && !IsDigit(d[0]) && d[0] != '-' && d[0] != '+'
    ensures NextOrderNumber(LastNumber(NumberPrefix + d)) == "ORD-0000NaN"
  {
    ReadUnparsable(d);
    PadNaN();
  }

  lemma ReadUnparsable(d: string)
    requires |d| > 0 && !IsJsSpace(d[0]) && !IsDigit(d[0]) && d[0] != '-' && d[0] != '+'
    ensures ReadOrderNumber(NumberPrefix + d) == None
  {
    StripPrefix(d);
    ParseIntWithoutDigits(d);
  }

  lemma PadNaN()
    ensures PadStart("NaN", NumberWidth, '0') == "0000NaN"
  {
    assert Repeat('0', 4) == "0000";
  }

  // ===== status history =====

  datatype StatusEntry = StatusEntry(status: string, date: int)

  /** The carrier vocabulary, in the spelling stored in histories. */
  const ValidStatuses: seq<string> := [
    "Pending", "Ordered", "Pickup Scheduled", "Picked Up", "In Transit",
    "Out for Delivery", "Delivered", "Returned", "Cancelled", "Refunded"
  ]

  /** Some entry of the history names `status`, ignoring case. */
  predicate HasStatus(history: seq<StatusEntry>, status: string) {
    exists i :: 0 <= i < |history| && Lower(history[i].status) == Lower(status)
  }

  /** No two entries of the history name the same status, ignoring case. */
  predicate UniqueIgnoringCase(history: seq<StatusEntry>) {
    forall i, j :: 0 <= i < j < |history| ==> Lower(history[i].status) != Lower(history[j].status)
  }

  /**
    The history the manual override leaves: `status` is appended exactly when
    no entry already names it ignoring case. The old entries stay in front,
    the status is present afterwards, and a case-insensitively unique history
    stays unique.
  */
  function ManualHistory(history: seq<StatusEntry>, status: string, now: int): (r: seq<StatusEntry>)
    ensures |history| <= |r| <= |history| + 1 && r[..|history|] == history
    ensures |r| == |history| <==> HasStatus(history, status)
    ensures |r| > |history| ==> r[|history|] == StatusEntry(status, now)
    ensures HasStatus(r, status)
    ensures UniqueIgnoringCase(history) ==> UniqueIgnoringCase(r)
  {
    if HasStatus(history, status) then history
    else
      var r := history + [StatusEntry(status, now)];
      assert Lower(r[|history|].status) == Lower(status);
      r
  }

  /** Asking the manual override twice for the same status changes nothing the second time. */
  lemma ManualHistoryIdempotent(history: seq<StatusEntry>, status: string, now: int, later: int)
    ensures ManualHistory(ManualHistory(history, status, now), status, later) == ManualHistory(history, status, now)
  {
  }

  /** The first word of `words` equal to `lowered` once lower-cased. */
  function FindIgnoringCase(words: seq<string>, lowered: string): (r: Option<string>)
    ensures r.Some? ==> r.value in words && Lower(r.value) == lowered
    ensures r.None? ==> forall w :: w in words ==> Lower(w) != lowered
  {
    if |words| == 0 then None
    else if Lower(words[0]) == lowered then Some(words[0])
    else FindIgnoringCase(words[1..], lowered)
  }

  /** `find` returns the first matching word: one that matches before any other does is the result. */
  lemma {:induction false} FindIgnoringCaseFirst(words: seq<string>, lowered: string, i: nat)
    requires i < |words| && Lower(words[i]) == lowered
    requires forall j :: 0 <= j < i ==> Lower(words[j]) != lowered
    ensures FindIgnoringCase(words, lowered) == Some(words[i])
    decreases i
  {
    if i > 0 {
      forall j | 0 <= j < i - 1
        ensures Lower(words[1..][j]) != lowered
      {
        assert words[1..][j] == words[j + 1];
      }
      FindIgnoringCaseFirst(words[1..], lowered, i - 1);
    }
  }

  /**
    The vocabulary spelling of an incoming webhook status: present exactly
    when some vocabulary word equals it ignoring case, and then that word.
  */
  function CanonicalStatus(current: Option<string>): (r: Option<string>)
    ensures r.Some? ==> current.Some? && r.value in ValidStatuses && Lower(r.value) == Lower(current.value)
    ensures r.None? ==> current.None? || forall w :: w in ValidStatuses ==> Lower(w) != Lower(current.value)
  {
    if current.None? then None else FindIgnoringCase(ValidStatuses, Lower(current.value))
  }

  /** No two vocabulary words differ only in case, so the canonical spelling is unique. */
  lemma VocabularyDistinctIgnoringCase()
    ensures forall i, j :: 0 <= i < j < |ValidStatuses| ==> Lower(ValidStatuses[i]) != Lower(ValidStatuses[j])
  {
    var v := ValidStatuses;
    assert forall i, j :: 0 <= i < j < |v| ==>
      |v[i]| != |v[j]| || LowerChar(v[i][0]) != LowerChar(v[j][0]) || LowerChar(v[i][2]) != LowerChar(v[j][2]);
    forall i, j | 0 <= i < j < |v| ensures Lower(v[i]) != Lower(v[j]) {
      if |v[i]| == |v[j]| {
        assert Lower(v[i])[0] == LowerChar(v[i][0]) && Lower(v[j])[0] == LowerChar(v[j][0]);
        assert Lower(v[i])[2] == LowerChar(v[i][2]) && Lower(v[j])[2] == LowerChar(v[j][2]);
      }
    }
  }

  /**
    The history the carrier webhook leaves: the canonical spelling is appended
    exactly when the incoming status is in the vocabulary and no entry already
    names it ignoring case; the old entries stay in front and a unique history
    stays unique.
  */
  function WebhookHistory(history: seq<StatusEntry>, current: Option<string>, now: int): (r: seq<StatusEntry>)
    ensures |history| <= |r| <= |history| + 1 && r[..|history|] == history
    ensures |r| > |history| <==> CanonicalStatus(current).Some? && !HasStatus(history, current.value)
    ensures |r| > |history| ==> r[|history|] == StatusEntry(CanonicalStatus(current).value, now)
    ensures |r| > |history| ==> r[|history|].status in ValidStatuses
    ensures UniqueIgnoringCase(history) ==> UniqueIgnoringCase(r)
  {
    var canonical := CanonicalStatus(current);
    if canonical.Some? && !HasStatus(history, current.value) then
      var r := history + [StatusEntry(canonical.value, now)];
      assert Lower(r[|history|].status) == Lower(current.value);
      r
    else
      history
  }

  /** An order at "Ordered" that receives "ordered" from the carrier keeps its history. */
  lemma WebhookIgnoresCaseVariant(date: int, now: int)
    ensures WebhookHistory([StatusEntry("Ordered", date)], Some("ordered"), now) == [StatusEntry("Ordered", date)]
  {
    var history := [StatusEntry("Ordered", date)];
    assert Lower(history[0].status) == Lower("ordered") == "ordered";
    assert HasStatus(history, "ordered");
  }

  /** A status that equals no vocabulary word ignoring case never reaches the history through the webhook. */
  lemma WebhookRejectsUnknownStatus(history: seq<StatusEntry>, status: string, now: int)
    requires forall w :: w in ValidStatuses ==> Lower(w) != Lower(status)
    ensures WebhookHistory(history, Some(status), now) == history
  {
    var c := CanonicalStatus(Some(status));
    if c.Some? {
      assert false;
    }
  }

  /** The carrier's "Lost" is such a status. */
  lemma WebhookRejectsLost(history: seq<StatusEntry>, now: int)
    ensures WebhookHistory(history, Some("Lost"), now) == history
  {
    assert Lower("Lost") == "lost";
    forall w | w in ValidStatuses ensures Lower(w) != Lower("Lost") {
      VocabularyLowered(w);
    }
    WebhookRejectsUnknownStatus(history, "Lost", now);
  }

  lemma VocabularyLowered(w: string)
    requires w in ValidStatuses
    ensures Lower(w) != "lost"
  {
    assert |w| != 4;
  }

  // ===== orders =====

  datatype PaymentStatus = Pending | Paid

  /** The flat shipping charge every new order carries. */
  const ShippingCharge: int := 50

  class Order {
    var orderNumber: string
    var customer: string
    var totalAmount: real
    var shippingCharges: int
    var paymentMethod: string
    var paymentId: Option<string>
    var paymentStatus: PaymentStatus
    var status: seq<StatusEntry>
    var shiprocketOrderId: Option<string>

    /** The fields no handler here changes after creation. */
    function Fixed(): (string, string, real, int, string)
      reads this
    {
      (orderNumber, customer, totalAmount, shippingCharges, paymentMethod)
    }

    /** `new Order(orderData)`: the stored document starts with payment_status Pending. */
    constructor (orderNumber: string, customer: string, totalAmount: real, paymentMethod: string,
                 paymentId: Option<string>, status: seq<StatusEntry>, shiprocketOrderId: Option<string>)
      ensures this.orderNumber == orderNumber && this.customer == customer
      ensures this.totalAmount == totalAmount && this.shippingCharges == ShippingCharge
      ensures this.paymentMethod == paymentMethod && this.paymentId == paymentId
      ensures this.paymentStatus == Pending
      ensures this.status == status && this.shiprocketOrderId == shiprocketOrderId
    {
      this.orderNumber := orderNumber;
      this.customer := customer;
      this.totalAmount := totalAmount;
      this.shippingCharges := ShippingCharge;
      this.paymentMethod := paymentMethod;
      this.paymentId := paymentId;
      this.paymentStatus := Pending;
      this.status := status;
      this.shiprocketOrderId := shiprocketOrderId;
    }
  }

  /**
    createOrder. `last` is what the generator's lookup of the greatest
    stored order number gave, and the order is stored under the number
    generated from it. `razorpayOrderId` is the id of the order the payment gateway
    created (`None`: that call threw); `carrierOrderId` is the id the carrier
    returned (`None`: that call threw). A COD order starts at "Ordered" with
    its carrier id; a Razorpay order starts with no history and the gateway's
    order id as its payment id.
  */
  method CreateOrder(last: LastOrder, customer: string, amount: real, paymentMethod: string,
                     razorpayOrderId: Option<string>, carrierOrderId: Option<string>, now: int)
    returns (reply: Reply, order: Order?)
    ensures (reply == Thrown) == (order == null)
    ensures reply == Thrown <==>
      (paymentMethod == "Razorpay" && razorpayOrderId.None?) || (paymentMethod == "COD" && carrierOrderId.None?)
    ensures order != null ==> fresh(order) && reply == Reply(201, true)
    ensures order != null ==>
      && order.Fixed() == (NextOrderNumber(last), customer, amount, ShippingCharge, paymentMethod)
      && order.paymentStatus == Pending
      && order.paymentId == (if paymentMethod == "Razorpay" then razorpayOrderId else None)
      && order.status == (if paymentMethod == "COD" then [StatusEntry("Ordered", now)] else [])
      && order.shiprocketOrderId == (if paymentMethod == "COD" then carrierOrderId else None)
  {
    var orderNumber := NextOrderNumber(last);
    if paymentMethod == "Razorpay" && razorpayOrderId.None? {
      return Thrown, null;
    }
    var paymentId := if paymentMethod == "Razorpay" then razorpayOrderId else None;
    var status: seq<StatusEntry> := [];
    var shiprocketOrderId: Option<string> := None;
    if paymentMethod == "COD" {
      if carrierOrderId.None? {
        return Thrown, null;
      }
      status := [StatusEntry("Ordered", now)];
      shiprocketOrderId := carrierOrderId;
    }
    order := new Order(orderNumber, customer, amount, paymentMethod, paymentId, status, shiprocketOrderId);
    reply := Reply(201, true);
  }

  /**
    updatePaymentStatus. With a payment id it records the id, marks the order
    Paid, appends "Ordered" without looking for an earlier one and stores the
    carrier id; if the carrier call throws nothing is saved. Without a payment
    id it only sets the payment status back to Pending.
  */
  method UpdatePaymentStatus(order: Order?, paymentId: Option<string>, carrierOrderId: Option<string>, now: int)
    returns (reply: Reply)
    modifies order
    ensures order == null ==> reply == Reply(404, false)
    ensures order != null ==> order.Fixed() == old(order.Fixed())
    ensures order != null && Truthy(paymentId) && carrierOrderId.None? ==>
      reply == Reply(500, false) && unchanged(order)
    ensures order != null && Truthy(paymentId) && carrierOrderId.Some? ==>
      && reply == Reply(200, true)
      && order.paymentId == paymentId && order.paymentStatus == Paid
      && order.status == old(order.status) + [StatusEntry("Ordered", now)]
      && order.shiprocketOrderId == carrierOrderId
    ensures order != null && !Truthy(paymentId) ==>
      && reply == Reply(200, true)
      && order.paymentStatus == Pending
      && order.paymentId == old(order.paymentId) && order.status == old(order.status)
      && order.shiprocketOrderId == old(order.shiprocketOrderId)
  {
    if order == null {
      return Reply(404, false);
    }
    if Truthy(paymentId) {
      if carrierOrderId.None? {
        return Reply(500, false);
      }
      order.paymentId := paymentId;
      order.paymentStatus := Paid;
      order.status := order.status + [StatusEntry("Ordered", now)];
      order.shiprocketOrderId := carrierOrderId;
    } else {
      order.paymentStatus := Pending;
    }
    reply := Reply(200, true);
  }

  /** A COD order confirmed with a payment id ends up with "Ordered" twice. */
  lemma PaymentConfirmationCanRepeatOrdered(created: int, now: int)
    ensures UniqueIgnoringCase([StatusEntry("Ordered", created)])
    ensures !UniqueIgnoringCase([StatusEntry("Ordered", created)] + [StatusEntry("Ordered", now)])
  {
    var h := [StatusEntry("Ordered", created)] + [StatusEntry("Ordered", now)];
    assert Lower(h[0].status) == Lower(h[1].status);
  }

  /** The signature the server expects: HMAC-SHA256 under the secret of order_id + "|" + payment_id. */
  function ExpectedSignature(hmac: (string, string) -> string, secret: string, orderId: string, paymentId: string): string {
    hmac(secret, orderId + "|" + paymentId)
  }

  /**
    verifyPayment. `order` is what the lookup by payment id found; the lookup
    only happens once the signature matched. A matching signature only marks
    the order Paid; it appends nothing.
  */
  method VerifyPayment(hmac: (string, string) -> string, secret: string, orderId: string, paymentId: string,
                       signature: string, order: Order?)
    returns (reply: Reply)
    modifies order
    ensures signature != ExpectedSignature(hmac, secret, orderId, paymentId) ==>
      reply == Reply(400, false) && (order != null ==> unchanged(order))
    ensures signature == ExpectedSignature(hmac, secret, orderId, paymentId) && order == null ==>
      reply == Reply(404, false)
    ensures signature == ExpectedSignature(hmac, secret, orderId, paymentId) && order != null ==>
      && reply == Reply(200, true)
      && order.paymentStatus == Paid
      && order.Fixed() == old(order.Fixed())
      && order.paymentId == old(order.paymentId) && order.status == old(order.status)
      && order.shiprocketOrderId == old(order.shiprocketOrderId)
  {
    var generated := ExpectedSignature(hmac, secret, orderId, paymentId);
    if generated != signature {
      return Reply(400, false);
    }
    if order == null {
      return Reply(404, false);
    }
    order.paymentStatus := Paid;
    reply := Reply(200, true);
  }

  /**
    updateManualOrderStatus: the history becomes ManualHistory of the old
    one; `success` says whether anything was appended.
  */
  method UpdateManualOrderStatus(order: Order?, status: string, now: int) returns (reply: Reply)
    modifies order
    ensures order == null ==> reply == Reply(404, false)
    ensures order != null ==>
      && reply == Reply(200, !HasStatus(old(order.status), status))
      && order.status == ManualHistory(old(order.status), status, now)
      && order.Fixed() == old(order.Fixed())
      && order.paymentId == old(order.paymentId) && order.paymentStatus == old(order.paymentStatus)
      && order.shiprocketOrderId == old(order.shiprocketOrderId)
  {
    if order == null {
      return Reply(404, false);
    }
    if !HasStatus(order.status, status) {
      order.status := order.status + [StatusEntry(status, now)];
      reply := Reply(200, true);
    } else {
      reply := Reply(200, false);
    }
  }

  /** The webhook's check: the X-Api-Key header equals the configured secret (either may be missing). */
  predicate WebhookAuthorized(token: Option<string>, webhookSecret: Option<string>) {
    token == webhookSecret
  }

  /** With no secret configured, a request without the header passes the check. */
  lemma MissingTokenPassesWithoutSecret()
    ensures WebhookAuthorized(None, None)
    ensures forall t: string :: !WebhookAuthorized(Some(t), None)
  {
  }

  /**
    updateOrderStatus (the carrier webhook). `order` is what the lookup by
    carrier id found. Every authorised request for an existing order answers
    200 with success, whether or not a status was appended.
  */
  method UpdateOrderStatus(token: Option<string>, webhookSecret: Option<string>, order: Order?,
                           currentStatus: Option<string>, now: int)
    returns (reply: Reply)
    modifies order
    ensures !WebhookAuthorized(token, webhookSecret) ==>
      reply == Reply(403, false) && (order != null ==> unchanged(order))
    ensures WebhookAuthorized(token, webhookSecret) && order == null ==> reply == Reply(404, false)
    ensures WebhookAuthorized(token, webhookSecret) && order != null ==>
      && reply == Reply(200, true)
      && order.status == WebhookHistory(old(order.status), currentStatus, now)
      && order.Fixed() == old(order.Fixed())
      && order.paymentId == old(order.paymentId) && order.paymentStatus == old(order.paymentStatus)
      && order.shiprocketOrderId == old(order.shiprocketOrderId)
  {
    if !WebhookAuthorized(token, webhookSecret) {
      return Reply(403, false);
    }
    if order == null {
      return Reply(404, false);
    }
    var canonical := CanonicalStatus(currentStatus);
    if canonical.Some? && !HasStatus(order.status, currentStatus.value) {
      order.status := order.status + [StatusEntry(canonical.value, now)];
    }
    reply := Reply(200, true);
  }

  /**
    The cancellation guard: an empty history makes the index access throw
    inside the handler's try (500); otherwise only the last entry is
    consulted, and an exact "Delivered" there is refused with 400.
  */
  function CancelReply(history: seq<StatusEntry>): (r: Reply)
    ensures r == Reply(500, false) <==> |history| == 0
    ensures r == Reply(400, false) <==> |history| > 0 && history[|history| - 1].status == "Delivered"
    ensures r == Reply(200, true) <==> |history| > 0 && history[|history| - 1].status != "Delivered"
  {
    if |history| == 0 then Reply(500, false)
    else if history[|history| - 1].status == "Delivered" then Reply(400, false)
    else Reply(200, true)
  }

  /** Entries before the last one play no part in the cancellation guard. */
  lemma CancelLooksOnlyAtLast(earlier: seq<StatusEntry>, other: seq<StatusEntry>, last: StatusEntry)
    ensures CancelReply(earlier + [last]) == CancelReply(other + [last])
  {
  }

  /** cancelOrder, up to the order's own cancellation routine. */
  method CancelOrder(order: Order?) returns (reply: Reply)
    ensures order == null ==> reply == Reply(404, false)
    ensures order != null ==> reply == CancelReply(order.status)
  {
    if order == null {
      return Reply(404, false);
    }
    reply := CancelReply(order.status);
  }

  // ===== listings =====

  /** The filter of getAllOrders and myOrders: pending Razorpay orders are hidden. */
  predicate Listed(paymentMethod: string, paymentStatus: PaymentStatus) {
    paymentMethod != "Razorpay" || paymentStatus != Pending
  }

  /** The listed orders, in their original order: exactly the orders the filter keeps. */
  function ListedOrders(orders: seq<Order>): (r: seq<Order>)
    reads orders
    ensures |r| <= |orders|
    ensures forall i :: 0 <= i < |r| ==> r[i] in orders && Listed(r[i].paymentMethod, r[i].paymentStatus)
    ensures forall i :: 0 <= i < |orders| && Listed(orders[i].paymentMethod, orders[i].paymentStatus) ==> orders[i] in r
  {
    if |orders| == 0 then []
    else
      var rest := ListedOrders(orders[1..]);
      assert forall i :: 1 <= i < |orders| ==> orders[i] == orders[1..][i - 1];
      if Listed(orders[0].paymentMethod, orders[0].paymentStatus) then [orders[0]] + rest else rest
  }
  /** The filter keeps the relative order and the multiplicity: it works run by run. */
  lemma {:induction false} ListedOrdersConcat(a: seq<Order>, b: seq<Order>)
    ensures ListedOrders(a + b) == ListedOrders(a) + ListedOrders(b)
    decreases |a|
  {
    if |a| == 0 {
      assert a + b == b;
    } else {
      assert (a + b)[0] == a[0];
      assert (a + b)[1..] == a[1..] + b;
      ListedOrdersConcat(a[1..], b);
    }
  }

  /** One more stored order is listed after the others exactly when the filter keeps it. */
  lemma ListedOrdersSnoc(orders: seq<Order>, o: Order)
    ensures ListedOrders(orders + [o]) ==
      ListedOrders(orders) + if Listed(o.paymentMethod, o.paymentStatus) then [o] else []
  {
    ListedOrdersConcat(orders, [o]);
    assert [o][1..] == [];
  }


  /** myOrders: the listed orders of one customer. */
  function CustomerOrders(orders: seq<Order>, customer: string): (r: seq<Order>)
    reads orders
    ensures forall i :: 0 <= i < |r| ==>
      r[i] in orders && r[i].customer == customer && Listed(r[i].paymentMethod, r[i].paymentStatus)
    ensures forall i :: 0 <= i < |orders| ==>
      (orders[i].customer == customer && Listed(orders[i].paymentMethod, orders[i].paymentStatus) ==> orders[i] in r)
  {
    var listed := ListedOrders(orders);
    var r := Owned(listed, customer);
    forall i | 0 <= i < |orders| && orders[i].customer == customer
      && Listed(orders[i].paymentMethod, orders[i].paymentStatus)
      ensures orders[i] in r
    {
      var j :| 0 <= j < |listed| && listed[j] == orders[i];
    }
    r
  }

  /** The orders of one customer, in their original order. */
  function Owned(orders: seq<Order>, customer: string): (r: seq<Order>)
    reads orders
    ensures forall i :: 0 <= i < |r| ==> r[i] in orders && r[i].customer == customer
    ensures forall i :: 0 <= i < |orders| && orders[i].customer == customer ==> orders[i] in r
  {
    if |orders| == 0 then []
    else
      var rest := Owned(orders[1..], customer);
      assert forall i :: 1 <= i < |orders| ==> orders[i] == orders[1..][i - 1];
      if orders[0].customer == customer then [orders[0]] + rest else rest
  }

  /**
    The page getAllOrders answers with: the listed orders after skipping
    perPage * (page - 1) of them, at most perPage of them. A negative skip
    makes the query throw (`None`); a limit of 0 means no limit and a negative
    limit counts by its magnitude.
  */
  function OrdersPage(orders: seq<Order>, page: int, perPage: int): (r: Option<seq<Order>>)
    reads orders
    ensures r.Some? <==> perPage * (page - 1) >= 0
    ensures r.Some? ==> forall i :: 0 <= i < |r.value| ==>
      r.value[i] in orders && Listed(r.value[i].paymentMethod, r.value[i].paymentStatus)
    ensures r.Some? && perPage != 0 ==> |r.value| <= if perPage < 0 then -perPage else perPage
    ensures r.Some? ==>
      var listed, skip, limit := ListedOrders(orders), perPage * (page - 1), if perPage < 0 then -perPage else perPage;
      var available := if skip < |listed| then |listed| - skip else 0;
      && |r.value| == (if limit == 0 || limit >= available then available else limit)
      && forall i :: 0 <= i < |r.value| ==> skip + i < |listed| && r.value[i] == listed[skip + i]
  {
    var listed := ListedOrders(orders);
    var skip := perPage * (page - 1);
    if skip < 0 then None
    else
      var from := if skip < |listed| then skip else |listed|;
      var rest := listed[from..];
      var limit := if perPage < 0 then -perPage else perPage;
      var page := if limit == 0 || limit >= |rest| then rest else rest[..limit];
      assert forall i :: 0 <= i < |page| ==> page[i] == listed[from + i];
      Some(page)
  }
}
