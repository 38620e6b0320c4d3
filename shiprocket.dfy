/**
  The carrier order payload that createShiprocketOrder builds: per-item SKUs,
  the billing first and last name, the payment-method label, the order-date
  text, the package dimensions folded over the line items, and the order
  items. The authentication and the HTTP call themselves are not modelled.
*/
module ShipRocket {
  import opened Wrappers
  import opened JsStrings

  /** The product fields of a line item the payload reads. */
  datatype ProductInfo = ProductInfo(
    name: string, category: Option<string>, id: Option<string>,
    length: real, width: real, height: real, weight: real)

  datatype LineItem = LineItem(product: ProductInfo, quantity: int, price: real)

  function Min(a: int, b: int): int { if a <= b then a else b }

  // ===== SKU =====

  /** The category part of a SKU: the category's first three characters upper-cased, or "GEN". */
  function CategoryCode(category: Option<string>): (r: string)
    ensures Truthy(category) ==> |r| == Min(3, |category.value|)
    ensures Truthy(category) ==> Lower(r) == Lower(category.value[..|r|])
    ensures forall i :: 0 <= i < |r| ==> !IsLowerAscii(r[i])
    ensures !Truthy(category) ==> r == "GEN"
  {
    if Truthy(category) then
      var c := category.value;
      var head := c[..Min(3, |c|)];
      LowerUpper(head);
      Upper(head)
    else
      "GEN"
  }

  /** The id part of a SKU: the id's last four characters (all of a shorter id), or "0000". */
  function IdCode(id: Option<string>): (r: string)
    ensures Truthy(id) ==> |r| == Min(4, |id.value|) && r == id.value[|id.value| - |r|..]
    ensures !Truthy(id) ==> r == "0000"
  {
    if Truthy(id) then
      var s := id.value;
      s[|s| - Min(4, |s|)..]
    else
      "0000"
  }

  /**
    generateSKU: the category code, a dash, and the id code. The code in
    front is upper case and equals the start of the category ignoring case;
    the text after the dash is the tail of the id.
  */
  function GenerateSku(item: LineItem): (r: string)
    ensures var k := |CategoryCode(item.product.category)|;
      && |r| == k + 1 + |IdCode(item.product.id)|
      && r[k] == '-'
      && (forall i :: 0 <= i < k ==> !IsLowerAscii(r[i]))
      && (Truthy(item.product.category) ==>
            k == Min(3, |item.product.category.value|)
            && Lower(r[..k]) == Lower(item.product.category.value[..k]))
      && (!Truthy(item.product.category) ==> r[..k] == "GEN")
      && (Truthy(item.product.id) ==>
            r[k + 1..] == item.product.id.value[|item.product.id.value| - Min(4, |item.product.id.value|)..])
      && (!Truthy(item.product.id) ==> r[k + 1..] == "0000")
  {
    var prefix := CategoryCode(item.product.category);
    var suffix := IdCode(item.product.id);
    var r := prefix + "-" + suffix;
    assert r[..|prefix|] == prefix && r[|prefix| + 1..] == suffix;
    r
  }

  // ===== billing name =====

  /** `name.split(' ')[0]`: the text before the first space (all of it when there is none). */
  function FirstName(name: string): (r: string)
    ensures r == name[..IndexOf(name, ' ')]
    ensures ' ' !in r
  {
    SplitStep(name, ' ');
    var i := IndexOf(name, ' ');
    assert forall j :: 0 <= j < i ==> name[..i][j] != ' ';
    Split(name, ' ')[0]
  }

  /** `name.split(' ').slice(1).join(' ')`: the text after the first space, or "" when there is none. */
  function NameRemainder(name: string): (r: string)
    ensures IndexOf(name, ' ') < |name| ==> r == name[IndexOf(name, ' ') + 1..]
    ensures IndexOf(name, ' ') == |name| ==> r == ""
  {
    var i := IndexOf(name, ' ');
    SplitStep(name, ' ');
    if i < |name| then
      JoinSplit(name[i + 1..], ' ');
      Join(Split(name, ' ')[1..], ' ')
    else
      assert |Split(name, ' ')[1..]| == 0;
      Join(Split(name, ' ')[1..], ' ')
  }

  /** The billing last name: the remainder after the first space, or "NA" when that is empty. */
  function LastName(name: string): (r: string)
    ensures NameRemainder(name) == "" ==> r == "NA"
    ensures NameRemainder(name) != "" ==> r == NameRemainder(name)
  {
    var rest := NameRemainder(name);
    if rest == "" then "NA" else rest
  }

  /**
    Unless the last name is the "NA" fallback, first name, a space and last
    name give back the full name; a name without a space is all first name.
  */
  lemma NameReconstructs(name: string)
    ensures NameRemainder(name) != "" ==> FirstName(name) + " " + LastName(name) == name
    ensures ' ' !in name ==> FirstName(name) == name && LastName(name) == "NA"
  {
    var i := IndexOf(name, ' ');
    if i < |name| {
      assert name == name[..i] + " " + name[i + 1..];
    } else {
      assert name[..i] == name;
    }
  }

  // ===== payment method =====

  /** The carrier's payment label: COD stays COD, anything else is Prepaid. */
  function PaymentLabel(paymentMethod: string): (r: string)
    ensures r == "COD" || r == "Prepaid"
    ensures r == "COD" <==> paymentMethod == "COD"
  {
    if paymentMethod == "COD" then "COD" else "Prepaid"
  }

  // ===== order date =====

  /** The ranges a valid Date's local-time getters return. */
  type Month0 = m: int | 0 <= m < 12
  type DayOfMonth = x: int | 1 <= x <= 31 witness 1
  type Hour = h: int | 0 <= h < 24
  type Minute = m: int | 0 <= m < 60

  /** A date as its local-time fields; `month` is zero-based, as getMonth() returns it. */
  datatype DateParts = DateParts(year: int, month: Month0, day: DayOfMonth, hours: Hour, minutes: Minute)

  /** A number below 100 as two digits: its tens digit (zero below 10), then its units digit. */
  function TwoDigits(n: int): string
    requires 0 <= n < 100
  {
    [DigitChar(n / 10), DigitChar(n % 10)]
  }

  /** The two digits are what `String(n).padStart(2, '0')` writes. */
  lemma TwoDigitsPadded(n: int)
    requires 0 <= n < 100
    ensures TwoDigits(n) == PadStart(IntToString(n), 2, '0')
  {
    NatText(n);
    if n < 10 {
      assert NatToString(n) == [DigitChar(n)];
      assert Repeat('0', 1) == ['0'];
      assert DigitChar(0) == '0';
    } else {
      assert NatToString(n / 10) == [DigitChar(n / 10)];
      assert NatToString(n) == [DigitChar(n / 10), DigitChar(n % 10)];
    }
  }

  /** The two digits read back as `n`. */
  lemma TwoDigitsOf(n: int)
    requires 0 <= n < 100
    ensures |TwoDigits(n)| == 2 && AllDigits(TwoDigits(n)) && DigitsValue(TwoDigits(n)) == n
  {
    var t := TwoDigits(n);
    assert t[..1] == [DigitChar(n / 10)] && t[..1][..0] == [];
    assert DigitValue(t[0]) == n / 10 && DigitValue(t[1]) == n % 10;
    assert DigitsValue(t[..1]) == n / 10;
  }

  /** The "Y-MO-DA HO:MI" layout of formatDate. */
  function DateText(y: string, mo: string, da: string, ho: string, mi: string): string {
    y + "-" + mo + "-" + da + " " + ho + ":" + mi
  }

  /** formatDate: the year, then month (one-based), day, hours and minutes padded to two digits. */
  function FormatDate(d: DateParts): string {
    DateText(IntToString(d.year), TwoDigits(d.month + 1), TwoDigits(d.day), TwoDigits(d.hours), TwoDigits(d.minutes))
  }

  /** Where the fields sit in "Y-MO-DA HO:MI" when the four fields are two characters each. */
  lemma DateLayout(y: string, mo: string, da: string, ho: string, mi: string)
    requires |mo| == 2 && |da| == 2 && |ho| == 2 && |mi| == 2
    ensures var r := DateText(y, mo, da, ho, mi); var n := |y|;
      && |r| == n + 12 && r[..n] == y
      && r[n] == '-' && r[n + 3] == '-' && r[n + 6] == ' ' && r[n + 9] == ':'
      && r[n + 1..n + 3] == mo && r[n + 4..n + 6] == da && r[n + 7..n + 9] == ho && r[n + 10..] == mi
  {
  }

  /** Where the year, the separators and the four fields sit in the formatted date. */
  lemma FormatDateLayout(d: DateParts)
    ensures var r := FormatDate(d); var n := |r| - 12;
      && n == |IntToString(d.year)| && r[..n] == IntToString(d.year)
      && r[n] == '-' && r[n + 3] == '-' && r[n + 6] == ' ' && r[n + 9] == ':'
      && r[n + 1..n + 3] == TwoDigits(d.month + 1) && r[n + 4..n + 6] == TwoDigits(d.day)
      && r[n + 7..n + 9] == TwoDigits(d.hours) && r[n + 10..] == TwoDigits(d.minutes)
  {
    DateLayout(IntToString(d.year), TwoDigits(d.month + 1), TwoDigits(d.day), TwoDigits(d.hours), TwoDigits(d.minutes));
  }

  /**
    For a non-negative year, the formatted date ends in the twelve characters
    "-MM-DD HH:MM" whose two-digit fields read back as the one-based month, the
    day, the hours and the minutes, after the year's own digits.
  */
  lemma FormatDateFields(d: DateParts)
    requires d.year >= 0
    ensures var r := FormatDate(d); var n := |r| - 12;
      && n > 0 && AllDigits(r[..n]) && DigitsValue(r[..n]) == d.year
      && r[n] == '-' && r[n + 3] == '-' && r[n + 6] == ' ' && r[n + 9] == ':'
      && AllDigits(r[n + 1..n + 3]) && DigitsValue(r[n + 1..n + 3]) == d.month + 1
      && AllDigits(r[n + 4..n + 6]) && DigitsValue(r[n + 4..n + 6]) == d.day
      && AllDigits(r[n + 7..n + 9]) && DigitsValue(r[n + 7..n + 9]) == d.hours
      && AllDigits(r[n + 10..]) && DigitsValue(r[n + 10..]) == d.minutes
  {
    FormatDateLayout(d);
    NatText(d.year);
    TwoDigitsOf(d.month + 1);
    TwoDigitsOf(d.day);
    TwoDigitsOf(d.hours);
    TwoDigitsOf(d.minutes);
  }

  // ===== package dimensions =====

  /** The accumulator of the dimensions fold. */
  datatype Package = Package(length: real, breadth: real, height: real, weight: real, volume: real)

  function Max(a: real, b: real): real { if a >= b then a else b }

  /**
    The largest value `f` takes on the items, or 0 when that is larger or there
    are no items (the fold starts from 0).
  */
  function MaxOf(items: seq<LineItem>, f: LineItem -> real): (m: real)
    ensures m >= 0.0
  {
    if |items| == 0 then 0.0 else Max(f(items[0]), MaxOf(items[1..], f))
  }

  /** The maximum bounds every value and is one of them unless it is the starting 0. */
  lemma {:induction false} MaxOfBounds(items: seq<LineItem>, f: LineItem -> real)
    ensures forall i :: 0 <= i < |items| ==> f(items[i]) <= MaxOf(items, f)
    ensures MaxOf(items, f) == 0.0 || exists i :: 0 <= i < |items| && MaxOf(items, f) == f(items[i])
    decreases |items|
  {
    if |items| > 0 {
      MaxOfBounds(items[1..], f);
      assert forall i :: 1 <= i < |items| ==> items[i] == items[1..][i - 1];
      if MaxOf(items, f) != 0.0 && MaxOf(items, f) != f(items[0]) {
        var j :| 0 <= j < |items[1..]| && MaxOf(items[1..], f) == f(items[1..][j]);
        assert MaxOf(items, f) == f(items[j + 1]);
      }
    }
  }

  /** The sum of `f` over the items. */
  function SumOf(items: seq<LineItem>, f: LineItem -> real): real {
    if |items| == 0 then 0.0 else f(items[0]) + SumOf(items[1..], f)
  }

  lemma {:induction false} MaxOfSnoc(items: seq<LineItem>, x: LineItem, f: LineItem -> real)
    ensures MaxOf(items + [x], f) == Max(MaxOf(items, f), f(x))
    decreases |items|
  {
    if |items| > 0 {
      assert (items + [x])[1..] == items[1..] + [x];
      MaxOfSnoc(items[1..], x, f);
    } else {
      assert (items + [x])[1..] == [];
    }
  }

  /** The sum over two runs of items is the sum of their sums: the fold's order does not matter. */
  lemma {:induction false} SumOfConcat(a: seq<LineItem>, b: seq<LineItem>, f: LineItem -> real)
    ensures SumOf(a + b, f) == SumOf(a, f) + SumOf(b, f)
    decreases |a|
  {
    if |a| > 0 {
      assert (a + b)[1..] == a[1..] + b;
      SumOfConcat(a[1..], b, f);
    } else {
      assert a + b == b;
    }
  }

  lemma SumOfSnoc(items: seq<LineItem>, x: LineItem, f: LineItem -> real)
    ensures SumOf(items + [x], f) == SumOf(items, f) + f(x)
  {
    SumOfConcat(items, [x], f);
    assert SumOf([x], f) == f(x) + SumOf([], f);
  }

  function ItemLength(item: LineItem): real { item.product.length }

  function ItemBreadth(item: LineItem): real { item.product.width }

  function ItemHeight(item: LineItem): real { item.product.height * item.quantity as real }

  function ItemWeight(item: LineItem): real { item.product.weight * item.quantity as real }

  function ItemVolume(item: LineItem): real {
    item.product.length * item.product.width * item.product.height * item.quantity as real
  }

  /** The reduce callback: fold one line item into the accumulator. */
  function AddItem(acc: Package, item: LineItem): Package {
    Package(
      Max(acc.length, ItemLength(item)),
      Max(acc.breadth, ItemBreadth(item)),
      acc.height + ItemHeight(item),
      acc.weight + ItemWeight(item),
      acc.volume + ItemVolume(item))
  }

  /**
    What the fold promises: the largest length and breadth (at least 0) and
    the quantity-scaled sums of height, weight and volume.
  */
  function Totals(items: seq<LineItem>): Package {
    Package(
      MaxOf(items, ItemLength), MaxOf(items, ItemBreadth),
      SumOf(items, ItemHeight), SumOf(items, ItemWeight), SumOf(items, ItemVolume))
  }

  lemma TotalsEmpty()
    ensures Totals([]) == Package(0.0, 0.0, 0.0, 0.0, 0.0)
  {
  }

  lemma TotalsSnoc(items: seq<LineItem>, x: LineItem)
    ensures Totals(items + [x]) == AddItem(Totals(items), x)
  {
    MaxOfSnoc(items, x, ItemLength);
    MaxOfSnoc(items, x, ItemBreadth);
    SumOfSnoc(items, x, ItemHeight);
    SumOfSnoc(items, x, ItemWeight);
    SumOfSnoc(items, x, ItemVolume);
  }

  /**
    The `totalDimensions` reduce: one pass over the items, starting from an
    all-zero accumulator, that keeps the largest length and breadth and adds
    up height, weight and volume scaled by quantity.
  */
  method TotalDimensions(items: seq<LineItem>) returns (acc: Package)
    ensures acc.length == MaxOf(items, ItemLength) && acc.breadth == MaxOf(items, ItemBreadth)
    ensures acc.height == SumOf(items, ItemHeight) && acc.weight == SumOf(items, ItemWeight)
    ensures acc.volume == SumOf(items, ItemVolume)
  {
    acc := Package(0.0, 0.0, 0.0, 0.0, 0.0);
    var k := 0;
    assert items[..0] == [];
    TotalsEmpty();
    while k < |items|
      invariant 0 <= k <= |items|
      invariant acc == Totals(items[..k])
    {
      assert AddItem(acc, items[k]) == Totals(items[..k + 1]) by {
        assert items[..k + 1] == items[..k] + [items[k]];
        TotalsSnoc(items[..k], items[k]);
      }
      acc := AddItem(acc, items[k]);
      k := k + 1;
    }
    assert items[..|items|] == items;
  }

  // ===== order items and the payload =====

  datatype CarrierItem = CarrierItem(name: string, sku: string, units: int, sellingPrice: real)

  /** The `order_items` map: one carrier item per line item, in the same order. */
  function OrderItems(items: seq<LineItem>): (r: seq<CarrierItem>)
    ensures |r| == |items|
    ensures forall i :: 0 <= i < |items| ==>
      && r[i].name == items[i].product.name
      && r[i].sku == GenerateSku(items[i])
      && r[i].units == items[i].quantity
      && r[i].sellingPrice == items[i].price
  {
    if |items| == 0 then []
    else
      var head := CarrierItem(items[0].product.name, GenerateSku(items[0]), items[0].quantity, items[0].price);
      var rest := OrderItems(items[1..]);
      assert forall i :: 1 <= i < |items| ==> items[i] == items[1..][i - 1];
      [head] + rest
  }

  /** The shipping-address fields the payload reads. */
  datatype Address = Address(
    name: string, addressLine1: string, city: string, pinCode: string,
    state: string, country: string, phoneNumber: string)

  datatype Payload = Payload(
    orderId: string, orderDate: string, pickupLocation: string,
    billingCustomerName: string, billingLastName: string,
    billingAddress: string, billingCity: string, billingPincode: Option<int>,
    billingState: string, billingCountry: string, billingPhone: Option<int>,
    shippingIsBilling: bool, orderItems: seq<CarrierItem>, paymentMethod: string,
    subTotal: real, length: real, breadth: real, height: real, weight: real)

  /** The body createShiprocketOrder posts to the carrier. */
  method BuildPayload(orderId: string, orderDate: DateParts, address: Address, paymentMethod: string,
                      subTotal: real, items: seq<LineItem>)
    returns (p: Payload)
    ensures p.orderId == orderId && p.orderDate == FormatDate(orderDate) && p.pickupLocation == "Home"
    ensures p.billingCustomerName == FirstName(address.name) && p.billingLastName == LastName(address.name)
    ensures p.billingAddress == address.addressLine1 && p.billingCity == address.city
    ensures p.billingPincode == ParseInt(address.pinCode) && p.billingPhone == ParseInt(address.phoneNumber)
    ensures p.billingState == address.state && p.billingCountry == address.country
    ensures p.shippingIsBilling && p.orderItems == OrderItems(items)
    ensures p.paymentMethod == PaymentLabel(paymentMethod) && p.subTotal == subTotal
    ensures p.length == MaxOf(items, ItemLength) && p.breadth == MaxOf(items, ItemBreadth)
    ensures p.height == SumOf(items, ItemHeight) && p.weight == SumOf(items, ItemWeight)
  {
    var dims := TotalDimensions(items);
    p := Payload(
      orderId, FormatDate(orderDate), "Home",
      FirstName(address.name), LastName(address.name),
      address.addressLine1, address.city, ParseInt(address.pinCode),
      address.state, address.country, ParseInt(address.phoneNumber),
      true, OrderItems(items), PaymentLabel(paymentMethod),
      subTotal, dims.length, dims.breadth, dims.height, dims.weight);
  }
}
