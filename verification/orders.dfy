/** The order document of the server: its enums and line constraints, the
    order-number hook and the totals hook that run before every save. */
module Orders {
  import opened Wrappers
  import Text
  import Seqs

  datatype Status = Pending | Confirmed | InKitchen | OutForDelivery | Delivered | Cancelled

  function StatusName(s: Status): string
  {
    match s
    case Pending => "pending"
    case Confirmed => "confirmed"
    case InKitchen => "in-kitchen"
    case OutForDelivery => "out-for-delivery"
    case Delivered => "delivered"
    case Cancelled => "cancelled"
  }

  /** The status enum: a requested string either names one of the six
      statuses or fails validation on save. */
  function ParseStatus(s: string): (r: Option<Status>)
    ensures r.Some? ==> StatusName(r.value) == s
    ensures r.None? ==> forall st: Status :: StatusName(st) != s
  {
    if s == "pending" then Some(Pending)
    else if s == "confirmed" then Some(Confirmed)
    else if s == "in-kitchen" then Some(InKitchen)
    else if s == "out-for-delivery" then Some(OutForDelivery)
    else if s == "delivered" then Some(Delivered)
    else if s == "cancelled" then Some(Cancelled)
    else None
  }

  lemma {:induction false} StatusRoundTrip(s: Status)
    ensures ParseStatus(StatusName(s)) == Some(s)
  {
  }

  datatype PaymentStatus = PaymentPending | Completed | Failed | Refunded

  function PaymentStatusName(p: PaymentStatus): string
  {
    match p
    case PaymentPending => "pending"
    case Completed => "completed"
    case Failed => "failed"
    case Refunded => "refunded"
  }

  function ParsePaymentStatus(s: string): (r: Option<PaymentStatus>)
    ensures r.Some? ==> PaymentStatusName(r.value) == s
    ensures r.None? ==> forall p: PaymentStatus :: PaymentStatusName(p) != s
  {
    if s == "pending" then Some(PaymentPending)
    else if s == "completed" then Some(Completed)
    else if s == "failed" then Some(Failed)
    else if s == "refunded" then Some(Refunded)
    else None
  }

  lemma {:induction false} PaymentStatusRoundTrip(p: PaymentStatus)
    ensures ParsePaymentStatus(PaymentStatusName(p)) == Some(p)
  {
  }

  datatype PaymentMethod = Razorpay | Cod

  /** The required payment-method enum. */
  function ParsePaymentMethod(s: string): (r: Option<PaymentMethod>)
    ensures r == Some(Razorpay) <==> s == "razorpay"
    ensures r == Some(Cod) <==> s == "cod"
  {
    if s == "razorpay" then Some(Razorpay)
    else if s == "cod" then Some(Cod)
    else None
  }

  /** A customization choice as the line snapshots it: a name and a price. */
  datatype Choice = Choice(name: string, price: int)

  /** The customizations of one line; an absent veggie or meat list is the
      empty list. */
  datatype Customizations = Customizations(
    base: Option<Choice>,
    sauce: Option<Choice>,
    cheese: Option<Choice>,
    veggies: seq<Choice>,
    meat: seq<Choice>)

  /** One order line; `customizations` is `None` when the submitted line has
      no customizations object at all. */
  datatype OrderLine = OrderLine(
    pizza: nat,
    customizations: Option<Customizations>,
    quantity: int,
    price: int)

  datatype Address = Address(street: string, city: string, state: string, zipCode: string, instructions: string)

  /** A calendar date as the server's clock reports it: the full year, the
      month counted from 1, the day of the month. */
  datatype Date = Date(year: nat, month: nat, day: nat)

  datatype Order = Order(
    user: nat,
    orderNumber: string,
    items: seq<OrderLine>,
    subtotal: int,
    tax: real,
    deliveryFee: int,
    total: real,
    status: Status,
    paymentStatus: PaymentStatus,
    paymentMethod: PaymentMethod,
    deliveryAddress: Address,
    specialInstructions: string,
    actualDeliveryTime: Option<int>,
    razorpayPaymentId: Option<string>)

  /** The line constraint of the schema: every quantity is at least 1. */
  predicate ValidLines(items: seq<OrderLine>)
  {
    forall i :: 0 <= i < |items| ==> items[i].quantity >= 1
  }

  // ----- Totals -----

  const TAX_RATE: real := 0.05
  const FREE_DELIVERY_ABOVE: int := 500
  const DELIVERY_FEE: int := 50

  function LineAmount(line: OrderLine): int
  {
    line.price * line.quantity
  }

  /** Σ price × quantity over the lines; 0 for no lines. */
  function Subtotal(items: seq<OrderLine>): int
  {
    Seqs.Sum(items, LineAmount)
  }

  datatype Totals = Totals(subtotal: int, tax: real, deliveryFee: int, total: real)

  /** The totals hook: 5% tax, free delivery strictly above 500, otherwise a
      flat 50, and the total of the three. */
  function ComputeTotals(items: seq<OrderLine>): (t: Totals)
    ensures t.subtotal == Subtotal(items)
    ensures t.deliveryFee == 0 <==> t.subtotal > FREE_DELIVERY_ABOVE
    ensures t.deliveryFee == 0 || t.deliveryFee == DELIVERY_FEE
    ensures 20.0 * t.tax == t.subtotal as real
    ensures t.total == t.subtotal as real + t.tax + t.deliveryFee as real
  {
    var subtotal := Subtotal(items);
    var tax := subtotal as real * TAX_RATE;
    var fee := if subtotal > FREE_DELIVERY_ABOVE then 0 else DELIVERY_FEE;
    Totals(subtotal, tax, fee, subtotal as real + tax + fee as real)
  }

  /** The worked figures: 600 gives 30 / 0 / 630, 400 gives 20 / 50 / 470,
      and exactly 500 still pays the fee. */
  lemma {:induction false} TotalsExamples(items: seq<OrderLine>)
    ensures Subtotal(items) == 600 ==> ComputeTotals(items) == Totals(600, 30.0, 0, 630.0)
    ensures Subtotal(items) == 400 ==> ComputeTotals(items) == Totals(400, 20.0, 50, 470.0)
    ensures Subtotal(items) == 500 ==> ComputeTotals(items).deliveryFee == 50
    ensures |items| == 0 ==> ComputeTotals(items) == Totals(0, 0.0, 50, 50.0)
  {
  }

  /** With non-negative prices the subtotal is non-negative and grows when a
      line is added. */
  lemma {:induction false} SubtotalAppend(items: seq<OrderLine>, line: OrderLine)
    ensures Subtotal(items + [line]) == Subtotal(items) + LineAmount(line)
  {
    Seqs.SumAppend(items, [line], LineAmount);
  }

  // ----- Order number -----

  /** `toString().slice(-2)`: the last two characters, or the whole string
      when it is shorter. */
  function LastTwo(s: string): string
  {
    if |s| >= 2 then s[|s| - 2..] else s
  }

  /** The order number: "PZ", the last two digits of the year, the month and
      the day padded to two digits, and the day's sequence number (orders
      already created today, plus one) padded to three digits. */
  function OrderNumber(date: Date, todayCount: nat): (r: string)
    ensures Text.StartsWith(r, "PZ")
    ensures |r| == 2 + |LastTwo(Text.DecimalString(date.year))|
                 + |Text.PadStart(Text.DecimalString(date.month), 2, '0')|
                 + |Text.PadStart(Text.DecimalString(date.day), 2, '0')|
                 + |Text.PadStart(Text.DecimalString(todayCount + 1), 3, '0')|
  {
    "PZ"
    + LastTwo(Text.DecimalString(date.year))
    + Text.PadStart(Text.DecimalString(date.month), 2, '0')
    + Text.PadStart(Text.DecimalString(date.day), 2, '0')
    + Text.PadStart(Text.DecimalString(todayCount + 1), 3, '0')
  }

  /** The fields an order number encodes. */
  datatype NumberParts = NumberParts(yy: nat, month: nat, day: nat, sequence: nat)

  /** Reads an order number back: "PZ", six digits, then at least three
      digits of sequence. */
  function ParseOrderNumber(s: string): (r: Option<NumberParts>)
  {
    if |s| >= 11 && s[..2] == "PZ" && Text.AllDigits(s[2..]) then
      Some(NumberParts(
        Text.DigitsValue(s[2..4]),
        Text.DigitsValue(s[4..6]),
        Text.DigitsValue(s[6..8]),
        Text.DigitsValue(s[8..])))
    else None
  }

  /** Round trip: for a year with at least two digits and a month and day
      below 100, the order number decodes to the year modulo 100, the month,
      the day and the sequence number. The sequence is never cut to three
      digits, so a day's thousandth order gets a longer number. */
  lemma {:induction false} OrderNumberRoundTrip(date: Date, todayCount: nat)
    requires date.year >= 10 && date.month < 100 && date.day < 100
    ensures ParseOrderNumber(OrderNumber(date, todayCount))
            == Some(NumberParts(date.year % 100, date.month, date.day, todayCount + 1))
    ensures todayCount + 1 < 1000 ==> |OrderNumber(date, todayCount)| == 11
    ensures todayCount + 1 >= 1000 ==> |OrderNumber(date, todayCount)| > 11
  {
    var y := LastTwo(Text.DecimalString(date.year));
    var m := Text.PadStart(Text.DecimalString(date.month), 2, '0');
    var d := Text.PadStart(Text.DecimalString(date.day), 2, '0');
    var q := Text.PadStart(Text.DecimalString(todayCount + 1), 3, '0');
    YearDigits(date.year);
    TwoDigitPad(date.month);
    TwoDigitPad(date.day);
    SequenceField(todayCount + 1);
    ParseFields(y, m, d, q);
  }

  /** The sequence field: at least three digits denoting the sequence
      number, exactly three below 1000. */
  lemma {:induction false} SequenceField(n: nat)
    ensures |Text.PadStart(Text.DecimalString(n), 3, '0')| >= 3
    ensures Text.AllDigits(Text.PadStart(Text.DecimalString(n), 3, '0'))
    ensures Text.DigitsValue(Text.PadStart(Text.DecimalString(n), 3, '0')) == n
    ensures n < 1000 ==> |Text.PadStart(Text.DecimalString(n), 3, '0')| == 3
    ensures n >= 1000 ==> |Text.PadStart(Text.DecimalString(n), 3, '0')| > 3
  {
    Text.ZeroPadValue(Text.DecimalString(n), 3);
    DecimalLength(n);
  }

  /** The parser reads back the four fields of a well-formed number. */
  lemma {:induction false} ParseFields(y: string, m: string, d: string, q: string)
    requires |y| == 2 && |m| == 2 && |d| == 2 && |q| >= 3
    requires Text.AllDigits(y) && Text.AllDigits(m) && Text.AllDigits(d) && Text.AllDigits(q)
    ensures ParseOrderNumber("PZ" + y + m + d + q)
            == Some(NumberParts(Text.DigitsValue(y), Text.DigitsValue(m), Text.DigitsValue(d), Text.DigitsValue(q)))
  {
    var n := "PZ" + y + m + d + q;
    var tail := d + q;
    var digits := y + (m + tail);
    assert n == "PZ" + digits;
    assert n[..2] == "PZ";
    assert n[2..] == digits;
    Text.AllDigitsAppend(d, q);
    Text.AllDigitsAppend(m, tail);
    Text.AllDigitsAppend(y, m + tail);
    assert digits[..2] == y && digits[2..] == m + tail;
    assert (m + tail)[..2] == m && (m + tail)[2..] == tail;
    assert tail[..2] == d && tail[2..] == q;
    assert n[2..4] == digits[..2];
    assert n[4..6] == (m + tail)[..2];
    assert n[6..8] == tail[..2];
    assert n[8..] == tail[2..];
    assert |n| >= 11 && n[..2] == "PZ" && Text.AllDigits(n[2..]);
  }

  /** Two orders of the same day get different numbers. */
  lemma {:induction false} SameDayNumbersDiffer(date: Date, count1: nat, count2: nat)
    requires date.year >= 10 && date.month < 100 && date.day < 100
    requires count1 != count2
    ensures OrderNumber(date, count1) != OrderNumber(date, count2)
  {
    OrderNumberRoundTrip(date, count1);
    OrderNumberRoundTrip(date, count2);
  }

  /** The third order of 15 January 2024. */
  lemma {:induction false} OrderNumberExample()
    ensures OrderNumber(Date(2024, 1, 15), 2) == "PZ240115003"
  {
    assert Text.DecimalString(2) == "2";
    assert Text.DecimalString(20) == "20";
    assert Text.DecimalString(202) == "202";
    assert Text.DecimalString(2024) == "2024";
    assert LastTwo("2024") == "24";
    assert Text.DecimalString(1) == "1";
    assert Text.DecimalString(15) == "15";
    assert Text.DecimalString(3) == "3";
    assert Text.Repeat('0', 1) == "0";
    assert Text.Repeat('0', 2) == "00";
    assert Text.PadStart("1", 2, '0') == "01";
    assert Text.PadStart("15", 2, '0') == "15";
    assert Text.PadStart("3", 3, '0') == "003";
  }

  /** The last two characters of a year of at least two digits are two
      digits denoting the year modulo 100. */
  lemma {:induction false} YearDigits(year: nat)
    requires year >= 10
    ensures |LastTwo(Text.DecimalString(year))| == 2
    ensures Text.AllDigits(LastTwo(Text.DecimalString(year)))
    ensures Text.DigitsValue(LastTwo(Text.DecimalString(year))) == year % 100
  {
    var s := Text.DecimalString(year);
    var p := Text.DecimalString(year / 10);
    assert s == p + [Text.DigitChar(year % 10)];
    var t := LastTwo(s);
    assert t == [p[|p| - 1], Text.DigitChar(year % 10)];
    assert t[..1] == [p[|p| - 1]];
    assert t[..1][..0] == [];
    assert Text.DigitsValue(t[..1]) == Text.DigitOf(p[|p| - 1]);
    assert Text.DigitOf(t[1]) == year % 10;
    assert Text.DigitsValue(t) == 10 * Text.DigitOf(p[|p| - 1]) + year % 10;
    assert Text.DigitOf(p[|p| - 1]) == (year / 10) % 10;
    DivMod100(year);
  }

  lemma {:induction false} DivMod100(n: nat)
    ensures 10 * ((n / 10) % 10) + n % 10 == n % 100
  {
    var q, r := n / 10, n % 10;
    var q2, r2 := q / 10, q % 10;
    assert n == 100 * q2 + (10 * r2 + r);
    assert 0 <= 10 * r2 + r < 100;
    assert n / 100 == q2;
  }

  /** A number below 100 padded to two places is two digits of its value. */
  lemma {:induction false} TwoDigitPad(n: nat)
    requires n < 100
    ensures |Text.PadStart(Text.DecimalString(n), 2, '0')| == 2
    ensures Text.AllDigits(Text.PadStart(Text.DecimalString(n), 2, '0'))
    ensures Text.DigitsValue(Text.PadStart(Text.DecimalString(n), 2, '0')) == n
  {
    DecimalLength(n);
    Text.ZeroPadValue(Text.DecimalString(n), 2);
  }

  /** How many digits `toString` produces, at the widths that matter here. */
  lemma {:induction false} DecimalLength(n: nat)
    ensures n < 10 ==> |Text.DecimalString(n)| == 1
    ensures n < 100 ==> |Text.DecimalString(n)| <= 2
    ensures n < 1000 ==> |Text.DecimalString(n)| <= 3
    ensures n >= 1000 ==> |Text.DecimalString(n)| >= 4
  {
    if n >= 10 {
      DecimalLength(n / 10);
    }
  }

  // ----- The pre-save hooks -----

  /** Both pre-save hooks: a new document gets its order number, and a new
      document or one whose lines changed gets fresh totals; everything else
      is kept as stored. */
  function PreSave(o: Order, isNew: bool, itemsModified: bool, date: Date, todayCount: nat): (r: Order)
    ensures isNew ==> r.orderNumber == OrderNumber(date, todayCount)
    ensures !isNew ==> r.orderNumber == o.orderNumber
    ensures isNew || itemsModified ==>
              Totals(r.subtotal, r.tax, r.deliveryFee, r.total) == ComputeTotals(o.items)
    ensures !isNew && !itemsModified ==>
              (r.subtotal, r.tax, r.deliveryFee, r.total) == (o.subtotal, o.tax, o.deliveryFee, o.total)
    ensures r.(orderNumber := o.orderNumber, subtotal := o.subtotal, tax := o.tax,
               deliveryFee := o.deliveryFee, total := o.total) == o
  {
    var numbered := if isNew then o.(orderNumber := OrderNumber(date, todayCount)) else o;
    if isNew || itemsModified then
      var t := ComputeTotals(o.items);
      numbered.(subtotal := t.subtotal, tax := t.tax, deliveryFee := t.deliveryFee, total := t.total)
    else numbered
  }

  /** A freshly created order: schema defaults `pending` / `pending`, no
      delivery time, then both pre-save hooks. */
  function NewOrder(user: nat, items: seq<OrderLine>, address: Address, instructions: string,
                    payment: PaymentMethod, date: Date, todayCount: nat): (r: Order)
    ensures r.status == Pending && r.paymentStatus == PaymentPending
    ensures r.items == items && r.user == user && r.paymentMethod == payment
    ensures r.deliveryAddress == address && r.specialInstructions == instructions
    ensures r.orderNumber == OrderNumber(date, todayCount)
    ensures Totals(r.subtotal, r.tax, r.deliveryFee, r.total) == ComputeTotals(items)
    ensures r.actualDeliveryTime.None? && r.razorpayPaymentId.None?
  {
    var draft := Order(user, "", items, 0, 0.0, 0, 0.0, Pending, PaymentPending, payment,
                       address, instructions, None, None);
    PreSave(draft, true, true, date, todayCount)
  }
}
