/** Sending a receipt over WhatsApp: normalising the phone number to the
    international form `wa.me` wants (country code 62, no `+`), the phone field's
    input handling, and the plain-text receipt and link built by `sendWhatsApp`.
    Price formatting, date/time rendering and URI encoding are passed in. */
module WhatsAppShare {
  import opened Wrappers
  import opened Strings

  /** The national part of a digit string: without a leading 0 trunk prefix or a
      leading 62 country code. */
  function NationalPart(d: string): string
  {
    if StartsWith(d, "0") then d[1..] else if StartsWith(d, "62") then d[2..] else d
  }

  /** The international number for an input: 62 followed by the national part of its
      digits. */
  function NormalizedPhone(input: string): (r: string)
    ensures AllDigits(r) && StartsWith(r, "62")
  {
    "62" + NationalPart(DigitsOf(input))
  }

  /** `formatPhoneNumber`, step by step as the component does it. */
  method FormatPhoneNumber(input: string) returns (cleaned: string)
    ensures cleaned == NormalizedPhone(input)
    ensures AllDigits(cleaned) && StartsWith(cleaned, "62")
  {
    cleaned := DigitsOf(input);
    ghost var digits := cleaned;
    if StartsWith(cleaned, "0") {
      cleaned := "62" + cleaned[1..];
    }
    assert StartsWith(digits, "0") ==> cleaned == "62" + NationalPart(digits);
    assert !StartsWith(digits, "0") ==> cleaned == digits;
    if !StartsWith(cleaned, "62") {
      cleaned := "62" + cleaned;
    } else {
      assert cleaned == "62" + cleaned[2..];
    }
  }

  /** The three rewriting rules, and the empty input. */
  lemma NormalizedPhoneCases(input: string)
    ensures var d := DigitsOf(input);
      && (StartsWith(d, "0") ==> NormalizedPhone(input) == "62" + d[1..])
      && (StartsWith(d, "62") ==> NormalizedPhone(input) == d)
      && (!StartsWith(d, "0") && !StartsWith(d, "62") ==> NormalizedPhone(input) == "62" + d)
      && (d == [] ==> NormalizedPhone(input) == "62")
  {
    var d := DigitsOf(input);
    if StartsWith(d, "62") {
      assert d == "62" + d[2..];
    }
  }

  /** Normalising a normalised number changes nothing. */
  lemma NormalizedPhoneIdempotent(input: string)
    ensures NormalizedPhone(NormalizedPhone(input)) == NormalizedPhone(input)
  {
    var r := NormalizedPhone(input);
    assert DigitsOf(r) == r;
    assert !StartsWith(r, "0") by { assert r[0] == '6'; }
    assert r == "62" + r[2..];
  }

  /** `handlePhoneChange`: what the phone field stores for a new input value. */
  function PhoneFieldValue(input: string): (stored: string)
    ensures DigitsOf(input) == [] ==> stored == ""
    ensures DigitsOf(input) != [] ==> stored == NormalizedPhone(input)
  {
    var cleaned := DigitsOf(input);
    if |cleaned| == 0 then ""
    else if StartsWith(cleaned, "62") then
      assert cleaned[0] == '6' && cleaned == "62" + cleaned[2..];
      cleaned
    else if StartsWith(cleaned, "0") then "62" + cleaned[1..]
    else "62" + cleaned
  }

  /** `s.replace('62', '')`: the first occurrence of 62 removed. */
  function RemoveFirst62(s: string): string
    decreases |s|
  {
    if |s| < 2 then s
    else if s[..2] == "62" then s[2..]
    else [s[0]] + RemoveFirst62(s[1..])
  }

  /** What the phone input shows for a stored number. */
  function DisplayedPhone(stored: string): string
  {
    RemoveFirst62(stored)
  }

  /** The field shows the national part, and typing it back in stores the same number,
      unless the national part itself starts with 0 or 62. */
  lemma DisplayRoundTrip(input: string)
    requires DigitsOf(input) != []
    ensures var stored := PhoneFieldValue(input);
      && DisplayedPhone(stored) == NationalPart(DigitsOf(input))
      && (var n := NationalPart(DigitsOf(input));
          !StartsWith(n, "0") && !StartsWith(n, "62") && n != [] ==> PhoneFieldValue(n) == stored)
  {
    var stored := PhoneFieldValue(input);
    assert stored[..2] == "62";
    var n := NationalPart(DigitsOf(input));
    assert AllDigits(n);
  }

  /** The minimum length `sendWhatsApp` accepts. */
  const MinPhoneLength := 10

  datatype Product = Product(name: string, sellPrice: int)
  datatype CartItem = CartItem(product: Product, quantity: int, finalPrice: Option<int>)
  datatype Receipt = Receipt(id: string, items: seq<CartItem>, subtotal: int, discount: int, total: int)

  /** What the receipt text takes from outside the component: the store name, the
      rendered date and time, the currency formatter and JavaScript's number-to-text
      conversion used for quantities. */
  datatype ReceiptContext = ReceiptContext(
    storeName: Option<string>, date: string, time: string,
    formatPrice: int -> string, numberText: int -> string)

  /** `item.finalPrice || item.product.sellPrice`: an absent or zero final price falls
      back to the selling price. */
  function UnitPrice(item: CartItem): (price: int)
    ensures item.finalPrice.Some? && item.finalPrice.value != 0 ==> price == item.finalPrice.value
    ensures item.finalPrice.None? || item.finalPrice.value == 0 ==> price == item.product.sellPrice
  {
    match item.finalPrice
    case Some(p) => if p != 0 then p else item.product.sellPrice
    case None => item.product.sellPrice
  }

  /** `currentStore?.name || fallback`. */
  function NameOr(storeName: Option<string>, fallback: string): string
  {
    if storeName.Some? && storeName.value != "" then storeName.value else fallback
  }

  /** The horizontal rule: twenty heavy box-drawing strokes. */
  const Rule: string := "\U{2501}\U{2501}\U{2501}\U{2501}\U{2501}\U{2501}\U{2501}\U{2501}\U{2501}\U{2501}\U{2501}\U{2501}\U{2501}\U{2501}\U{2501}\U{2501}\U{2501}\U{2501}\U{2501}\U{2501}"

  function Header(r: Receipt, ctx: ReceiptContext): string
  {
    "*" + NameOr(ctx.storeName, "NOTA PEMBELIAN") + "*\n"
    + Rule + "\n\n"
    + "No: " + r.id + "\n"
    + "Tanggal: " + ctx.date + "\n"
    + "Waktu: " + ctx.time + "\n\n"
    + Rule + "\n\n"
  }

  /** The two lines of one item and the blank line after them. */
  function ItemLines(item: CartItem, ctx: ReceiptContext): string
  {
    var price := UnitPrice(item);
    item.product.name + "\n"
    + ctx.numberText(item.quantity) + " x " + ctx.formatPrice(price) + " = "
    + ctx.formatPrice(price * item.quantity) + "\n\n"
  }

  function ItemsText(items: seq<CartItem>, ctx: ReceiptContext): string
  {
    if items == [] then [] else ItemLines(items[0], ctx) + ItemsText(items[1..], ctx)
  }

  function DiscountLine(discount: int, formatPrice: int -> string): string
  {
    "Diskon: " + formatPrice(discount) + "\n"
  }

  /** The summary up to and including the subtotal line. */
  function SubtotalPart(r: Receipt, ctx: ReceiptContext): string
  {
    Rule + "\n\n" + "Sub Total: " + ctx.formatPrice(r.subtotal) + "\n"
  }

  /** The discount line, printed only for a positive discount. */
  function DiscountPart(r: Receipt, ctx: ReceiptContext): string
  {
    if r.discount > 0 then DiscountLine(r.discount, ctx.formatPrice) else ""
  }

  /** The total, the amount paid (the total again), the change (always Rp 0) and the
      closing greeting. */
  function TotalPart(r: Receipt, ctx: ReceiptContext): string
  {
    "*Total: " + ctx.formatPrice(r.total) + "*\n"
    + "Bayar: " + ctx.formatPrice(r.total) + "\n"
    + "Kembali: Rp 0\n\n"
    + Rule + "\n\n"
    + "Terima kasih atas kunjungan Anda!\n"
    + NameOr(ctx.storeName, "Toko Kami")
  }

  function Summary(r: Receipt, ctx: ReceiptContext): string
  {
    SubtotalPart(r, ctx) + DiscountPart(r, ctx) + TotalPart(r, ctx)
  }

  /** The plain-text receipt. */
  function ReceiptMessage(r: Receipt, ctx: ReceiptContext): string
  {
    Header(r, ctx) + ItemsText(r.items, ctx) + Summary(r, ctx)
  }

  function WhatsAppLink(phone: string, encodedText: string): string
  {
    "https://wa.me/" + phone + "?text=" + encodedText
  }

  lemma {:induction false} ItemsTextAppend(a: seq<CartItem>, b: seq<CartItem>, ctx: ReceiptContext)
    ensures ItemsText(a + b, ctx) == ItemsText(a, ctx) + ItemsText(b, ctx)
  {
    if a == [] {
      assert a + b == b;
    } else {
      assert (a + b)[1..] == a[1..] + b;
      ItemsTextAppend(a[1..], b, ctx);
    }
  }

  lemma ItemsTextSnoc(a: seq<CartItem>, x: CartItem, ctx: ReceiptContext)
    ensures ItemsText(a + [x], ctx) == ItemsText(a, ctx) + ItemLines(x, ctx)
  {
    ItemsTextAppend(a, [x], ctx);
  }

  lemma ItemsTextCut(items: seq<CartItem>, k: int, ctx: ReceiptContext)
    requires 0 <= k <= |items|
    ensures ItemsText(items, ctx) == ItemsText(items[..k], ctx) + ItemsText(items[k..], ctx)
  {
    assert items == items[..k] + items[k..];
    ItemsTextAppend(items[..k], items[k..], ctx);
  }

  lemma ItemsTextSplit(items: seq<CartItem>, k: int, ctx: ReceiptContext)
    requires 0 <= k < |items|
    ensures ItemsText(items, ctx)
      == ItemsText(items[..k], ctx) + ItemLines(items[k], ctx)
         + ItemsText(items[k + 1..], ctx)
  {
    ItemsTextCut(items, k + 1, ctx);
    assert items[..k + 1] == items[..k] + [items[k]];
    ItemsTextSnoc(items[..k], items[k], ctx);
  }

  /** Every item of the receipt is in the message, in cart order: item `k`'s lines,
      with its unit price and its line total, start right after the header and the
      lines of the items before it. */
  lemma ItemInMessage(r: Receipt, ctx: ReceiptContext, k: int)
    requires 0 <= k < |r.items|
    ensures OccursAt(ReceiptMessage(r, ctx), ItemLines(r.items[k], ctx),
                     |Header(r, ctx)| + |ItemsText(r.items[..k], ctx)|)
  {
    ItemsTextSplit(r.items, k, ctx);
    InMiddle(Header(r, ctx), ItemsText(r.items[..k], ctx), ItemLines(r.items[k], ctx),
             ItemsText(r.items[k + 1..], ctx), Summary(r, ctx));
  }

  lemma InMiddle(h: string, pre: string, t: string, post: string, s: string)
    ensures OccursAt(h + (pre + t + post) + s, t, |h| + |pre|)
  {
    assert h + (pre + t + post) + s == (h + pre) + t + (post + s);
    OccursAfter(h + pre, t, post + s);
  }

  lemma Regroup(x: string, y: string, p: string, t: string, q: string)
    ensures x + y + (p + t + q) == (x + y + p) + t + q
  {
  }

  /** A positive discount adds exactly its line, right after the subtotal; any other
      discount prints nothing. */
  lemma DiscountLineOnlyWhenPositive(r: Receipt, ctx: ReceiptContext, d: int)
    ensures d <= 0 ==> ReceiptMessage(r.(discount := d), ctx) == ReceiptMessage(r.(discount := 0), ctx)
    ensures d > 0 ==> |ReceiptMessage(r.(discount := d), ctx)|
                      == |ReceiptMessage(r.(discount := 0), ctx)| + |DiscountLine(d, ctx.formatPrice)|
    ensures d > 0 ==> OccursAt(ReceiptMessage(r.(discount := d), ctx), DiscountLine(d, ctx.formatPrice),
                               |Header(r, ctx)| + |ItemsText(r.items, ctx)| + |SubtotalPart(r, ctx)|)
  {
    var r1 := r.(discount := d);
    var h, items, sub, t, tot := Header(r, ctx), ItemsText(r.items, ctx), SubtotalPart(r, ctx),
                                 DiscountLine(d, ctx.formatPrice), TotalPart(r, ctx);
    assert Header(r1, ctx) == h && SubtotalPart(r1, ctx) == sub && TotalPart(r1, ctx) == tot;
    if d > 0 {
      Regroup(h, items, sub, t, tot);
      OccursAfter(h + items + sub, t, tot);
    }
  }

  lemma Assoc(a: string, b: string, c: string)
    ensures a + b + c == a + (b + c)
  {
  }

  datatype ShareOutcome =
    | InvalidNumber(error: string)
    | SharedImage
    | OpenedLink(url: string, imageDownloaded: bool)

  /** `sendWhatsApp`. `imageGenerated` says whether the receipt image was produced;
      `shareCompleted` whether the Web Share API exists, accepts the file and shares it
      without throwing. */
  method SendWhatsApp(phoneNumber: string, r: Receipt, ctx: ReceiptContext,
                      encodeUri: string -> string, imageGenerated: bool, shareCompleted: bool)
    returns (outcome: ShareOutcome)
    ensures outcome.InvalidNumber? <==> |phoneNumber| < MinPhoneLength
    ensures outcome.InvalidNumber? ==> outcome.error == "Nomor WhatsApp tidak valid"
    ensures outcome.SharedImage? <==> |phoneNumber| >= MinPhoneLength && imageGenerated && shareCompleted
    ensures outcome.OpenedLink? ==>
      && outcome.url == WhatsAppLink(NormalizedPhone(phoneNumber), encodeUri(ReceiptMessage(r, ctx)))
      && outcome.imageDownloaded == imageGenerated
  {
    if phoneNumber == "" || |phoneNumber| < MinPhoneLength {
      return InvalidNumber("Nomor WhatsApp tidak valid");
    }
    var formattedPhone := FormatPhoneNumber(phoneNumber);
    if imageGenerated && shareCompleted {
      return SharedImage;
    }
    var message := Header(r, ctx);
    for i := 0 to |r.items|
      invariant message == Header(r, ctx) + ItemsText(r.items[..i], ctx)
    {
      assert r.items[..i + 1] == r.items[..i] + [r.items[i]];
      ItemsTextSnoc(r.items[..i], r.items[i], ctx);
      Assoc(Header(r, ctx), ItemsText(r.items[..i], ctx), ItemLines(r.items[i], ctx));
      message := message + ItemLines(r.items[i], ctx);
    }
    assert r.items[..|r.items|] == r.items;
    message := message + Summary(r, ctx);
    outcome := OpenedLink(WhatsAppLink(formattedPhone, encodeUri(message)), imageGenerated);
  }

  lemma PrefixThrough(base: string, n: string, rest: string)
    requires |n| >= 2
    ensures StartsWith(base + n + rest, base + n[..2])
    ensures (base + n + rest)[|base|..|base| + |n|] == n
  {
    OccursAfter(base, n, rest);
    assert (base + n + rest)[..|base| + 2] == base + n[..2];
  }

  /** The link goes to the normalised number: after the fixed prefix come 62 and
      digits only, up to the query. */
  lemma LinkTarget(phoneNumber: string, encodedText: string)
    ensures var n := NormalizedPhone(phoneNumber);
      var link := WhatsAppLink(n, encodedText);
      && StartsWith(link, "https://wa.me/62")
      && link[14..14 + |n|] == n && AllDigits(link[14..14 + |n|])
  {
    var n := NormalizedPhone(phoneNumber);
    var base := "https://wa.me/";
    assert WhatsAppLink(n, encodedText) == base + n + ("?text=" + encodedText);
    PrefixThrough(base, n, "?text=" + encodedText);
    assert n[..2] == "62";
    assert base + "62" == "https://wa.me/62";
  }
}
