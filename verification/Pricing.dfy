/**
 Order pricing in doubles against exact cents.

 A double operation is the exact real result passed through `fl`, of which only the rounding bound is known:
 it is off by at most 2^-53 of the exact result (2^53 is 9007199254740992).  Amount texts are decimal strings with two fraction digits,
 as numeric(12,2) columns hold them; a price in the model is its whole number of cents.
 */
module Pricing {
  import opened Wrappers
  import opened Limits

  datatype Result<+T> = Ok(value: T) | NotFound(offerId: int)

  const ARRAY_LIMIT: int := 4294967296         // a list is shorter than 2^32

  function Abs(x: real): real { if x < 0.0 then -x else x }

  predicate IsRounded(y: real, x: real) { 9007199254740992.0 * Abs(y - x) <= Abs(x) }

  ghost predicate Rounds(fl: real -> real) { forall x: real {:trigger IsRounded(fl(x), x)} :: IsRounded(fl(x), x) }

  /* ---------- the code, in doubles ---------- */

  datatype Offer = Offer(price: nat, discountPrice: Option<nat>)

  datatype Item = Item(offerId: int, quantity: nat)

  datatype Line = Line(price: nat, discountPrice: Option<nat>, quantity: nat)

  /** The check constraint of the offer table. */
  predicate Wf(line: Line) { line.discountPrice.Some? ==> line.discountPrice.value <= line.price }

  function ToLine(item: Item, offers: map<int, Offer>): Result<Line> {
    if item.offerId in offers then Ok(Line(offers[item.offerId].price, offers[item.offerId].discountPrice, item.quantity))
    else NotFound(item.offerId)
  }

  /** Every item becomes a line, in order, or the first unknown offer ends the placement. */
  function ToLines(items: seq<Item>, offers: map<int, Offer>): Result<seq<Line>> {
    if items == [] then Ok([])
    else
      var before := ToLines(items[..|items| - 1], offers);
      if before.NotFound? then before
      else
        var last := ToLine(items[|items| - 1], offers);
        if last.NotFound? then NotFound(last.offerId) else Ok(before.value + [last.value])
  }

  function Number(fl: real -> real, cents: nat): real { fl(cents as real / 100.0) }

  function UnitCents(line: Line): nat { if line.discountPrice.Some? then line.discountPrice.value else line.price }

  function Times(x: real, quantity: nat): real { x * quantity as real }

  function Amount(fl: real -> real, line: Line): real { fl(Times(Number(fl, UnitCents(line)), line.quantity)) }

  function Discount(fl: real -> real, line: Line): real {
    fl(Times(fl(Number(fl, line.price) - Number(fl, UnitCents(line))), line.quantity))
  }

  /** reduce((sum, x) => sum + x, 0) */
  function Sum(fl: real -> real, xs: seq<real>): real {
    if xs == [] then 0.0 else fl(Sum(fl, xs[..|xs| - 1]) + xs[|xs| - 1])
  }

  function Amounts(fl: real -> real, lines: seq<Line>): seq<real> {
    seq(|lines|, i requires 0 <= i < |lines| => Amount(fl, lines[i]))
  }

  function Discounts(fl: real -> real, lines: seq<Line>): seq<real> {
    seq(|lines|, i requires 0 <= i < |lines| => Discount(fl, lines[i]))
  }

  /** toFixed(2), in cents; from 10^21 on the text is no longer an amount. */
  function ToFixed(x: real): Option<int> {
    if Abs(x) >= 1000000000000000000000.0 then None
    else Some(if x < 0.0 then -((-x * 100.0 + 0.5).Floor) else (x * 100.0 + 0.5).Floor)
  }

  function FixedTotal(fl: real -> real, lines: seq<Line>): Option<int> { ToFixed(Sum(fl, Amounts(fl, lines))) }

  function FixedDiscount(fl: real -> real, lines: seq<Line>): Option<int> { ToFixed(Sum(fl, Discounts(fl, lines))) }

  /** What a numeric(12,2) column accepts. */
  predicate Fits(cents: Option<int>) { cents.Some? && -NUMERIC_LIMIT < cents.value < NUMERIC_LIMIT }

  /* ---------- exact cents ---------- */

  function ExactSum(cs: seq<nat>): nat { if cs == [] then 0 else ExactSum(cs[..|cs| - 1]) + cs[|cs| - 1] }

  function TotalOf(line: Line): nat { UnitCents(line) * line.quantity }

  function DiscountOf(line: Line): nat
    requires Wf(line)
  {
    (line.price - UnitCents(line)) * line.quantity
  }

  function GrossOf(line: Line): nat { line.price * line.quantity }

  function Totals(lines: seq<Line>): seq<nat> { seq(|lines|, i requires 0 <= i < |lines| => TotalOf(lines[i])) }

  function DiscountsOf(lines: seq<Line>): seq<nat>
    requires forall i | 0 <= i < |lines| :: Wf(lines[i])
  {
    seq(|lines|, i requires 0 <= i < |lines| => DiscountOf(lines[i]))
  }

  function Grosses(lines: seq<Line>): seq<nat> { seq(|lines|, i requires 0 <= i < |lines| => GrossOf(lines[i])) }

  lemma {:induction false} SumsAdd(a: seq<nat>, b: seq<nat>, c: seq<nat>)
    requires |a| == |b| == |c|
    requires forall i | 0 <= i < |a| :: c[i] == a[i] + b[i]
    ensures ExactSum(c) == ExactSum(a) + ExactSum(b)
  {
    if a != [] {
      SumsAdd(a[..|a| - 1], b[..|b| - 1], c[..|c| - 1]);
    }
  }

  /** What is paid and what is taken off make up the gross price. */
  lemma TotalAndDiscountMakeGross(lines: seq<Line>)
    requires forall i | 0 <= i < |lines| :: Wf(lines[i])
    ensures ExactSum(Totals(lines)) + ExactSum(DiscountsOf(lines)) == ExactSum(Grosses(lines))
  {
    forall i | 0 <= i < |lines| ensures Grosses(lines)[i] == Totals(lines)[i] + DiscountsOf(lines)[i] {
      var line := lines[i];
      assert line.price * line.quantity == UnitCents(line) * line.quantity + (line.price - UnitCents(line)) * line.quantity;
    }
    SumsAdd(Totals(lines), DiscountsOf(lines), Grosses(lines));
  }

  /* ---------- toFixed ---------- */

  /** ECMA-262, section 21.1.3.3: the closest n, and the larger of two equally close ones. */
  lemma FixedIsClosest(x: real, n: int)
    requires x >= 0.0 && ToFixed(x).Some?
    ensures var f := ToFixed(x).value;
            f >= 0 && Abs(f as real - x * 100.0) <= Abs(n as real - x * 100.0)
            && (Abs(f as real - x * 100.0) == Abs(n as real - x * 100.0) ==> n <= f)
  {
    var f := (x * 100.0 + 0.5).Floor;
    assert f as real <= x * 100.0 + 0.5 < f as real + 1.0;
    if n < f {
      assert n as real <= f as real - 1.0;
    } else if n > f {
      assert n as real >= f as real + 1.0;
    }
  }

  /** A value less than half a cent away from n cents is formatted as n. */
  lemma FixedNear(x: real, n: nat)
    requires Abs(x * 100.0 - n as real) < 0.5 && Abs(x) < 1000000000000000000000.0
    ensures ToFixed(x) == Some(n)
  {
    if x >= 0.0 {
      var f := (x * 100.0 + 0.5).Floor;
      assert f as real <= x * 100.0 + 0.5 < f as real + 1.0;
      assert (f - n) as real == f as real - n as real;
    } else {
      var f := (-x * 100.0 + 0.5).Floor;
      assert n == 0;
      assert f as real <= -x * 100.0 + 0.5 < f as real + 1.0;
    }
  }

  /* ---------- rounding errors, in cents and units of 2^-53 ---------- */

  /** `x` is within `err` units of `cents`. */
  predicate Near(x: real, cents: real, err: real) { 9007199254740992.0 * Abs(x * 100.0 - cents) <= err }

  lemma ScaleNear(x: real, cents: real, err: real, q: real)
    requires Near(x, cents, err) && q >= 0.0
    ensures Near(x * q, cents * q, err * q)
  {
    var off := x * 100.0 - cents;
    assert (x * q) * 100.0 - cents * q == off * q;
    assert off >= 0.0 ==> off * q >= 0.0;
    assert off < 0.0 ==> off * q <= 0.0 && (-off) * q == -(off * q);
    assert Abs(off * q) == Abs(off) * q;
    assert (9007199254740992.0 * Abs(off)) * q <= err * q;
  }

  /** Rounding a near value: the error grows by the size of the value itself. */
  lemma RoundNear(fl: real -> real, x: real, cents: real, err: real)
    requires Rounds(fl) && Near(x, cents, err)
    ensures Near(fl(x), cents, err + Abs(cents) + err / 9007199254740992.0)
  {
    assert IsRounded(fl(x), x);
  }

  lemma NumberNear(fl: real -> real, cents: nat)
    requires Rounds(fl)
    ensures Near(Number(fl, cents), cents as real, cents as real)
  {
    RoundNear(fl, cents as real / 100.0, cents as real, 0.0);
  }

  lemma NearWithin(x: real, cents: real, err: real, more: real)
    requires Near(x, cents, err) && err <= more
    ensures Near(x, cents, more)
  {
  }

  lemma NearSum(x: real, a: real, e: real, y: real, b: real, f: real)
    requires Near(x, a, e) && Near(y, b, f)
    ensures Near(x + y, a + b, e + f) && Near(x - y, a - b, e + f)
  {
  }

  lemma ProductIsReal(a: int, b: int)
    ensures (a * b) as real == a as real * b as real
  {
  }

  /** Rounding a near value of a size that it does not exceed. */
  lemma RoundNearSize(fl: real -> real, x: real, cents: real, err: real, size: real)
    requires Rounds(fl) && 0.0 <= cents <= size && err <= 3.0 * size && Near(x, cents, err)
    ensures Near(fl(x), cents, err + 1.5 * size)
  {
    RoundNear(fl, x, cents, err);
    NearWithin(fl(x), cents, err + Abs(cents) + err / 9007199254740992.0, err + 1.5 * size);
  }

  lemma AmountNear(fl: real -> real, line: Line)
    requires Rounds(fl)
    ensures Near(Amount(fl, line), TotalOf(line) as real, 4.0 * TotalOf(line) as real)
  {
    var z, total := Times(Number(fl, UnitCents(line)), line.quantity), TotalOf(line) as real;
    assert Near(z, total, total) by {
      ProductIsReal(UnitCents(line), line.quantity);
      NumberNear(fl, UnitCents(line));
      ScaleNear(Number(fl, UnitCents(line)), UnitCents(line) as real, UnitCents(line) as real, line.quantity as real);
    }
    assert Amount(fl, line) == fl(z);
    RoundedProductNear(fl, z, total, total, total);
  }

  lemma RoundedProductNear(fl: real -> real, z: real, cents: real, err: real, size: real)
    requires Rounds(fl) && 0.0 <= cents <= size && err <= 2.5 * size && Near(z, cents, err)
    ensures Near(fl(z), cents, 4.0 * size)
  {
    RoundNearSize(fl, z, cents, err, size);
    NearWithin(fl(z), cents, err + 1.5 * size, 4.0 * size);
  }

  /** The difference of two prices is off by their sizes, not by its own. */
  lemma UnitDiscountNear(fl: real -> real, line: Line)
    requires Rounds(fl) && Wf(line)
    ensures var p, d := line.price, UnitCents(line);
            Near(fl(Number(fl, p) - Number(fl, d)), (p - d) as real, 2.5 * (p + d) as real)
  {
    var p, d := line.price, UnitCents(line);
    var diff, size := (p - d) as real, (p + d) as real;
    NumberNear(fl, p);
    NumberNear(fl, d);
    NearSum(Number(fl, p), p as real, p as real, Number(fl, d), d as real, d as real);
    RoundNearSize(fl, Number(fl, p) - Number(fl, d), diff, size, size);
    NearWithin(fl(Number(fl, p) - Number(fl, d)), diff, size + 1.5 * size, 2.5 * size);
  }

  lemma SizeOfDiscount(line: Line)
    requires Wf(line)
    ensures (line.price + UnitCents(line)) * line.quantity == DiscountOf(line) + 2 * TotalOf(line)
  {
  }

  function DiscountSize(line: Line): nat
    requires Wf(line)
  {
    DiscountOf(line) + 2 * TotalOf(line)
  }

  lemma DiscountProductNear(m: real, line: Line)
    requires Wf(line)
    requires var p, d := line.price, UnitCents(line); Near(m, (p - d) as real, 2.5 * (p + d) as real)
    ensures Near(Times(m, line.quantity), DiscountOf(line) as real, 2.5 * DiscountSize(line) as real)
  {
    var p, d, q := line.price, UnitCents(line), line.quantity;
    ScaleNear(m, (p - d) as real, 2.5 * (p + d) as real, q as real);
    ProductIsReal(p - d, q);
    ProductIsReal(p + d, q);
    SizeOfDiscount(line);
    assert (2.5 * (p + d) as real) * q as real == 2.5 * ((p + d) as real * q as real);
  }

  lemma DiscountNear(fl: real -> real, line: Line)
    requires Rounds(fl) && Wf(line)
    ensures Near(Discount(fl, line), DiscountOf(line) as real, 4.0 * DiscountSize(line) as real)
  {
    var m := fl(Number(fl, line.price) - Number(fl, UnitCents(line)));
    UnitDiscountNear(fl, line);
    DiscountProductNear(m, line);
    var size := DiscountSize(line) as real;
    RoundedProductNear(fl, Times(m, line.quantity), DiscountOf(line) as real, 2.5 * size, size);
  }

  /** The error of a sum of n terms: every term brings four units of its size, and every addition one unit of the sum. */
  function SumErr(n: nat, sum: nat, size: nat): real {
    4.0 * size as real + n as real * (sum as real + size as real / 1000000.0)
  }

  lemma SumErrCoversSize(n: nat, sum: nat, size: nat)
    ensures 4.0 * size as real <= SumErr(n, sum, size)
  {
    var b := sum as real + size as real / 1000000.0;
    assert b >= 0.0;
    assert n as real * b >= 0.0;
  }

  lemma TimesAtMost(n: real, most: real, b: real)
    requires n <= most && b >= 0.0
    ensures n * b <= most * b
  {
  }

  lemma SumErrIsSmall(n: nat, sum: nat, size: nat)
    requires n <= ARRAY_LIMIT && sum <= size
    ensures SumErr(n, sum, size) <= 9007199254740992.0 * (size as real / 1000000.0)
  {
    var b := sum as real + size as real / 1000000.0;
    TimesAtMost(n as real, 4294967296.0, b);
    assert sum as real <= size as real;
    assert SumErr(n, sum, size) <= 4.0 * size as real + 4294967296.0 * b;
  }

  lemma {:induction false} SumNear(fl: real -> real, xs: seq<real>, cents: seq<nat>, sizes: seq<nat>)
    requires Rounds(fl) && |xs| == |cents| == |sizes| <= ARRAY_LIMIT
    requires forall i | 0 <= i < |xs| :: cents[i] <= sizes[i] && Near(xs[i], cents[i] as real, 4.0 * sizes[i] as real)
    ensures ExactSum(cents) <= ExactSum(sizes)
    ensures Near(Sum(fl, xs), ExactSum(cents) as real, SumErr(|xs|, ExactSum(cents), ExactSum(sizes)))
  {
    if xs != [] {
      var n := |xs| - 1;
      SumNear(fl, xs[..n], cents[..n], sizes[..n]);
      var sum', size' := ExactSum(cents[..n]), ExactSum(sizes[..n]);
      var sum, size := ExactSum(cents), ExactSum(sizes);
      var y := Sum(fl, xs[..n]) + xs[n];
      var err := SumErr(n, sum', size') + 4.0 * sizes[n] as real;
      NearSum(Sum(fl, xs[..n]), sum' as real, SumErr(n, sum', size'), xs[n], cents[n] as real, 4.0 * sizes[n] as real);
      assert sum' as real + cents[n] as real == sum as real;
      RoundNear(fl, y, sum as real, err);
      SumErrStep(n, sum, size, sum', size');
      NearWithin(fl(y), sum as real, err + Abs(sum as real) + err / 9007199254740992.0, SumErr(|xs|, sum, size));
    }
  }

  lemma SumErrStep(n: nat, sum: nat, size: nat, sum': nat, size': nat)
    requires sum' <= sum && size' <= size && sum <= size && n < ARRAY_LIMIT
    ensures var err := SumErr(n, sum', size') + 4.0 * (size - size') as real;
            err + sum as real + err / 9007199254740992.0 <= SumErr(n + 1, sum, size)
  {
    var err := SumErr(n, sum', size') + 4.0 * (size - size') as real;
    var b := sum as real + size as real / 1000000.0;
    var b' := sum' as real + size' as real / 1000000.0;
    TimesAtMost(b', b, n as real);
    assert n as real * b' == b' * n as real && n as real * b == b * n as real;
    assert err <= 4.0 * size as real + n as real * b == SumErr(n, sum, size);
    SumErrIsSmall(n, sum, size);
    assert err / 9007199254740992.0 <= size as real / 1000000.0;
    assert (n + 1) as real * b == n as real * b + b;
  }

  /* ---------- the stored amounts are exact ---------- */

  predicate WfLines(lines: seq<Line>) { forall i | 0 <= i < |lines| :: Wf(lines[i]) }

  function ExactTotal(lines: seq<Line>): nat { ExactSum(Totals(lines)) }

  function ExactDiscount(lines: seq<Line>): nat
    requires WfLines(lines)
  {
    ExactSum(DiscountsOf(lines))
  }

  lemma TotalNear(fl: real -> real, lines: seq<Line>)
    requires Rounds(fl) && |lines| <= ARRAY_LIMIT
    ensures Near(Sum(fl, Amounts(fl, lines)), ExactTotal(lines) as real, SumErr(|lines|, ExactTotal(lines), ExactTotal(lines)))
  {
    forall i | 0 <= i < |lines| ensures Near(Amounts(fl, lines)[i], Totals(lines)[i] as real, 4.0 * Totals(lines)[i] as real) {
      AmountNear(fl, lines[i]);
    }
    SumNear(fl, Amounts(fl, lines), Totals(lines), Totals(lines));
  }

  function DiscountSizes(lines: seq<Line>): seq<nat>
    requires WfLines(lines)
  {
    seq(|lines|, i requires 0 <= i < |lines| => DiscountSize(lines[i]))
  }

  lemma DiscountSizesSum(lines: seq<Line>)
    requires WfLines(lines)
    ensures ExactSum(DiscountSizes(lines)) == ExactDiscount(lines) + 2 * ExactTotal(lines)
  {
    var twice: seq<nat> := seq(|lines|, i requires 0 <= i < |lines| => 2 * TotalOf(lines[i]));
    SumsAdd(Totals(lines), Totals(lines), twice);
    SumsAdd(DiscountsOf(lines), twice, DiscountSizes(lines));
  }

  lemma DiscountsNear(fl: real -> real, lines: seq<Line>)
    requires Rounds(fl) && WfLines(lines) && |lines| <= ARRAY_LIMIT
    ensures Near(Sum(fl, Discounts(fl, lines)), ExactDiscount(lines) as real,
                 SumErr(|lines|, ExactDiscount(lines), ExactDiscount(lines) + 2 * ExactTotal(lines)))
  {
    forall i | 0 <= i < |lines|
      ensures Near(Discounts(fl, lines)[i], DiscountsOf(lines)[i] as real, 4.0 * DiscountSizes(lines)[i] as real)
    {
      DiscountNear(fl, lines[i]);
    }
    SumNear(fl, Discounts(fl, lines), DiscountsOf(lines), DiscountSizes(lines));
    DiscountSizesSum(lines);
  }

  lemma NearIsFixed(x: real, n: nat, err: real)
    requires Near(x, n as real, err) && err < 4503599627370496.0 && n < 1_000_000_000_000_000_000_000
    ensures ToFixed(x) == Some(n)
  {
    FixedNear(x, n);
  }

  /** Any order whose accumulated error stays under half a cent: `SumErr` counts units of 2^-53 cents. */
  lemma TotalIsExact(fl: real -> real, lines: seq<Line>)
    requires Rounds(fl) && |lines| <= ARRAY_LIMIT
    requires SumErr(|lines|, ExactTotal(lines), ExactTotal(lines)) < 4503599627370496.0
    ensures FixedTotal(fl, lines) == Some(ExactTotal(lines))
  {
    TotalNear(fl, lines);
    var t := ExactTotal(lines);
    SumErrCoversSize(|lines|, t, t);
    NearIsFixed(Sum(fl, Amounts(fl, lines)), t, SumErr(|lines|, t, t));
  }

  lemma DiscountIsExact(fl: real -> real, lines: seq<Line>)
    requires Rounds(fl) && WfLines(lines) && |lines| <= ARRAY_LIMIT
    requires SumErr(|lines|, ExactDiscount(lines), ExactDiscount(lines) + 2 * ExactTotal(lines)) < 4503599627370496.0
    ensures FixedDiscount(fl, lines) == Some(ExactDiscount(lines))
  {
    DiscountsNear(fl, lines);
    var d, size := ExactDiscount(lines), ExactDiscount(lines) + 2 * ExactTotal(lines);
    SumErrCoversSize(|lines|, d, size);
    NearIsFixed(Sum(fl, Discounts(fl, lines)), d, SumErr(|lines|, d, size));
  }

  const MAX_LINES: int := 4000

  lemma SumErrOfLines(n: nat, sum: nat, size: nat)
    requires n <= MAX_LINES
    ensures SumErr(n, sum, size) <= 4.0 * size as real + 4000.0 * sum as real + 0.004 * size as real
  {
    var b := sum as real + size as real / 1000000.0;
    TimesAtMost(n as real, 4000.0, b);
  }

  lemma FixedBelow(x: real)
    requires Fits(ToFixed(x))
    ensures x * 100.0 < 1000000000000.0
  {
    if x >= 0.0 {
      var f := (x * 100.0 + 0.5).Floor;
      assert x * 100.0 + 0.5 < f as real + 1.0;
      assert f + 1 <= NUMERIC_LIMIT;
      assert f as real + 1.0 <= 1000000000000.0;
    }
  }

  /** A stored sum that fits its column bounds the exact one. */
  lemma NearBelow(x: real, sum: nat, err: real, size: real)
    requires x * 100.0 < 1000000000000.0 && Near(x, sum as real, err)
    requires 0.0 <= size <= sum as real + 2500000000000.0 && err <= 4.0 * size + 4000.0 * sum as real + 0.004 * size
    ensures sum as real <= 1000100000000.0
  {
    assert sum as real - x * 100.0 <= Abs(x * 100.0 - sum as real);
    assert err <= 4010.0 * sum as real + 25000000000000.0;
  }

  lemma ExactBelow(fl: real -> real, lines: seq<Line>)
    requires Rounds(fl) && WfLines(lines) && |lines| <= MAX_LINES
    requires Fits(FixedTotal(fl, lines)) && Fits(FixedDiscount(fl, lines))
    ensures ExactTotal(lines) as real <= 1000100000000.0 && ExactDiscount(lines) as real <= 1000100000000.0
  {
    var t, d := ExactTotal(lines), ExactDiscount(lines);
    var x, y := Sum(fl, Amounts(fl, lines)), Sum(fl, Discounts(fl, lines));
    FixedBelow(x);
    FixedBelow(y);
    TotalNear(fl, lines);
    SumErrOfLines(|lines|, t, t);
    NearBelow(x, t, SumErr(|lines|, t, t), t as real);
    DiscountsNear(fl, lines);
    SumErrOfLines(|lines|, d, d + 2 * t);
    NearBelow(y, d, SumErr(|lines|, d, d + 2 * t), (d + 2 * t) as real);
  }

  /** Every order of at most 4000 lines whose amounts the order table accepts is stored to the exact cent:
      the total, the discount, and therefore the gross price. */
  lemma StoredAmountsAreExact(fl: real -> real, lines: seq<Line>)
    requires Rounds(fl) && WfLines(lines) && |lines| <= MAX_LINES
    requires Fits(FixedTotal(fl, lines)) && Fits(FixedDiscount(fl, lines))
    ensures FixedTotal(fl, lines) == Some(ExactTotal(lines))
    ensures FixedDiscount(fl, lines) == Some(ExactDiscount(lines))
    ensures FixedTotal(fl, lines).value + FixedDiscount(fl, lines).value == ExactSum(Grosses(lines))
  {
    var t, d := ExactTotal(lines), ExactDiscount(lines);
    ExactBelow(fl, lines);
    SumErrOfLines(|lines|, t, t);
    SumErrOfLines(|lines|, d, d + 2 * t);
    TotalIsExact(fl, lines);
    DiscountIsExact(fl, lines);
    TotalAndDiscountMakeGross(lines);
  }

  /** The table accepts exactly the orders whose exact amounts it can hold. */
  lemma AcceptedExactlyWhenExactFits(fl: real -> real, lines: seq<Line>)
    requires Rounds(fl) && WfLines(lines) && |lines| <= MAX_LINES
    ensures Fits(FixedTotal(fl, lines)) && Fits(FixedDiscount(fl, lines))
       <==> ExactTotal(lines) < NUMERIC_LIMIT && ExactDiscount(lines) < NUMERIC_LIMIT
  {
    var t, d := ExactTotal(lines), ExactDiscount(lines);
    if t < NUMERIC_LIMIT && d < NUMERIC_LIMIT {
      SumErrOfLines(|lines|, t, t);
      SumErrOfLines(|lines|, d, d + 2 * t);
      TotalIsExact(fl, lines);
      DiscountIsExact(fl, lines);
    } else if Fits(FixedTotal(fl, lines)) && Fits(FixedDiscount(fl, lines)) {
      StoredAmountsAreExact(fl, lines);
    }
  }

  /** Placement goes on exactly when every item names a known offer; otherwise it reports the first that does not. */
  lemma {:induction false} LinesOfItems(items: seq<Item>, offers: map<int, Offer>)
    ensures ToLines(items, offers).Ok? <==> forall i | 0 <= i < |items| :: items[i].offerId in offers
    ensures ToLines(items, offers).Ok? ==> |ToLines(items, offers).value| == |items|
    ensures ToLines(items, offers).Ok? ==>
              forall i | 0 <= i < |items| :: Ok(ToLines(items, offers).value[i]) == ToLine(items[i], offers)
    ensures ToLines(items, offers).NotFound? ==> exists i ::
              0 <= i < |items| && items[i].offerId == ToLines(items, offers).offerId && items[i].offerId !in offers
              && forall j | 0 <= j < i :: items[j].offerId in offers
  {
    if items != [] {
      var before := items[..|items| - 1];
      LinesOfItems(before, offers);
      if ToLines(before, offers).NotFound? {
        var i :| 0 <= i < |before| && before[i].offerId == ToLines(before, offers).offerId && before[i].offerId !in offers
                 && forall j | 0 <= j < i :: before[j].offerId in offers;
        assert items[i] == before[i] && forall j | 0 <= j < i :: items[j] == before[j];
      } else {
        assert forall i | 0 <= i < |before| :: items[i] == before[i];
      }
    }
  }

  /* ---------- amount texts and the account gateway ---------- */

  function Pow10(k: nat): nat { if k == 0 then 1 else 10 * Pow10(k - 1) }

  predicate IsDigit(c: char) { '0' <= c <= '9' }

  predicate AllDigits(s: string) { forall i | 0 <= i < |s| :: IsDigit(s[i]) }

  function DigitChar(d: nat): char
    requires d < 10
  {
    '0' + d as char
  }

  function Digits(n: nat): string { if n < 10 then [DigitChar(n)] else Digits(n / 10) + [DigitChar(n % 10)] }

  function ParseDigits(s: string): nat
    requires AllDigits(s)
  {
    if s == "" then 0 else 10 * ParseDigits(s[..|s| - 1]) + (s[|s| - 1] - '0') as nat
  }

  /** The text of a numeric(12,2) value, and of toFixed(2). */
  function FormatCents(n: nat): string { Digits(n / 100) + "." + [DigitChar(n / 10 % 10), DigitChar(n % 10)] }

  predicate IsWhole(s: string) { 1 <= |s| <= 10 && AllDigits(s) }

  /** The gateway's pattern: one to ten digits, then maybe a point and one or two digits. */
  predicate MatchesAmount(s: string) { IsWhole(s) || HasFraction(s, 1) || HasFraction(s, 2) }

  predicate HasFraction(s: string, k: nat) {
    |s| > k && s[|s| - k - 1] == '.' && IsWhole(s[..|s| - k - 1]) && AllDigits(s[|s| - k..])
  }

  /** The cents a matching text stands for. */
  function AmountCents(s: string): nat
    requires MatchesAmount(s)
  {
    if IsWhole(s) then 100 * ParseDigits(s)
    else if HasFraction(s, 1) then 100 * ParseDigits(s[..|s| - 2]) + 10 * ParseDigits(s[|s| - 1..])
    else 100 * ParseDigits(s[..|s| - 3]) + ParseDigits(s[|s| - 2..])
  }

  lemma {:induction false} DigitsRoundTrip(n: nat)
    ensures Digits(n) != "" && AllDigits(Digits(n)) && ParseDigits(Digits(n)) == n
  {
    if n >= 10 {
      DigitsRoundTrip(n / 10);
      assert Digits(n)[..|Digits(n)| - 1] == Digits(n / 10);
    } else {
      assert Digits(n)[..0] == "";
    }
  }

  lemma {:induction false} DigitsLength(n: nat, k: nat)
    requires k >= 1
    ensures |Digits(n)| <= k <==> n < Pow10(k)
  {
    if k == 1 {
      DigitsRoundTrip(n / 10);
      assert Pow10(1) == 10 * Pow10(0);
    } else if n >= 10 {
      DigitsLength(n / 10, k - 1);
    } else {
      PowAtLeast(k);
    }
  }

  lemma {:induction false} PowAtLeast(k: nat)
    requires k >= 1
    ensures Pow10(k) >= 10
  {
    if k > 1 {
      PowAtLeast(k - 1);
    }
  }

  lemma TenDigits()
    ensures Pow10(10) == 10_000_000_000
  {
    assert Pow10(5) == 100_000;
  }

  lemma TwoDigits(a: nat, b: nat)
    requires a < 10 && b < 10
    ensures var s := [DigitChar(a), DigitChar(b)]; AllDigits(s) && ParseDigits(s) == 10 * a + b
  {
    var s := [DigitChar(a), DigitChar(b)];
    var t := [DigitChar(a)];
    assert t[..0] == "" && ParseDigits("") == 0;
    assert ParseDigits(t) == a;
    assert s[..1] == t;
  }

  /** The gateway reads back exactly the amounts a numeric(12,2) column can hold. */
  lemma AmountRoundTrip(n: nat)
    ensures MatchesAmount(FormatCents(n)) <==> n < NUMERIC_LIMIT
    ensures n < NUMERIC_LIMIT ==> AmountCents(FormatCents(n)) == n
  {
    var s, whole := FormatCents(n), Digits(n / 100);
    assert s[|s| - 3] == '.' && s[..|s| - 3] == whole && s[|s| - 2..] == [DigitChar(n / 10 % 10), DigitChar(n % 10)];
    DigitsRoundTrip(n / 100);
    DigitsLength(n / 100, 10);
    TenDigits();
    TwoDigits(n / 10 % 10, n % 10);
    assert !IsWhole(s);
    assert s[|s| - 2] != '.';
    assert HasFraction(s, 2) <==> |whole| <= 10;
  }

  /** isValidMovement on the amount text. */
  predicate AcceptsAmount(fl: real -> real, s: string) { MatchesAmount(s) && Number(fl, AmountCents(s)) > 0.0 }

  /** Number(amount).toFixed(2), as charge and refund write it. */
  function Reformat(fl: real -> real, s: string): Option<string>
    requires MatchesAmount(s)
  {
    match ToFixed(Number(fl, AmountCents(s)))
    case Some(n) => if n >= 0 then Some(FormatCents(n)) else Some("-" + FormatCents(-n))
    case None => None
  }

  lemma NumberSign(fl: real -> real, n: nat)
    requires Rounds(fl)
    ensures Number(fl, n) > 0.0 <==> n > 0
  {
    NumberNear(fl, n);
  }

  /** A stored total is accepted exactly when it is positive, and then it is debited, credited and entered unchanged. */
  lemma ChargeKeepsTheAmount(fl: real -> real, n: nat)
    requires Rounds(fl) && n < NUMERIC_LIMIT
    ensures AcceptsAmount(fl, FormatCents(n)) <==> n > 0
    ensures MatchesAmount(FormatCents(n)) && Reformat(fl, FormatCents(n)) == Some(FormatCents(n))
  {
    AmountRoundTrip(n);
    NumberSign(fl, n);
    NumberNear(fl, n);
    NearIsFixed(Number(fl, n), n, n as real);
  }

  /** From the cart to the ledger: an accepted order is charged exactly what its lines cost, to the cent. */
  lemma ChargedIsExact(fl: real -> real, lines: seq<Line>)
    requires Rounds(fl) && WfLines(lines) && |lines| <= MAX_LINES
    requires Fits(FixedTotal(fl, lines)) && Fits(FixedDiscount(fl, lines))
    ensures FixedTotal(fl, lines).value == ExactTotal(lines)
    ensures MatchesAmount(FormatCents(ExactTotal(lines)))
    ensures Reformat(fl, FormatCents(ExactTotal(lines))) == Some(FormatCents(ExactTotal(lines)))
    ensures AcceptsAmount(fl, FormatCents(ExactTotal(lines))) <==> exists i :: 0 <= i < |lines| && TotalOf(lines[i]) > 0
  {
    StoredAmountsAreExact(fl, lines);
    ChargeKeepsTheAmount(fl, ExactTotal(lines));
    PositiveSum(Totals(lines));
    if i :| 0 <= i < |lines| && TotalOf(lines[i]) > 0 {
      assert Totals(lines)[i] > 0;
    }
    if i :| 0 <= i < |lines| && Totals(lines)[i] > 0 {
      assert TotalOf(lines[i]) > 0;
    }
  }

  lemma {:induction false} PositiveSum(cs: seq<nat>)
    ensures ExactSum(cs) > 0 <==> exists i :: 0 <= i < |cs| && cs[i] > 0
  {
    if cs != [] {
      var before := cs[..|cs| - 1];
      PositiveSum(before);
      if i :| 0 <= i < |before| && before[i] > 0 {
        assert cs[i] > 0;
      }
      if i :| 0 <= i < |cs| && cs[i] > 0 {
        assert i == |cs| - 1 || before[i] > 0;
      }
    }
  }

  /* ---------- from the cart alone ---------- */

  /** What the cart costs and saves, told from its items and the offers without any line. */
  function Payable(items: seq<Item>, offers: map<int, Offer>): nat
    requires forall i :: 0 <= i < |items| ==> items[i].offerId in offers
  {
    if items == [] then 0
    else
      var item, offer := items[|items| - 1], offers[items[|items| - 1].offerId];
      Payable(items[..|items| - 1], offers)
      + item.quantity * match offer.discountPrice { case Some(discountPrice) => discountPrice case None => offer.price }
  }

  function Saved(items: seq<Item>, offers: map<int, Offer>): int
    requires forall i :: 0 <= i < |items| ==> items[i].offerId in offers
  {
    if items == [] then 0
    else
      var item, offer := items[|items| - 1], offers[items[|items| - 1].offerId];
      Saved(items[..|items| - 1], offers)
      + match offer.discountPrice { case Some(discountPrice) => item.quantity * (offer.price - discountPrice) case None => 0 }
  }

  /** The check constraint of the offer table. */
  predicate WfOffers(offers: map<int, Offer>) {
    forall id :: id in offers && offers[id].discountPrice.Some? ==> offers[id].discountPrice.value <= offers[id].price
  }

  lemma LastLine(items: seq<Item>, offers: map<int, Offer>)
    requires items != [] && ToLines(items, offers).Ok?
    ensures var before := ToLines(items[..|items| - 1], offers);
            before.Ok? && ToLine(items[|items| - 1], offers).Ok?
            && ToLines(items, offers).value == before.value + [ToLine(items[|items| - 1], offers).value]
  {
  }

  lemma {:induction false} ExactSumOfAppended(cs: seq<nat>, c: nat)
    ensures ExactSum(cs + [c]) == ExactSum(cs) + c
  {
    assert (cs + [c])[..|cs + [c]| - 1] == cs;
  }

  lemma AmountsOfAppended(lines: seq<Line>, line: Line)
    requires WfLines(lines) && Wf(line)
    ensures WfLines(lines + [line])
    ensures ExactTotal(lines + [line]) == ExactTotal(lines) + TotalOf(line)
    ensures ExactDiscount(lines + [line]) == ExactDiscount(lines) + DiscountOf(line)
  {
    assert Totals(lines + [line]) == Totals(lines) + [TotalOf(line)];
    assert DiscountsOf(lines + [line]) == DiscountsOf(lines) + [DiscountOf(line)];
    ExactSumOfAppended(Totals(lines), TotalOf(line));
    ExactSumOfAppended(DiscountsOf(lines), DiscountOf(line));
  }

  lemma LineOfItem(item: Item, offers: map<int, Offer>)
    requires WfOffers(offers) && item.offerId in offers
    ensures var line, offer := ToLine(item, offers).value, offers[item.offerId];
            ToLine(item, offers).Ok? && Wf(line)
            && TotalOf(line) == item.quantity * (if offer.discountPrice.Some? then offer.discountPrice.value else offer.price)
            && DiscountOf(line) == if offer.discountPrice.Some? then item.quantity * (offer.price - offer.discountPrice.value) else 0
  {
  }

  /** The exact amounts of the lines are what the cart costs and saves. */
  lemma {:induction false} LinesCostTheCart(items: seq<Item>, offers: map<int, Offer>)
    requires WfOffers(offers) && ToLines(items, offers).Ok?
    ensures WfLines(ToLines(items, offers).value) && forall i :: 0 <= i < |items| ==> items[i].offerId in offers
    ensures ExactTotal(ToLines(items, offers).value) == Payable(items, offers)
    ensures ExactDiscount(ToLines(items, offers).value) == Saved(items, offers)
  {
    LinesOfItems(items, offers);
    if items != [] {
      var front, item := items[..|items| - 1], items[|items| - 1];
      LastLine(items, offers);
      LinesCostTheCart(front, offers);
      LineOfItem(item, offers);
      AmountsOfAppended(ToLines(front, offers).value, ToLine(item, offers).value);
    }
  }

  /** A placed order stores what its cart costs and saves, to the cent. */
  lemma CartIsStoredExactly(fl: real -> real, items: seq<Item>, offers: map<int, Offer>)
    requires Rounds(fl) && WfOffers(offers) && |items| <= MAX_LINES && ToLines(items, offers).Ok?
    requires Fits(FixedTotal(fl, ToLines(items, offers).value)) && Fits(FixedDiscount(fl, ToLines(items, offers).value))
    ensures forall i :: 0 <= i < |items| ==> items[i].offerId in offers
    ensures FixedTotal(fl, ToLines(items, offers).value) == Some(Payable(items, offers))
    ensures FixedDiscount(fl, ToLines(items, offers).value) == Some(Saved(items, offers))
  {
    LinesOfItems(items, offers);
    LinesCostTheCart(items, offers);
    StoredAmountsAreExact(fl, ToLines(items, offers).value);
  }

  /* ---------- the pattern, spelt out ---------- */

  predicate IsAmountText(s: string, whole: string, fraction: string) {
    s == whole + "." + fraction && 1 <= |whole| <= 10 && 1 <= |fraction| <= 2 && AllDigits(whole) && AllDigits(fraction)
  }

  lemma SplitAtPoint(s: string, k: nat)
    requires HasFraction(s, k) && 1 <= k <= 2
    ensures IsAmountText(s, s[..|s| - k - 1], s[|s| - k..])
  {
    assert s == s[..|s| - k - 1] + "." + s[|s| - k..];
  }

  lemma JoinedAtPoint(s: string, whole: string, fraction: string)
    requires IsAmountText(s, whole, fraction)
    ensures HasFraction(s, |fraction|) && s[..|s| - |fraction| - 1] == whole && s[|s| - |fraction|..] == fraction
    ensures !IsWhole(s) && (|fraction| == 2 ==> !HasFraction(s, 1))
  {
    assert s[|whole|] == '.';
    if |fraction| == 2 {
      assert s[|s| - 2] == fraction[0] && IsDigit(fraction[0]);
    }
  }

  /** A text matches exactly when it is one to ten digits, or those, a point, and one or two digits more. */
  lemma MatchesExactly(s: string)
    ensures MatchesAmount(s) <==> (1 <= |s| <= 10 && AllDigits(s)) || exists whole, fraction :: IsAmountText(s, whole, fraction)
  {
    if HasFraction(s, 1) {
      SplitAtPoint(s, 1);
    }
    if HasFraction(s, 2) {
      SplitAtPoint(s, 2);
    }
    if whole, fraction :| IsAmountText(s, whole, fraction) {
      JoinedAtPoint(s, whole, fraction);
    }
  }

  /** One fraction digit counts tens of cents. */
  lemma TextValue(s: string, whole: string, fraction: string)
    requires IsAmountText(s, whole, fraction)
    ensures MatchesAmount(s)
    ensures AmountCents(s) == 100 * ParseDigits(whole) + (if |fraction| == 1 then 10 else 1) * ParseDigits(fraction)
  {
    JoinedAtPoint(s, whole, fraction);
  }

  /** And the digits are the usual ones. */
  lemma SixteenHundred()
    ensures FormatCents(160005) == "1600.05" && FormatCents(7) == "0.07"
  {
    assert Digits(1600) == Digits(160) + [DigitChar(0)] && Digits(160) == Digits(16) + [DigitChar(0)] && Digits(16) == Digits(1) + [DigitChar(6)];
    assert Digits(1) == "1" && DigitChar(6) == '6' && DigitChar(0) == '0' && DigitChar(5) == '5';
  }
}
