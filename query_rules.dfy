/** The query parameters of the transform endpoint: `w` and `h` pick the thumbnail box,
    `bw` asks for grayscale, `q` sets the JPEG quality. Each rule reads the raw strings
    of `request.query_params` exactly as the handler does. */
module QueryRules {
  import opened Errors
  import opened Decimal

  type Query = map<string, string>

  /** `request.query_params.get(name)` */
  function Get(query: Query, name: string): (v: Option<string>)
    ensures v.Some? <==> name in query
    ensures v.Some? ==> v.value == query[name]
  {
    if name in query then Some(query[name]) else None
  }

  // ---- ?w= and ?h= ----

  /** `int(x / b)` for a positive `b`: the exact quotient truncated toward zero. The
      source computes the quotient in floating point; this is its exact value. */
  function TruncDiv(a: int, b: nat): int
    requires b > 0
  {
    if a >= 0 then a / b else -((-a) / b)
  }

  lemma FloorDivBounds(n: nat, b: nat)
    requires b > 0
    ensures 0 <= n / b && (n / b) * b <= n < (n / b) * b + b
  {
    assert n == (n / b) * b + n % b;
  }

  /** Truncation toward zero: the floor of the quotient for a non-negative dividend,
      its ceiling for a negative one. */
  lemma TruncDivBounds(a: int, b: nat)
    requires b > 0
    ensures a >= 0 ==> 0 <= TruncDiv(a, b) && TruncDiv(a, b) * b <= a < (TruncDiv(a, b) + 1) * b
    ensures a < 0 ==> TruncDiv(a, b) <= 0 && (TruncDiv(a, b) - 1) * b < a <= TruncDiv(a, b) * b
  {
    if a >= 0 {
      FloorDivBounds(a, b);
      var q := a / b;
      assert (q + 1) * b == q * b + b;
    } else {
      FloorDivBounds(-a, b);
      var q := (-a) / b;
      assert TruncDiv(a, b) == -q;
      assert (-q) * b == -(q * b);
      assert (-q - 1) * b == -(q * b) - b;
    }
  }

  /** The derived side is the proportion truncated toward zero: rounded down from a
      non-negative given side, rounded up from a negative one. */
  lemma DerivedSideBounds(side: nat, given: int, divisor: nat)
    requires divisor > 0
    ensures given >= 0 ==>
              TruncDiv(side * given, divisor) * divisor <= side * given < (TruncDiv(side * given, divisor) + 1) * divisor
    ensures given < 0 ==>
              (TruncDiv(side * given, divisor) - 1) * divisor < side * given <= TruncDiv(side * given, divisor) * divisor
  {
    if given >= 0 {
      assert side * given >= 0;
      TruncDivBounds(side * given, divisor);
    } else {
      assert side * given <= 0;
      TruncDivBounds(side * given, divisor);
    }
  }

  /** The box handed to `image.thumbnail((w, h))`, `None` when there is no thumbnail
      step, for an image that is `width` by `height` after orientation. A given side is
      `int()` of its parameter; with only one given, the other is derived from the aspect
      ratio and truncated toward zero (rounded down from a non-negative given side, up
      from a negative one). The errors are an
      unreadable parameter, `w` read first, and a zero side to divide by. */
  function ResizeBox(width: nat, height: nat, w: Option<string>, h: Option<string>): (r: Result<Option<(int, int)>>)
    ensures r == Success(None) <==> w.None? && h.None?
    ensures r.Success? && r.value.Some? && w.Some? ==>
              PyInt(w.value) == Some(r.value.value.0)
    ensures r.Success? && r.value.Some? && h.Some? ==>
              PyInt(h.value) == Some(r.value.value.1)
    ensures r.Success? && r.value.Some? && h.None? && r.value.value.0 >= 0 ==>
              r.value.value.1 * width <= height * r.value.value.0 < (r.value.value.1 + 1) * width
    ensures r.Success? && r.value.Some? && w.None? && r.value.value.1 >= 0 ==>
              r.value.value.0 * height <= width * r.value.value.1 < (r.value.value.0 + 1) * height
    ensures r.Success? && r.value.Some? && h.None? && r.value.value.0 < 0 ==>
              (r.value.value.1 - 1) * width < height * r.value.value.0 <= r.value.value.1 * width
    ensures r.Success? && r.value.Some? && w.None? && r.value.value.1 < 0 ==>
              (r.value.value.0 - 1) * height < width * r.value.value.1 <= r.value.value.0 * height
    ensures r.Failure? ==>
              || (r.fault == ZeroDivision &&
                    ((w.Some? && h.None? && width == 0) || (w.None? && h.Some? && height == 0)))
              || (w.Some? && PyInt(w.value).None? && r.fault == InvalidIntLiteral(w.value))
              || (h.Some? && PyInt(h.value).None? && r.fault == InvalidIntLiteral(h.value))
  {
    if w.None? && h.None? then Success(None)
    else if h.None? then
      match PyInt(w.value)
      case None => Failure(InvalidIntLiteral(w.value))
      case Some(wi) =>
        if width == 0 then Failure(ZeroDivision)
        else
          DerivedSideBounds(height, wi, width);
          Success(Some((wi, TruncDiv(height * wi, width))))
    else if w.None? then
      match PyInt(h.value)
      case None => Failure(InvalidIntLiteral(h.value))
      case Some(hi) =>
        if height == 0 then Failure(ZeroDivision)
        else
          DerivedSideBounds(width, hi, height);
          Success(Some((TruncDiv(width * hi, height), hi)))
    else
      match PyInt(w.value)
      case None => Failure(InvalidIntLiteral(w.value))
      case Some(wi) =>
        match PyInt(h.value)
        case None => Failure(InvalidIntLiteral(h.value))
        case Some(hi) => Success(Some((wi, hi)))
  }

  /** There is a thumbnail step exactly when `w` or `h` is present; with neither, the
      resize rule cannot fail. */
  lemma ResizeOnlyWhenAsked(width: nat, height: nat, w: Option<string>, h: Option<string>)
    ensures ResizeBox(width, height, w, h) == Success(None) <==> w.None? && h.None?
    ensures ResizeBox(width, height, w, h).Success? && ResizeBox(width, height, w, h).value.Some? <==>
              (w.Some? || h.Some?) && ResizeBox(width, height, w, h).Success?
  {
  }

  /** Only `w`: the box is `w` wide and as tall as the image's aspect ratio gives,
      rounded down (for a non-negative `w`). */
  lemma WidthOnlyBox(width: nat, height: nat, w: string, wi: int)
    requires PyInt(w) == Some(wi) && width > 0 && wi >= 0
    ensures ResizeBox(width, height, Some(w), None).Success?
    ensures var box := ResizeBox(width, height, Some(w), None).value;
            && box.Some? && box.value.0 == wi
            && box.value.1 * width <= height * wi < (box.value.1 + 1) * width
  {
    TruncDivBounds(height * wi, width);
  }

  /** Only `h`: the box is `h` tall and as wide as the aspect ratio gives, rounded down
      (for a non-negative `h`). */
  lemma HeightOnlyBox(width: nat, height: nat, h: string, hi: int)
    requires PyInt(h) == Some(hi) && height > 0 && hi >= 0
    ensures ResizeBox(width, height, None, Some(h)).Success?
    ensures var box := ResizeBox(width, height, None, Some(h)).value;
            && box.Some? && box.value.1 == hi
            && box.value.0 * height <= width * hi < (box.value.0 + 1) * height
  {
    TruncDivBounds(width * hi, height);
  }

  /** Both given: both are used as they are. */
  lemma BothGivenBox(width: nat, height: nat, w: string, h: string, wi: int, hi: int)
    requires PyInt(w) == Some(wi) && PyInt(h) == Some(hi)
    ensures ResizeBox(width, height, Some(w), Some(h)) == Success(Some((wi, hi)))
  {
  }

  /** The errors the resize step lets escape: an unreadable number, checked before
      anything else, or a zero-sized side to divide by. */
  lemma ResizeFaults(width: nat, height: nat, w: Option<string>, h: Option<string>)
    ensures w.Some? && PyInt(w.value).None? ==>
              ResizeBox(width, height, w, h) == Failure(InvalidIntLiteral(w.value))
    ensures w.Some? && PyInt(w.value).Some? && h.Some? && PyInt(h.value).None? ==>
              ResizeBox(width, height, w, h) == Failure(InvalidIntLiteral(h.value))
    ensures ResizeBox(width, height, w, h) == Failure(ZeroDivision) <==>
              || (w.Some? && h.None? && PyInt(w.value).Some? && width == 0)
              || (w.None? && h.Some? && PyInt(h.value).Some? && height == 0)
  {
  }

  /** The derived side is truncated, not rounded: a 3x2 image asked for `w=4` gets a
      box 2 high, although 4 * 2 / 3 is nearer to 3. */
  lemma DerivedSideTruncates()
    ensures ResizeBox(3, 2, Some("4"), None) == Success(Some((4, 2)))
  {
    var four := "4";
    assert four[..0] == "" && DigitValue(four) == 4;
    assert IsDigitString(four);
    assert TruncDiv(2 * 4, 3) == 2;
  }

  /** A derived side can be 0: a 1000x100 image asked for `w=1` gets the box (1, 0),
      which the handler passes on to `image.thumbnail` as it is. */
  lemma DerivedSideCanBeZero()
    ensures ResizeBox(1000, 100, Some("1"), None) == Success(Some((1, 0)))
  {
    var one := "1";
    assert one[..0] == "" && DigitValue(one) == 1;
    assert IsDigitString(one);
    assert TruncDiv(100 * 1, 1000) == 0;
  }

  /** A negative `w` is accepted, and the derived side is truncated toward zero, that is
      rounded up: a 3x2 image with `w=-4` gets the box (-4, -2), as `int(2 / 3 * -4)` does. */
  lemma NegativeSideTruncatesUp()
    ensures ResizeBox(3, 2, Some("-4"), None) == Success(Some((-4, -2)))
  {
    MinusFourParses();
    WidthOnlyResult(3, 2, "-4", -4);
    assert TruncDiv(2 * -4, 3) == -2;
  }

  lemma WidthOnlyResult(width: nat, height: nat, w: string, wi: int)
    requires PyInt(w) == Some(wi) && width > 0
    ensures ResizeBox(width, height, Some(w), None) == Success(Some((wi, TruncDiv(height * wi, width))))
  {
  }

  lemma MinusFourParses()
    ensures PyInt("-4") == Some(-4)
  {
    assert DecimalString(4) == "4";
    assert "-" + DecimalString(4) == "-4";
    PyIntOfNegatedDecimal(4);
  }

  // ---- ?bw= ----

  /** Python truthiness of an optional string: present and non-empty. */
  predicate Truthy(v: Option<string>) {
    v.Some? && v.value != ""
  }

  /** `if request.query_params.get("bw")`: any non-empty value converts, `bw=0` too. */
  function WantsGrayscale(query: Query): (convert: bool)
    ensures convert <==> "bw" in query && |query["bw"]| > 0
  {
    Truthy(Get(query, "bw"))
  }

  // ---- ?q= ----

  const DefaultQuality := 75

  /** `quality = int(q)` when `q and q.isdigit() and 1 <= int(q) <= 100`, else 75. */
  function ChooseQuality(q: Option<string>): (quality: int)
    ensures 1 <= quality <= 100
  {
    if Truthy(q) && IsDigitString(q.value) then
      match PyInt(q.value)
      case Some(n) => if 1 <= n <= 100 then n else DefaultQuality
      case None => DefaultQuality
    else DefaultQuality
  }

  /** A digit string with a value from 1 to 100 is taken as the quality, leading zeros
      and all (`"040"` gives 40). */
  lemma QualityAccepted(s: string)
    requires IsDigitString(s) && 1 <= DigitValue(s) <= 100
    ensures ChooseQuality(Some(s)) == DigitValue(s)
  {
  }

  /** Anything else gives the default: no `q`, an empty one, one that is not all digits
      (a sign included), or a value outside 1..100. */
  lemma QualityDefaulted(q: Option<string>)
    requires q.None? || !IsDigitString(q.value) || !(1 <= DigitValue(q.value) <= 100)
    ensures ChooseQuality(q) == DefaultQuality
  {
  }

  /** The quality differs from the default only when it is the value of the digits of `q`. */
  lemma QualityIsDigitsOrDefault(q: Option<string>)
    ensures ChooseQuality(q) == DefaultQuality ||
            (q.Some? && IsDigitString(q.value) && ChooseQuality(q) == DigitValue(q.value))
  {
  }

  lemma QualityLeadingZero()
    ensures ChooseQuality(Some("040")) == 40
  {
    assert DigitValue("4") == 4;
    assert "40"[..1] == "4";
    assert DigitValue("40") == 40;
    LeadingZeroIgnored("40");
    assert "0" + "40" == "040";
    QualityAccepted("040");
  }

  lemma QualityZeroRejected()
    ensures ChooseQuality(Some("0")) == 75
  {
    assert DigitValue("0") == 0;
    QualityDefaulted(Some("0"));
  }

  lemma QualityAboveHundredRejected()
    ensures ChooseQuality(Some("101")) == 75
  {
    var one, ten, hundredOne := "1", "10", "101";
    assert one[..0] == "" && DigitValue(one) == 1;
    assert ten[..1] == one && DigitValue(ten) == 10;
    assert hundredOne[..2] == ten && DigitValue(hundredOne) == 101;
    QualityDefaulted(Some(hundredOne));
  }

  lemma QualityNotDigits()
    ensures ChooseQuality(None) == 75
    ensures ChooseQuality(Some("")) == 75
    ensures ChooseQuality(Some("abc")) == 75
    ensures ChooseQuality(Some("-5")) == 75
  {
    assert !IsAsciiDigit("abc"[0]);
    QualityDefaulted(Some("abc"));
    assert !IsAsciiDigit("-5"[0]);
    QualityDefaulted(Some("-5"));
  }
}
