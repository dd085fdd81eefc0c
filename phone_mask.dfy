/**
  * The phone field's input mask (js/booking.js lines 194-211): every keystroke
  * strips the value to its digits and re-renders them as `(DD) DDDDD-DDDD`,
  * keeping at most eleven digits.
  */
module PhoneMask {

  predicate IsDigit(c: char) {
    '0' <= c <= '9'
  }

  predicate AllDigits(s: string) {
    forall i :: 0 <= i < |s| ==> IsDigit(s[i])
  }

  /** `s.replace(/\D/g, '')`: the digits of `s`, in order. */
  function Digits(s: string): (d: string)
    ensures AllDigits(d)
    ensures |d| <= |s|
  {
    if s == [] then []
    else if IsDigit(s[0]) then [s[0]] + Digits(s[1..])
    else Digits(s[1..])
  }

  function Min(a: int, b: int): int {
    if a <= b then a else b
  }

  /** The masked rendering of a digit string, by its length. */
  function Mask(d: string): string {
    if |d| == 0 then ""
    else if |d| <= 2 then "(" + d
    else if |d| <= 7 then "(" + d[..2] + ") " + d[2..]
    else "(" + d[..2] + ") " + d[2..7] + "-" + d[7..Min(|d|, 11)]
  }

  /** The value the input listener writes back into the field. */
  function FormatPhone(raw: string): string {
    Mask(Digits(raw))
  }

  // ---------------------------------------------------------------------------
  // Digit extraction
  // ---------------------------------------------------------------------------

  lemma {:induction false} DigitsOfConcat(a: string, b: string)
    ensures Digits(a + b) == Digits(a) + Digits(b)
  {
    if a != [] {
      assert (a + b)[1..] == a[1..] + b;
      DigitsOfConcat(a[1..], b);
    } else {
      assert a + b == b;
    }
  }

  /** A string of digits is left as it is. */
  lemma {:induction false} DigitsOfDigits(s: string)
    requires AllDigits(s)
    ensures Digits(s) == s
  {
    if s != [] {
      DigitsOfDigits(s[1..]);
    }
  }

  /** A string without digits contributes nothing. */
  lemma {:induction false} DigitsOfNonDigits(s: string)
    requires forall i :: 0 <= i < |s| ==> !IsDigit(s[i])
    ensures Digits(s) == []
  {
    if s != [] {
      DigitsOfNonDigits(s[1..]);
    }
  }

  /** Stripping is idempotent, and a character survives exactly when it is a digit of the input. */
  lemma {:induction false} DigitsKeepsDigits(s: string, c: char)
    ensures Digits(Digits(s)) == Digits(s)
    ensures c in Digits(s) <==> c in s && IsDigit(c)
  {
    DigitsOfDigits(Digits(s));
    if s != [] {
      DigitsKeepsDigits(s[1..], c);
      assert s == [s[0]] + s[1..];
    }
  }

  // ---------------------------------------------------------------------------
  // The mask
  // ---------------------------------------------------------------------------

  lemma AppendDigits(x: string, y: string)
    requires AllDigits(y)
    ensures Digits(x + y) == Digits(x) + y
  {
    DigitsOfConcat(x, y);
    DigitsOfDigits(y);
  }

  lemma AppendPunctuation(x: string, p: string)
    requires forall i :: 0 <= i < |p| ==> !IsDigit(p[i])
    ensures Digits(x + p) == Digits(x)
  {
    DigitsOfConcat(x, p);
    DigitsOfNonDigits(p);
  }

  /** The mask keeps the first eleven digits, in order, and adds only punctuation. */
  lemma MaskDigits(d: string)
    requires AllDigits(d)
    ensures Digits(Mask(d)) == d[..Min(|d|, 11)]
  {
    var n := |d|;
    if n == 0 {
    } else if n <= 2 {
      AppendDigits("(", d);
      assert d[..n] == d;
    } else if n <= 7 {
      MaskDigitsShort(d);
    } else {
      MaskDigitsLong(d);
    }
  }

  lemma MaskDigitsShort(d: string)
    requires AllDigits(d) && 3 <= |d| <= 7
    ensures Digits(Mask(d)) == d
  {
    var a, b := d[..2], d[2..];
    AppendDigits("(" + a + ") ", b);
    AppendPunctuation("(" + a, ") ");
    AppendDigits("(", a);
    assert a + b == d;
  }

  lemma MaskDigitsLong(d: string)
    requires AllDigits(d) && 8 <= |d|
    ensures Digits(Mask(d)) == d[..Min(|d|, 11)]
  {
    var m := Min(|d|, 11);
    var a, b, c := d[..2], d[2..7], d[7..m];
    AppendDigits("(" + a + ") " + b + "-", c);
    AppendPunctuation("(" + a + ") " + b, "-");
    AppendDigits("(" + a + ") ", b);
    AppendPunctuation("(" + a, ") ");
    AppendDigits("(", a);
    assert a + b + c == d[..m];
  }

  /** Only the first eleven digits matter to the mask. */
  lemma MaskIgnoresExtraDigits(d: string)
    ensures Mask(d[..Min(|d|, 11)]) == Mask(d)
  {
    var e := d[..Min(|d|, 11)];
    if |d| > 7 {
      assert e[..2] == d[..2] && e[2..7] == d[2..7];
      assert e[7..Min(|e|, 11)] == d[7..Min(|d|, 11)];
    } else {
      assert e == d;
    }
  }

  /** The field is left empty exactly when the input holds no digit. */
  lemma FormatPhoneEmptyIff(raw: string)
    ensures FormatPhone(raw) == "" <==> forall i :: 0 <= i < |raw| ==> !IsDigit(raw[i])
  {
    if forall i :: 0 <= i < |raw| ==> !IsDigit(raw[i]) {
      DigitsOfNonDigits(raw);
    } else {
      var i :| 0 <= i < |raw| && IsDigit(raw[i]);
      DigitsKeepsDigits(raw, raw[i]);
    }
  }

  /**
    * The shape of the mask depends only on how many digits there are: two digit
    * strings of the same length give masks of the same length with the same
    * punctuation in the same places.
    */
  lemma MaskShape(d: string, e: string)
    requires AllDigits(d) && AllDigits(e) && |d| == |e|
    ensures |Mask(d)| == |Mask(e)|
    ensures forall i :: 0 <= i < |Mask(d)| ==>
      (IsDigit(Mask(d)[i]) <==> IsDigit(Mask(e)[i])) && (!IsDigit(Mask(d)[i]) ==> Mask(d)[i] == Mask(e)[i])
  {
  }

  /** The field never holds more than `(DD) DDDDD-DDDD`, fifteen characters. */
  lemma FormatPhoneLength(raw: string)
    ensures |FormatPhone(raw)| <= 15
  {
  }

  /** Eleven or more digits render as the full pattern `(DD) DDDDD-DDDD`. */
  lemma FormatPhoneFullPattern(raw: string)
    requires |Digits(raw)| >= 11
    ensures |FormatPhone(raw)| == 15
    ensures FormatPhone(raw)[0] == '(' && FormatPhone(raw)[3] == ')' && FormatPhone(raw)[4] == ' '
    ensures FormatPhone(raw)[10] == '-'
    ensures forall i :: 0 <= i < 15 && i !in {0, 3, 4, 10} ==> IsDigit(FormatPhone(raw)[i])
  {
  }

  /**
    * Re-running the listener on its own output changes nothing: the digits of a
    * masked value are the kept digits, and the mask of those is the same text.
    */
  lemma FormatPhoneIdempotent(raw: string)
    ensures FormatPhone(FormatPhone(raw)) == FormatPhone(raw)
  {
    var d := Digits(raw);
    MaskDigits(d);
    MaskIgnoresExtraDigits(d);
  }
}
