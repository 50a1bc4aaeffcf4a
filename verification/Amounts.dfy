/** The decimal parser and printer (web/src/amounts.ts). A bigint is an int; a JavaScript
    string is a sequence of characters. */
module Amounts {
  import opened Wrappers
  import Uint256

  datatype AmountError = InvalidAmount | TooManyPlaces | InvalidDecimals

  const MAX_DECIMALS: int := 255

  // ---- JavaScript strings ----------------------------------------------------------------

  /** What String.prototype.trim removes: white space and line terminators. */
  predicate IsSpace(c: char) {
    || c in {'\t', '\n', '\r', ' '} || c == '\U{000B}' || c == '\U{000C}' || c == '\U{00A0}' || c == '\U{1680}'
    || '\U{2000}' <= c <= '\U{200A}' || c == '\U{2028}' || c == '\U{2029}' || c == '\U{202F}' || c == '\U{205F}'
    || c == '\U{3000}' || c == '\U{FEFF}'
  }

  function TrimStart(s: string): string {
    if s != "" && IsSpace(s[0]) then TrimStart(s[1..]) else s
  }

  function TrimEnd(s: string): string {
    if s != "" && IsSpace(s[|s| - 1]) then TrimEnd(s[..|s| - 1]) else s
  }

  function Trim(s: string): string {
    TrimEnd(TrimStart(s))
  }

  /** split(".") */
  function Split(s: string): (pieces: seq<string>)
    ensures |pieces| > 0
  {
    if s == "" then [""]
    else
      var rest := Split(s[1..]);
      if s[0] == '.' then [""] + rest else [[s[0]] + rest[0]] + rest[1..]
  }

  function Piece(pieces: seq<string>, i: nat): string {
    if i < |pieces| then pieces[i] else ""
  }

  function Zeros(n: nat): (s: string)
    ensures |s| == n
  {
    seq(n, _ => '0')
  }

  function Slice(s: string, end: nat): string {
    if end <= |s| then s[..end] else s
  }

  function PadStart(s: string, length: nat): string {
    if |s| < length then Zeros(length - |s|) + s else s
  }

  /** replace(/0+$/, "") */
  function StripZeros(s: string): string {
    if s != "" && s[|s| - 1] == '0' then StripZeros(s[..|s| - 1]) else s
  }

  // ---- digits ------------------------------------------------------------------------------

  predicate IsDigit(c: char) {
    '0' <= c <= '9'
  }

  predicate AllDigits(s: string) {
    forall c :: c in s ==> IsDigit(c)
  }

  /** BigInt of a string of digits; the empty string is 0. */
  function ToInt(s: string): int
    requires AllDigits(s)
  {
    if s == "" then 0 else ToInt(s[..|s| - 1]) * 10 + (s[|s| - 1] as int - '0' as int)
  }

  /** BigInt.prototype.toString of a non-negative value. */
  function Digits(n: int): (s: string)
    requires n >= 0
    ensures AllDigits(s) && s != ""
  {
    if n < 10 then ['0' + n as char] else Digits(n / 10) + ['0' + (n % 10) as char]
  }

  function Pow10(n: nat): (r: int)
    ensures r > 0
  {
    if n == 0 then 1 else 10 * Pow10(n - 1)
  }

  /** The pattern of one or more digits, optionally a dot and one or more digits. */
  predicate IsDecimal(s: string) {
    (s != "" && AllDigits(s))
    || exists k :: 0 < k < |s| - 1 && s[k] == '.' && AllDigits(s[..k]) && AllDigits(s[k + 1..])
  }

  // ---- the functions of the module ------------------------------------------------------------

  function Scaled(whole: int, decimals: nat): int {
    whole * Pow10(decimals)
  }

  function ParseDecimal(value: string, decimals: int): Result<int, AmountError> {
    if decimals < 0 || decimals > MAX_DECIMALS || !IsDecimal(Trim(value)) then Err(InvalidAmount)
    else
      DecimalPieces(Trim(value));
      var pieces := Split(Trim(value));
      var whole, fraction := Piece(pieces, 0), Piece(pieces, 1);
      if |fraction| > decimals then Err(TooManyPlaces)
      else
        PaddedDigits(fraction, decimals);
        var digits := Slice(fraction + Zeros(decimals), decimals);
        Ok(Scaled(ToInt(whole), decimals) + ToInt(if digits == "" then "0" else digits))
  }

  function FormatBaseUnits(value: int, decimals: int, maxFractionDigits: int): Result<string, AmountError>
    decreases if value < 0 then 1 else 0
  {
    if decimals < 0 || decimals > MAX_DECIMALS || maxFractionDigits < 0 || maxFractionDigits > decimals
    then Err(InvalidDecimals)
    else if value < 0 then
      var positive :- FormatBaseUnits(-value, decimals, maxFractionDigits);
      Ok("-" + positive)
    else
      var scale := Pow10(decimals);
      Uint256.FloorBounds(value, scale);
      var whole := value / scale;
      if decimals == 0 || maxFractionDigits == 0 then Ok(Digits(whole))
      else
        var fraction := StripZeros(Slice(PadStart(Digits(value % scale), decimals), maxFractionDigits));
        Ok(if fraction != "" then Digits(whole) + "." + fraction else Digits(whole))
  }

  /** replace(/\B(?=(\d{3})+(?!\d))/g, ",") on digits: a comma wherever the number of digits
      that follow is a positive multiple of three, but not in front. */
  function Grouped(digits: string, from: nat): string
    requires from <= |digits|
    decreases |digits| - from
  {
    if from == |digits| then "" else Separated(digits, from) + Grouped(digits, from + 1)
  }

  /** A digit with the comma that the pattern puts before it, if any. */
  function Separated(digits: string, at: nat): string
    requires at < |digits|
  {
    if at > 0 && (|digits| - at) % 3 == 0 then [',', digits[at]] else [digits[at]]
  }

  function FormatDisplayAmount(value: int, decimals: int, maxFractionDigits: int): Result<string, AmountError> {
    var raw :- FormatBaseUnits(value, decimals, maxFractionDigits);
    var pieces := Split(raw);
    var whole, fraction := Piece(pieces, 0), Piece(pieces, 1);
    var negative := whole != "" && whole[0] == '-';
    var sign := if negative then "-" else "";
    var digits := if negative then whole[1..] else whole;
    var grouped := Grouped(digits, 0);
    Ok(if fraction != "" then sign + grouped + "." + fraction else sign + grouped)
  }

  // ---- strings of digits ------------------------------------------------------------------------

  lemma {:induction false} ToIntConcat(a: string, b: string)
    requires AllDigits(a) && AllDigits(b)
    ensures AllDigits(a + b) && ToInt(a + b) == ToInt(a) * Pow10(|b|) + ToInt(b)
  {
    if b == "" {
      assert a + b == a;
    } else {
      var front := b[..|b| - 1];
      ToIntConcat(a, front);
      assert (a + b)[..|a + b| - 1] == a + front;
      assert ToInt(a) * Pow10(|b|) == ToInt(a) * Pow10(|front|) * 10;
    }
  }

  lemma {:induction false} ToIntBound(s: string)
    requires AllDigits(s)
    ensures 0 <= ToInt(s) < Pow10(|s|)
  {
    if s != "" {
      assert IsDigit(s[|s| - 1]);
      ToIntBound(s[..|s| - 1]);
    }
  }

  lemma {:induction false} ToIntZeros(n: nat)
    ensures AllDigits(Zeros(n)) && ToInt(Zeros(n)) == 0
  {
    if n > 0 {
      ToIntZeros(n - 1);
      assert Zeros(n)[..n - 1] == Zeros(n - 1);
    }
  }

  /** toString and BigInt are inverse. */
  lemma {:induction false} ToIntDigits(n: int)
    requires n >= 0
    ensures ToInt(Digits(n)) == n
  {
    if n >= 10 {
      ToIntDigits(n / 10);
      assert Digits(n)[..|Digits(n)| - 1] == Digits(n / 10);
    }
  }

  lemma {:induction false} NoLeadingZero(n: int)
    requires n >= 0
    ensures Digits(n)[0] == '0' ==> n == 0 && Digits(n) == "0"
  {
    if n >= 10 {
      NoLeadingZero(n / 10);
    }
  }

  lemma {:induction false} DigitsLength(n: int, d: nat)
    requires 0 <= n < Pow10(d) && d > 0
    ensures |Digits(n)| <= d
  {
    if n >= 10 {
      assert d > 1;
      DigitsLength(n / 10, d - 1);
    }
  }

  lemma Padded(n: int, d: nat)
    requires 0 <= n < Pow10(d) && d > 0
    ensures
      var s := PadStart(Digits(n), d);
      |s| == d && AllDigits(s) && ToInt(s) == n
  {
    hide Digits, ToInt, Pow10, AllDigits;
    DigitsLength(n, d);
    ToIntDigits(n);
    ToIntZeros(d - |Digits(n)|);
    ToIntConcat(Zeros(d - |Digits(n)|), Digits(n));
    assert Zeros(0) + Digits(n) == Digits(n);
  }

  lemma {:induction false} Stripped(s: string)
    ensures |StripZeros(s)| <= |s| && s == StripZeros(s) + Zeros(|s| - |StripZeros(s)|)
  {
    if s != "" && s[|s| - 1] == '0' {
      Stripped(s[..|s| - 1]);
      var k := |s| - 1 - |StripZeros(s)|;
      assert Zeros(k) + "0" == Zeros(k + 1);
      assert s == s[..|s| - 1] + "0";
    }
  }

  lemma PaddedDigits(fraction: string, decimals: nat)
    requires AllDigits(fraction)
    ensures AllDigits(Slice(fraction + Zeros(decimals), decimals))
  {
  }

  // ---- splitting --------------------------------------------------------------------------------

  lemma {:induction false} SplitWhole(s: string)
    requires '.' !in s
    ensures Split(s) == [s]
  {
    if s != "" {
      SplitWhole(s[1..]);
      assert [s[0]] + s[1..] == s;
    }
  }

  lemma {:induction false} SplitAtDot(a: string, b: string)
    requires '.' !in a && '.' !in b
    ensures Split(a + "." + b) == [a, b]
  {
    var s := a + "." + b;
    if a == "" {
      assert s[1..] == b;
      SplitWhole(b);
    } else {
      assert s[1..] == a[1..] + "." + b;
      SplitAtDot(a[1..], b);
      assert [a[0]] + a[1..] == a;
    }
  }

  lemma NoDotInDigits(s: string)
    requires AllDigits(s)
    ensures '.' !in s && ',' !in s && '-' !in s
  {
  }

  /** The pieces of a string that matches the pattern. */
  lemma DecimalPieces(s: string)
    requires IsDecimal(s)
    ensures
      var pieces := Split(s);
      && AllDigits(Piece(pieces, 0)) && AllDigits(Piece(pieces, 1))
      && Piece(pieces, 0) != ""
      && s == (if Piece(pieces, 1) == "" then Piece(pieces, 0) else Piece(pieces, 0) + "." + Piece(pieces, 1))
  {
    hide Split;
    if s != "" && AllDigits(s) {
      NoDotInDigits(s);
      SplitWhole(s);
    } else {
      var k :| 0 < k < |s| - 1 && s[k] == '.' && AllDigits(s[..k]) && AllDigits(s[k + 1..]);
      assert s == s[..k] + "." + s[k + 1..];
      NoDotInDigits(s[..k]);
      NoDotInDigits(s[k + 1..]);
      SplitAtDot(s[..k], s[k + 1..]);
    }
  }

  lemma PointedIsDecimal(whole: string, fraction: string)
    requires AllDigits(whole) && AllDigits(fraction) && whole != "" && fraction != ""
    ensures IsDecimal(whole + "." + fraction)
  {
    var s, k := whole + "." + fraction, |whole|;
    assert s[k] == '.' && s[..k] == whole && s[k + 1..] == fraction;
  }

  lemma WholeIsDecimal(whole: string)
    requires AllDigits(whole) && whole != ""
    ensures IsDecimal(whole)
  {
  }

  lemma DigitIsNoSpace(c: char)
    requires IsDigit(c) || c == '-'
    ensures !IsSpace(c)
  {
  }

  lemma {:induction false} NothingToTrim(s: string)
    requires s != "" && !IsSpace(s[0]) && !IsSpace(s[|s| - 1])
    ensures Trim(s) == s
  {
  }

  // ---- parsing ------------------------------------------------------------------------------------

  lemma PrintedPieces(whole: string, fraction: string)
    requires AllDigits(whole) && whole != "" && AllDigits(fraction)
    ensures
      var s := if fraction == "" then whole else whole + "." + fraction;
      && Trim(s) == s && IsDecimal(s)
      && Piece(Split(s), 0) == whole && Piece(Split(s), 1) == fraction
  {
    var s := if fraction == "" then whole else whole + "." + fraction;
    assert IsDigit(whole[0]) && IsDigit(s[|s| - 1]);
    DigitIsNoSpace(s[0]);
    DigitIsNoSpace(s[|s| - 1]);
    NothingToTrim(s);
    NoDotInDigits(whole);
    NoDotInDigits(fraction);
    hide Trim, IsDecimal, Split;
    if fraction == "" {
      WholeIsDecimal(whole);
      SplitWhole(whole);
    } else {
      PointedIsDecimal(whole, fraction);
      SplitAtDot(whole, fraction);
    }
  }

  /** Parsing a printed whole and fraction. */
  lemma ParsePrinted(whole: string, fraction: string, decimals: int)
    requires AllDigits(whole) && whole != "" && AllDigits(fraction) && |fraction| <= decimals <= MAX_DECIMALS
    ensures AllDigits(fraction + Zeros(decimals - |fraction|))
    ensures ParseDecimal(if fraction == "" then whole else whole + "." + fraction, decimals)
         == Ok(Scaled(ToInt(whole), decimals) + ToInt(fraction + Zeros(decimals - |fraction|)))
  {
    PrintedPieces(whole, fraction);
    ParsePieces(if fraction == "" then whole else whole + "." + fraction, decimals, whole, fraction);
  }

  lemma ParsePieces(value: string, decimals: int, whole: string, fraction: string)
    requires IsDecimal(Trim(value)) && whole == Piece(Split(Trim(value)), 0) && fraction == Piece(Split(Trim(value)), 1)
    requires |fraction| <= decimals <= MAX_DECIMALS
    ensures AllDigits(whole) && AllDigits(fraction) && AllDigits(fraction + Zeros(decimals - |fraction|))
    ensures ParseDecimal(value, decimals)
         == Ok(Scaled(ToInt(whole), decimals) + ToInt(fraction + Zeros(decimals - |fraction|)))
  {
    hide Trim, IsDecimal, Split, Scaled, IsSpace, ToInt, Slice, Piece, Zeros;
    DecimalPieces(Trim(value));
    ScaledFraction(fraction, decimals);
  }

  lemma ScaledFraction(fraction: string, decimals: int)
    requires AllDigits(fraction) && |fraction| <= decimals
    ensures Slice(fraction + Zeros(decimals), decimals) == fraction + Zeros(decimals - |fraction|)
    ensures AllDigits(fraction + Zeros(decimals - |fraction|))
    ensures
      var s := Slice(fraction + Zeros(decimals), decimals);
      ToInt(if s == "" then "0" else s) == ToInt(s)
  {
    assert ToInt("0") == 0 && ToInt("") == 0;
  }

  /** What parsing computes: the digits, without the dot, are the value in units of ten to
      the minus the number of decimals given. It fails exactly on strings outside the
      pattern, on too many decimal places and on decimals outside 0 to 255. */
  lemma ParseMeaning(value: string, decimals: int)
    ensures
      var pieces := Split(Trim(value));
      var whole, fraction := Piece(pieces, 0), Piece(pieces, 1);
      var r := ParseDecimal(value, decimals);
      && (r.Ok? || r == Err(InvalidAmount) || r == Err(TooManyPlaces))
      && (r == Err(InvalidAmount) <==> !(0 <= decimals <= MAX_DECIMALS) || !IsDecimal(Trim(value)))
      && (r == Err(TooManyPlaces) <==> 0 <= decimals <= MAX_DECIMALS && IsDecimal(Trim(value)) && |fraction| > decimals)
      && (r.Ok? ==> |fraction| <= decimals && AllDigits(whole + fraction)
                    && r.value == ToInt(whole + fraction) * Pow10(decimals - |fraction|))
  {
    hide Trim, IsDecimal, Split, Pow10, IsSpace, Scaled, ToInt, Zeros, AllDigits;
    var pieces := Split(Trim(value));
    var whole, fraction := Piece(pieces, 0), Piece(pieces, 1);
    if 0 <= decimals <= MAX_DECIMALS && IsDecimal(Trim(value)) && |fraction| <= decimals {
      ParsePieces(value, decimals, whole, fraction);
      PiecesValue(whole, fraction, decimals - |fraction|);
    }
  }

  // ---- which strings parse, and as what ---------------------------------------------------------

  /** White space and line terminators of ECMAScript. */
  predicate WhiteSpace(s: string) {
    forall i :: 0 <= i < |s| ==>
      || s[i] in {'\t', '\n', '\U{000B}', '\U{000C}', '\r', ' ', '\U{00A0}', '\U{1680}'}
      || '\U{2000}' <= s[i] <= '\U{200A}'
      || s[i] in {'\U{2028}', '\U{2029}', '\U{202F}', '\U{205F}', '\U{3000}', '\U{FEFF}'}
  }

  /** One or more digits, and if there is a dot, one or more after it. */
  predicate IsAmount(s: string, whole: string, fraction: string) {
    && whole != "" && (forall i :: 0 <= i < |whole| ==> '0' <= whole[i] <= '9')
    && (forall i :: 0 <= i < |fraction| ==> '0' <= fraction[i] <= '9')
    && s == if fraction == "" then whole else whole + "." + fraction
  }

  lemma {:induction false} TrimStartOf(before: string, s: string)
    requires WhiteSpace(before) && (s == "" || !IsSpace(s[0]))
    ensures TrimStart(before + s) == s
  {
    if before == "" {
      assert before + s == s;
    } else {
      TrimStartOf(before[1..], s);
      assert (before + s)[1..] == before[1..] + s;
    }
  }

  lemma {:induction false} TrimEndOf(s: string, after: string)
    requires WhiteSpace(after) && (s == "" || !IsSpace(s[|s| - 1]))
    ensures TrimEnd(s + after) == s
  {
    if after == "" {
      assert s + after == s;
    } else {
      var front := after[..|after| - 1];
      TrimEndOf(s, front);
      assert (s + after)[..|s + after| - 1] == s + front;
    }
  }

  lemma {:induction false} TrimmedStart(s: string) returns (before: string)
    ensures WhiteSpace(before) && s == before + TrimStart(s)
  {
    if s != "" && IsSpace(s[0]) {
      var rest := TrimmedStart(s[1..]);
      before := [s[0]] + rest;
    } else {
      before := "";
    }
  }

  lemma {:induction false} TrimmedEnd(s: string) returns (after: string)
    ensures WhiteSpace(after) && s == TrimEnd(s) + after
  {
    if s != "" && IsSpace(s[|s| - 1]) {
      var rest := TrimmedEnd(s[..|s| - 1]);
      after := rest + [s[|s| - 1]];
    } else {
      after := "";
    }
  }

  lemma TrimOf(before: string, s: string, after: string)
    requires WhiteSpace(before) && WhiteSpace(after) && s != "" && !IsSpace(s[0]) && !IsSpace(s[|s| - 1])
    ensures Trim(before + s + after) == s
  {
    hide TrimStart, TrimEnd, IsSpace, WhiteSpace;
    assert before + s + after == before + (s + after) && (s + after)[0] == s[0];
    TrimStartOf(before, s + after);
    TrimEndOf(s, after);
  }

  lemma AmountPieces(s: string, whole: string, fraction: string)
    requires IsAmount(s, whole, fraction)
    ensures AllDigits(whole) && AllDigits(fraction) && AllDigits(whole + fraction)
    ensures IsDecimal(s) && Piece(Split(s), 0) == whole && Piece(Split(s), 1) == fraction
    ensures s != "" && !IsSpace(s[0]) && !IsSpace(s[|s| - 1])
  {
    hide Split, IsDecimal, Trim;
    assert IsDigit(s[0]) && IsDigit(s[|s| - 1]);
    DigitIsNoSpace(s[0]);
    DigitIsNoSpace(s[|s| - 1]);
    PrintedPieces(whole, fraction);
  }

  /** A decimal with any white space around it is read as its digits in base units, or
      refused when it has more places than there are decimals. */
  lemma DecimalsParse(before: string, s: string, whole: string, fraction: string, after: string, decimals: int)
    requires WhiteSpace(before) && WhiteSpace(after) && IsAmount(s, whole, fraction)
    ensures AllDigits(whole + fraction)
    ensures ParseDecimal(before + s + after, decimals) ==
              if decimals < 0 || decimals > 255 then Err(InvalidAmount)
              else if |fraction| > decimals then Err(TooManyPlaces)
              else Ok(ToInt(whole + fraction) * Pow10(decimals - |fraction|))
  {
    hide ParseDecimal, ToInt, Pow10, Split, Trim, IsDecimal, IsSpace, WhiteSpace, IsAmount, AllDigits, Piece;
    AmountPieces(s, whole, fraction);
    TrimOf(before, s, after);
    ParseMeaning(before + s + after, decimals);
  }

  /** Nothing else is read: whatever parses is a decimal with white space around it. */
  lemma OnlyDecimalsParse(value: string, decimals: int)
    requires ParseDecimal(value, decimals) != Err(InvalidAmount)
    ensures 0 <= decimals <= 255
    ensures exists before, s, whole, fraction, after ::
              && WhiteSpace(before) && WhiteSpace(after) && IsAmount(s, whole, fraction)
              && value == before + s + after
  {
    hide ParseDecimal, Split, TrimStart, TrimEnd, IsDecimal;
    ParseMeaning(value, decimals);
    DecimalPieces(Trim(value));
    var pieces := Split(Trim(value));
    var whole, fraction := Piece(pieces, 0), Piece(pieces, 1);
    var before := TrimmedStart(value);
    var after := TrimmedEnd(TrimStart(value));
    assert whole != "";
    forall i | 0 <= i < |whole| ensures '0' <= whole[i] <= '9' {
      assert IsDigit(whole[i]);
    }
    forall i | 0 <= i < |fraction| ensures '0' <= fraction[i] <= '9' {
      assert IsDigit(fraction[i]);
    }
    assert IsAmount(Trim(value), whole, fraction) && value == before + Trim(value) + after;
  }

  /** What strings of digits and powers stand for. */
  lemma DigitsInBaseTen(a: string, c: char)
    requires AllDigits(a) && '0' <= c <= '9'
    ensures AllDigits(a + [c]) && ToInt(a + [c]) == 10 * ToInt(a) + (c as int - 48)
    ensures ToInt("") == 0
    ensures Pow10(0) == 1 && Pow10(|a| + 1) == 10 * Pow10(|a|)
  {
    assert (a + [c])[..|a|] == a;
  }

  /** Filling the fraction up with zeros scales the digits. */
  lemma PiecesValue(whole: string, fraction: string, rest: nat)
    requires AllDigits(whole) && AllDigits(fraction)
    ensures AllDigits(whole + fraction) && AllDigits(fraction + Zeros(rest))
    ensures Scaled(ToInt(whole), |fraction| + rest) + ToInt(fraction + Zeros(rest))
         == ToInt(whole + fraction) * Pow10(rest)
  {
    hide AllDigits, ToInt, Pow10;
    ToIntZeros(rest);
    ToIntConcat(fraction, Zeros(rest));
    ToIntConcat(whole, fraction);
    PowersAdd(|fraction|, rest);
    Distribute(ToInt(whole), Pow10(|fraction|), Pow10(rest), ToInt(fraction));
  }

  lemma Distribute(a: int, b: int, c: int, d: int)
    ensures (a * b + d) * c == a * (b * c) + d * c
  {
  }

  lemma {:induction false} PowersAdd(a: nat, b: nat)
    ensures Pow10(a + b) == Pow10(a) * Pow10(b)
  {
    if a > 0 {
      PowersAdd(a - 1, b);
    }
  }

  // ---- the round trip --------------------------------------------------------------------------------

  /** A quotient and remainder are the only ones. */
  lemma QuotientIs(x: int, d: int, q: int, r: int)
    requires d > 0 && q >= 0 && x == q * d + r && 0 <= r < d
    ensures x / d == q && x % d == r
  {
    Uint256.MulMonotone(0, q, d);
    Uint256.FloorIsGreatest(x, d, q);
    Uint256.FloorIsGreatest(x, d, q + 1);
    assert (q + 1) * d == q * d + d;
  }

  /** Cutting digits off the fraction is rounding the value down. */
  lemma CutFraction(v: int, m: nat, d: nat)
    requires v >= 0 && m <= d
    ensures
      var p, w, f := Pow10(d - m), v / Pow10(d), v % Pow10(d);
      v - v % p == w * Pow10(d) + f / p * p && 0 <= f / p < Pow10(m)
  {
    hide Pow10;
    var p, k, w, f := Pow10(d - m), Pow10(m), v / Pow10(d), v % Pow10(d);
    PowersAdd(m, d - m);
    Uint256.FloorBounds(v, Pow10(d));
    Uint256.FloorBounds(f, p);
    Uint256.FloorIsGreatest(f, p, k);
    CutQuotient(v, w, k, p, f);
  }

  lemma CutQuotient(v: int, w: int, k: int, p: int, f: int)
    requires p > 0 && k > 0 && w >= 0 && 0 <= f && v == w * (k * p) + f && f / p >= 0
    ensures v - v % p == w * (k * p) + f / p * p
  {
    Distribute(w, k, p, f / p);
    Uint256.MulMonotone(0, w, k);
    QuotientIs(v, p, w * k + f / p, f % p);
  }

  /** The fraction that is printed: the leading digits of the padded remainder. */
  lemma PrintedFraction(f: int, m: nat, d: nat)
    requires 0 < m <= d && 0 <= f < Pow10(d)
    ensures
      var printed := StripZeros(Slice(PadStart(Digits(f), d), m));
      && AllDigits(printed) && |printed| <= m
      && AllDigits(printed + Zeros(d - |printed|))
      && ToInt(printed + Zeros(d - |printed|)) == f / Pow10(d - m) * Pow10(d - m)
  {
    hide Digits, ToInt, Pow10, StripZeros, PadStart;
    var padded := PadStart(Digits(f), d);
    Padded(f, d);
    var head, tail := padded[..m], padded[m..];
    assert padded == head + tail;
    ToIntConcat(head, tail);
    ToIntBound(tail);
    ToIntBound(head);
    QuotientIs(f, Pow10(d - m), ToInt(head), ToInt(tail));
    var printed := StripZeros(head);
    Stripped(head);
    assert printed + Zeros(d - |printed|) == head + Zeros(d - m);
    ToIntZeros(d - m);
    ToIntConcat(head, Zeros(d - m));
    forall c | c in printed ensures IsDigit(c) {
      assert c in head;
    }
  }

  /** The printed value is a string of digits, or two with a dot between them. */
  lemma PrintedForm(v: int, d: int, m: int) returns (whole: string, fraction: string)
    requires v >= 0 && 0 <= m <= d <= MAX_DECIMALS
    ensures AllDigits(whole) && whole != "" && AllDigits(fraction) && |fraction| <= m
    ensures FormatBaseUnits(v, d, m) == Ok(if fraction == "" then whole else whole + "." + fraction)
    ensures ToInt(whole) == v / Pow10(d) && (whole[0] == '0' ==> whole == "0")
    ensures AllDigits(fraction + Zeros(d - |fraction|))
    ensures ToInt(fraction + Zeros(d - |fraction|)) == v % Pow10(d) / Pow10(d - m) * Pow10(d - m)
    ensures fraction != "" ==> fraction[|fraction| - 1] != '0'
  {
    hide Pow10, StripZeros, Digits, PadStart, ToInt;
    var f := v % Pow10(d);
    Uint256.FloorBounds(v, Pow10(d));
    whole := Digits(v / Pow10(d));
    ToIntDigits(v / Pow10(d));
    NoLeadingZero(v / Pow10(d));
    if m == 0 {
      fraction := "";
      ToIntZeros(d);
      assert fraction + Zeros(d) == Zeros(d);
      QuotientIs(f, Pow10(d), 0, f);
    } else {
      fraction := StripZeros(Slice(PadStart(Digits(f), d), m));
      PrintedFraction(f, m, d);
      NoTrailingZero(Slice(PadStart(Digits(f), d), m));
    }
  }

  lemma {:induction false} NoTrailingZero(s: string)
    ensures StripZeros(s) != "" ==> StripZeros(s)[|StripZeros(s)| - 1] != '0'
  {
    if s != "" && s[|s| - 1] == '0' {
      NoTrailingZero(s[..|s| - 1]);
    }
  }

  lemma FirstPower()
    ensures Pow10(0) == 1
  {
  }

  /** Printing with m fraction digits and parsing back rounds a value down to a multiple of
      ten to the decimals - m, so with all digits it gives the value itself. */
  lemma ParseOfFormat(v: int, d: int, m: int)
    requires v >= 0 && 0 <= m <= d <= MAX_DECIMALS
    ensures FormatBaseUnits(v, d, m).Ok?
    ensures ParseDecimal(FormatBaseUnits(v, d, m).value, d) == Ok(v - v % Pow10(d - m))
    ensures m == d ==> ParseDecimal(FormatBaseUnits(v, d, m).value, d) == Ok(v)
  {
    hide FormatBaseUnits, ParseDecimal, ToInt, Pow10, AllDigits, Zeros;
    var whole, fraction := PrintedForm(v, d, m);
    ParsePrinted(whole, fraction, d);
    CutFraction(v, m, d);
    if m == d {
      FirstPower();
      QuotientIs(v, Pow10(0), v, 0);
    }
  }

  /** A printed negative value does not parse. */
  lemma NegativeDoesNotParse(v: int, d: int, m: int)
    requires v < 0 && 0 <= m <= d <= MAX_DECIMALS
    ensures FormatBaseUnits(v, d, m).Ok?
    ensures ParseDecimal(FormatBaseUnits(v, d, m).value, d) == Err(InvalidAmount)
  {
    var whole, fraction := PrintedForm(-v, d, m);
    var s := FormatBaseUnits(v, d, m).value;
    hide FormatBaseUnits, ToInt, Pow10;
    assert s == "-" + (if fraction == "" then whole else whole + "." + fraction);
    assert s[|s| - 1] == (if fraction == "" then whole[|whole| - 1] else fraction[|fraction| - 1]);
    DigitIsNoSpace(s[0]);
    DigitIsNoSpace(s[|s| - 1]);
    NothingToTrim(s);
    NotDecimal(s);
  }

  lemma NotDecimal(s: string)
    requires s != "" && s[0] == '-'
    ensures !IsDecimal(s)
  {
    assert s[0] in s;
    forall k | 0 < k < |s| ensures !AllDigits(s[..k]) {
      assert s[..k][0] in s[..k];
    }
  }

  /** With all digits, no two values print alike. */
  lemma FormatIsInjective(v: int, w: int, d: int)
    requires 0 <= d <= MAX_DECIMALS && FormatBaseUnits(v, d, d) == FormatBaseUnits(w, d, d)
    ensures v == w
  {
    hide FormatBaseUnits, ParseDecimal;
    RoundTrip(v, d);
    RoundTrip(w, d);
    if v < 0 && w < 0 {
      RoundTrip(-v, d);
      RoundTrip(-w, d);
      NegativeForm(v, d);
      NegativeForm(w, d);
    }
  }

  lemma NegativeForm(v: int, d: int)
    requires v < 0 && 0 <= d <= MAX_DECIMALS
    ensures FormatBaseUnits(v, d, d).Ok? && FormatBaseUnits(-v, d, d).Ok?
    ensures FormatBaseUnits(v, d, d).value != "" && FormatBaseUnits(v, d, d).value[1..] == FormatBaseUnits(-v, d, d).value
  {
    RoundTrip(-v, d);
    assert ("-" + FormatBaseUnits(-v, d, d).value)[1..] == FormatBaseUnits(-v, d, d).value;
  }

  /** Printing with all digits and parsing back gives the value exactly when it is not
      negative; otherwise the parser refuses the sign. */
  lemma RoundTrip(v: int, d: int)
    requires 0 <= d <= MAX_DECIMALS
    ensures FormatBaseUnits(v, d, d).Ok?
    ensures ParseDecimal(FormatBaseUnits(v, d, d).value, d) == if v >= 0 then Ok(v) else Err(InvalidAmount)
  {
    if v >= 0 {
      ParseOfFormat(v, d, d);
    } else {
      NegativeDoesNotParse(v, d, d);
    }
  }

  // ---- grouping ------------------------------------------------------------------------------------

  function WithoutCommas(s: string): string {
    if s == "" then "" else (if s[0] == ',' then "" else [s[0]]) + WithoutCommas(s[1..])
  }

  lemma WithoutCommasStep(c: char, s: string)
    ensures WithoutCommas([c] + s) == (if c == ',' then "" else [c]) + WithoutCommas(s)
  {
    assert ([c] + s)[1..] == s;
  }

  lemma {:induction false} WithoutCommasConcat(a: string, b: string)
    ensures WithoutCommas(a + b) == WithoutCommas(a) + WithoutCommas(b)
  {
    hide WithoutCommas;
    if a == "" {
      EmptyWithoutCommas();
      assert a + b == b;
    } else {
      var rest := a[1..];
      WithoutCommasConcat(rest, b);
      WithoutCommasStep(a[0], rest + b);
      WithoutCommasStep(a[0], rest);
      Associates([a[0]], rest, b);
      Associates(if a[0] == ',' then "" else [a[0]], WithoutCommas(rest), WithoutCommas(b));
      assert [a[0]] + rest == a;
    }
  }

  lemma EmptyWithoutCommas()
    ensures WithoutCommas("") == ""
    ensures forall s :: WithoutCommas("") + s == s
  {
  }

  lemma {:induction false} NoCommas(s: string)
    requires ',' !in s
    ensures WithoutCommas(s) == s
  {
    if s != "" {
      NoCommas(s[1..]);
      assert [s[0]] + s[1..] == s;
    }
  }

  lemma {:induction false} UngroupedIs(digits: string, from: nat)
    requires from <= |digits| && ',' !in digits
    ensures WithoutCommas(Grouped(digits, from)) == digits[from..]
    decreases |digits| - from
  {
    hide Grouped, WithoutCommas, Separated;
    if from < |digits| {
      UngroupedIs(digits, from + 1);
      SeparatedWithoutCommas(digits, from);
      GroupedStep(digits, from);
      WithoutCommasConcat(Separated(digits, from), Grouped(digits, from + 1));
      assert digits[from..] == [digits[from]] + digits[from + 1..];
    } else {
      GroupedEnd(digits);
      EmptyWithoutCommas();
    }
  }

  lemma GroupedStep(digits: string, from: nat)
    requires from < |digits|
    ensures Grouped(digits, from) == Separated(digits, from) + Grouped(digits, from + 1)
  {
  }

  lemma GroupedEnd(digits: string)
    ensures Grouped(digits, |digits|) == "" && digits[|digits|..] == ""
  {
  }

  lemma SeparatedWithoutCommas(digits: string, at: nat)
    requires at < |digits| && ',' !in digits
    ensures WithoutCommas(Separated(digits, at)) == [digits[at]]
  {
    assert digits[at] in digits;
    WithoutCommasStep(digits[at], "");
    WithoutCommasStep(',', [digits[at]]);
    assert [digits[at]] + "" == [digits[at]] && [','] + [digits[at]] == [',', digits[at]];
  }

  /** Groups of three from the right, with commas between them. */
  function Thousands(digits: string): string {
    if |digits| <= 3 then digits else Thousands(digits[..|digits| - 3]) + "," + digits[|digits| - 3..]
  }

  lemma {:induction false} GroupedCutsThree(digits: string, from: nat)
    requires |digits| > 3 && from <= |digits| - 3
    ensures
      var n := |digits| - 3;
      Grouped(digits, from) == Grouped(digits[..n], from) + "," + digits[n..]
    decreases |digits| - from
  {
    hide Grouped, Separated;
    var n := |digits| - 3;
    var tail := digits[n..];
    GroupedStep(digits, from);
    if from == n {
      TailIsPlain(digits, n + 1);
      FirstOfThree(digits);
      GroupedEnd(digits[..n]);
    } else {
      GroupedCutsThree(digits, from + 1);
      GroupedStep(digits[..n], from);
      SameSeparated(digits, from);
      var front := Grouped(digits[..n], from + 1);
      Associates(Separated(digits, from), front, "," + tail);
      Associates(front, ",", tail);
      Associates(Separated(digits, from) + front, ",", tail);
    }
  }

  lemma FirstOfThree(digits: string)
    requires |digits| > 3
    ensures Separated(digits, |digits| - 3) + digits[|digits| - 2..] == "" + "," + digits[|digits| - 3..]
  {
  }

  lemma SameSeparated(digits: string, at: nat)
    requires at < |digits| - 3
    ensures Separated(digits, at) == Separated(digits[..|digits| - 3], at)
  {
    assert (|digits| - at) % 3 == (|digits| - 3 - at) % 3;
  }

  /** The last digits, fewer than three or all there are, get no comma. */
  lemma {:induction false} TailIsPlain(digits: string, from: nat)
    requires |digits| - 3 <= from <= |digits| && (from > 0 ==> |digits| - 3 < from)
    ensures Grouped(digits, from) == digits[from..]
    decreases |digits| - from
  {
    if from < |digits| {
      TailIsPlain(digits, from + 1);
      assert digits[from..] == [digits[from]] + digits[from + 1..];
    }
  }

  /** The pattern puts the commas between groups of three, counted from the right. */
  lemma {:induction false} GroupedIsThousands(digits: string)
    ensures Grouped(digits, 0) == Thousands(digits)
  {
    if |digits| > 3 {
      GroupedCutsThree(digits, 0);
      GroupedIsThousands(digits[..|digits| - 3]);
    } else {
      TailIsPlain(digits, 0);
    }
  }

  lemma SignedSplit(sign: string, whole: string, fraction: string)
    requires sign in {"", "-"} && AllDigits(whole) && AllDigits(fraction)
    ensures Split(Joined(sign, whole, fraction)) == if fraction == "" then [sign + whole] else [sign + whole, fraction]
  {
    NoDotInDigits(whole);
    NoDotInDigits(fraction);
    if fraction == "" {
      SplitWhole(sign + whole);
    } else {
      SplitAtDot(sign + whole, fraction);
    }
  }

  /** The parts of a printed value, sign included. */
  lemma SignedForm(v: int, d: int, m: int) returns (sign: string, whole: string, fraction: string)
    requires 0 <= m <= d <= MAX_DECIMALS
    ensures sign == (if v < 0 then "-" else "") && AllDigits(whole) && whole != "" && AllDigits(fraction)
    ensures FormatBaseUnits(v, d, m) == Ok(Joined(sign, whole, fraction))
  {
    sign := if v < 0 then "-" else "";
    whole, fraction := PrintedForm(if v < 0 then -v else v, d, m);
    SignAssociates(sign, whole, fraction);
    if v < 0 {
      NegativePrints(v, d, m);
    }
    hide FormatBaseUnits, ToInt, Pow10, AllDigits, Zeros;
  }

  lemma NegativePrints(v: int, d: int, m: int)
    requires v < 0 && FormatBaseUnits(-v, d, m).Ok?
    ensures FormatBaseUnits(v, d, m) == Ok("-" + FormatBaseUnits(-v, d, m).value)
  {
  }

  lemma SignAssociates(sign: string, whole: string, fraction: string)
    ensures sign + (if fraction == "" then whole else whole + "." + fraction) == Joined(sign, whole, fraction)
    ensures Joined("", whole, fraction) == if fraction == "" then whole else whole + "." + fraction
  {
    assert "" + whole == whole;
    assert sign + (whole + "." + fraction) == sign + whole + "." + fraction;
  }

  /** The display form groups the whole part by thousands and changes nothing else: without
      its commas it is the plain form, for negative values too. */
  lemma DisplayIsGrouped(v: int, d: int, m: int)
    ensures FormatDisplayAmount(v, d, m).Err? <==> FormatBaseUnits(v, d, m).Err?
    ensures FormatBaseUnits(v, d, m).Err? <==> !(0 <= m <= d <= MAX_DECIMALS)
    ensures FormatDisplayAmount(v, d, m).Ok? ==>
              WithoutCommas(FormatDisplayAmount(v, d, m).value) == FormatBaseUnits(v, d, m).value
    ensures FormatDisplayAmount(v, d, m).Ok? ==>
              exists sign, whole, fraction ::
                && FormatBaseUnits(v, d, m) == Ok(Joined(sign, whole, fraction))
                && FormatDisplayAmount(v, d, m) == Ok(Joined(sign, Thousands(whole), fraction))
                && AllDigits(whole)
  {
    if 0 <= m <= d <= MAX_DECIMALS {
      var sign, whole, fraction := SignedForm(v, d, m);
      SignedSplit(sign, whole, fraction);
      DisplayOfPieces(v, d, m, sign, whole, fraction);
      UngroupedJoined(sign, whole, fraction);
    }
  }

  function Joined(sign: string, whole: string, fraction: string): string {
    if fraction == "" then sign + whole else sign + whole + "." + fraction
  }

  lemma DisplayOfPieces(v: int, d: int, m: int, sign: string, whole: string, fraction: string)
    requires FormatBaseUnits(v, d, m) == Ok(Joined(sign, whole, fraction))
    requires sign in {"", "-"} && AllDigits(whole) && whole != "" && AllDigits(fraction)
    requires Split(Joined(sign, whole, fraction)) == if fraction == "" then [sign + whole] else [sign + whole, fraction]
    ensures FormatDisplayAmount(v, d, m) == Ok(Joined(sign, Thousands(whole), fraction))
  {
    hide FormatBaseUnits, Split, Grouped, Thousands;
    assert IsDigit(whole[0]);
    assert (sign + whole)[0] == '-' <==> sign == "-";
    assert sign == "-" ==> (sign + whole)[1..] == whole;
    assert "" + whole == whole;
    GroupedIsThousands(whole);
  }

  lemma UngroupedJoined(sign: string, whole: string, fraction: string)
    requires sign in {"", "-"} && AllDigits(whole) && AllDigits(fraction)
    ensures WithoutCommas(Joined(sign, Thousands(whole), fraction)) == Joined(sign, whole, fraction)
  {
    hide Grouped, Thousands, WithoutCommas, AllDigits;
    NoDotInDigits(whole);
    NoDotInDigits(fraction);
    var grouped := Thousands(whole);
    GroupedIsThousands(whole);
    UngroupedIs(whole, 0);
    NoCommas(sign);
    NoCommas("." + fraction);
    WithoutCommasConcat(sign, grouped);
    WithoutCommasConcat(sign + grouped, "." + fraction);
    Associates(sign + grouped, ".", fraction);
    Associates(sign + whole, ".", fraction);
  }

  lemma Associates(a: string, b: string, c: string)
    ensures (a + b) + c == a + (b + c)
  {
  }
}
