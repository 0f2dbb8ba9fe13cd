/** Text primitives shared by the score number and the wire codecs: decimal
    digit strings, the conversion of text to numbers that JavaScript's
    `Number()` and `BigInt()` perform on plain decimal literals, the decimal
    rendering of numbers, and `split`/`join` on a separator character. */
module Text {

  datatype Option<+T> = None | Some(value: T)

  // ---------------------------------------------------------------------------
  // Decimal digits
  // ---------------------------------------------------------------------------

  predicate IsDigit(ch: char) { '0' <= ch <= '9' }

  predicate AllDigits(s: string) { forall i :: 0 <= i < |s| ==> IsDigit(s[i]) }

  function DigitValue(ch: char): (d: nat)
    requires IsDigit(ch)
    ensures d < 10
  {
    (ch as int) - ('0' as int)
  }

  function DigitChar(d: nat): (ch: char)
    requires d < 10
    ensures IsDigit(ch) && DigitValue(ch) == d
  {
    (('0' as int) + d) as char
  }

  function Pow10(k: nat): (p: nat)
    ensures p >= 1
  {
    if k == 0 then 1 else 10 * Pow10(k - 1)
  }

  /** `a` times 10^k, one factor of ten at a time. */
  function Shift(a: real, k: nat): (r: real)
    ensures a >= 0.0 ==> r >= 0.0
  {
    if k == 0 then a else 10.0 * Shift(a, k - 1)
  }

  /** `a` divided by 10^k, one factor of ten at a time. */
  function Unshift(a: real, k: nat): real
    decreases k
  {
    if k == 0 then a else Unshift(a / 10.0, k - 1)
  }

  /** Dividing by 10^k undoes multiplying by 10^k. */
  lemma {:induction false} UnshiftShift(a: real, k: nat)
    ensures Unshift(Shift(a, k), k) == a
  {
    if k > 0 {
      assert Shift(a, k) / 10.0 == Shift(a, k - 1);
      UnshiftShift(a, k - 1);
    }
  }

  /** The number a string of decimal digits denotes, most significant digit
      first; the empty string denotes 0. */
  function DigitsValue(s: string): nat
    requires AllDigits(s)
  {
    if s == [] then 0 else 10 * DigitsValue(s[..|s| - 1]) + DigitValue(s[|s| - 1])
  }

  /** The shortest decimal spelling of `n`, as `String(n)` gives it. */
  function NatToDigits(n: nat): (s: string)
    ensures 1 <= |s| && AllDigits(s)
  {
    if n < 10 then [DigitChar(n)] else NatToDigits(n / 10) + [DigitChar(n % 10)]
  }

  /** Rendering a natural number and reading it back gives the number. */
  lemma {:induction false} DigitsRoundTrip(n: nat)
    ensures DigitsValue(NatToDigits(n)) == n
  {
    if n >= 10 {
      var s := NatToDigits(n);
      assert s[..|s| - 1] == NatToDigits(n / 10);
      DigitsRoundTrip(n / 10);
    }
  }

  /** The number of decimal digits in `String(n)`, which is how the source
      measures the length of a whole number. */
  function DigitCount(n: nat): (d: nat)
    ensures d >= 1
  {
    |NatToDigits(n)|
  }

  /** `DigitCount` is the number of digits in the usual sense: a number with
      `d` digits lies in [10^(d-1), 10^d), and 0 has one digit. */
  lemma {:induction false} DigitCountBounds(n: nat)
    ensures n < Pow10(DigitCount(n))
    ensures n >= 1 ==> Pow10(DigitCount(n) - 1) <= n
  {
    if n >= 10 {
      DigitCountBounds(n / 10);
      assert DigitCount(n) == DigitCount(n / 10) + 1;
    }
  }

  /** `n` times 10^k, one factor of ten at a time. */
  function ShiftNat(n: nat, k: nat): nat
  {
    if k == 0 then n else 10 * ShiftNat(n, k - 1)
  }

  lemma {:induction false} ShiftNatZero(k: nat)
    ensures ShiftNat(0, k) == 0
  {
    if k > 0 { ShiftNatZero(k - 1); }
  }

  lemma AllDigitsAppend(a: string, b: string)
    requires AllDigits(a) && AllDigits(b)
    ensures AllDigits(a + b)
  {
    assert forall i :: 0 <= i < |a + b| ==> (a + b)[i] == if i < |a| then a[i] else b[i - |a|];
  }

  /** Digits written after others shift them up by one place each. */
  lemma {:induction false} DigitsValueAppend(a: string, b: string)
    requires AllDigits(a) && AllDigits(b)
    ensures AllDigits(a + b)
    ensures DigitsValue(a + b) == ShiftNat(DigitsValue(a), |b|) + DigitsValue(b)
    decreases |b|
  {
    AllDigitsAppend(a, b);
    if b == [] {
      assert a + b == a;
    } else {
      var ab := a + b;
      var b' := b[..|b| - 1];
      assert ab[..|ab| - 1] == a + b';
      assert ab[|ab| - 1] == b[|b| - 1];
      DigitsValueAppend(a, b');
    }
  }

  function Zeros(k: nat): (s: string)
    ensures |s| == k && AllDigits(s)
  {
    if k == 0 then "" else Zeros(k - 1) + "0"
  }

  lemma {:induction false} ZerosValue(k: nat)
    ensures DigitsValue(Zeros(k)) == 0
  {
    if k > 0 {
      var z := Zeros(k);
      assert z[..|z| - 1] == Zeros(k - 1);
      ZerosValue(k - 1);
    }
  }

  /** Left-pads a digit string with zeros to at least `width` characters. */
  function ZeroPad(s: string, width: nat): (r: string)
    requires AllDigits(s)
    ensures AllDigits(r) && |r| >= width && |r| >= |s|
  {
    if |s| >= width then s else Zeros(width - |s|) + s
  }

  lemma ZeroPadValue(s: string, width: nat)
    requires AllDigits(s)
    ensures DigitsValue(ZeroPad(s, width)) == DigitsValue(s)
  {
    if |s| < width {
      var z := Zeros(width - |s|);
      ZerosValue(width - |s|);
      DigitsValueAppend(z, s);
      ShiftNatZero(|s|);
    }
  }

  // ---------------------------------------------------------------------------
  // Sequence identities, stated for any element type so that sequences of
  // strings are compared without comparing the strings
  // ---------------------------------------------------------------------------

  lemma TakeSnoc<T>(s: seq<T>, i: nat)
    requires i < |s|
    ensures s[..i + 1] == s[..i] + [s[i]]
    ensures s[..i + 1][..i] == s[..i]
  {
  }

  lemma TakeAll<T>(s: seq<T>)
    ensures s[..|s|] == s
    ensures s[0..] == s
  {
  }

  lemma Around<T>(s: seq<T>, i: nat)
    requires i < |s|
    ensures s == s[..i] + [s[i]] + s[i + 1..]
  {
  }

  lemma DropFirst<T>(s: seq<T>, i: nat)
    requires i < |s|
    ensures s[i..][1..] == s[i + 1..]
  {
  }

  lemma TakeDrop<T>(s: seq<T>, i: nat)
    requires i <= |s|
    ensures s[..i] + s[i..] == s
  {
  }

  lemma TailAppend<T>(a: seq<T>, b: seq<T>)
    requires a != []
    ensures (a + b)[0] == a[0]
    ensures (a + b)[1..] == a[1..] + b
  {
  }

  lemma AppendAssoc<T>(a: seq<T>, b: seq<T>, c: seq<T>)
    ensures a + b + c == a + (b + c)
  {
  }

  lemma Regroup<T>(a: seq<T>, b: seq<T>, c: seq<T>, d: seq<T>, e: seq<T>, f: seq<T>)
    ensures a + b + c + d + e + f == a + b + (c + d + (e + f))
  {
  }

  lemma AppendEmpty<T>(a: seq<T>)
    ensures a + [] == a && [] + a == a
  {
  }

  lemma InitAppend<T>(a: seq<T>, b: seq<T>)
    requires b != []
    ensures (a + b)[..|a + b| - 1] == a + b[..|b| - 1]
  {
  }

  // ---------------------------------------------------------------------------
  // Searching, splitting and joining
  // ---------------------------------------------------------------------------

  /** The first position of `c` in `s`, or `|s|` when `c` does not occur. */
  function IndexOf(s: string, c: char): (i: nat)
    ensures i <= |s|
    ensures i < |s| ==> s[i] == c
    ensures c !in s[..i]
    ensures i == |s| <==> c !in s
  {
    if s == [] then 0 else if s[0] == c then 0 else 1 + IndexOf(s[1..], c)
  }

  /** JavaScript's `s.split(c)`: the maximal pieces between occurrences of
      `c`; there is always at least one piece. */
  function Split(s: string, c: char): (parts: seq<string>)
    ensures |parts| >= 1
    decreases |s|
  {
    var i := IndexOf(s, c);
    if i == |s| then [s] else [s[..i]] + Split(s[i + 1..], c)
  }

  /** JavaScript's `parts.join(c)`. */
  function Join(parts: seq<string>, c: char): string
  {
    if parts == [] then ""
    else if |parts| == 1 then parts[0]
    else parts[0] + [c] + Join(parts[1..], c)
  }

  /** No piece of a split contains the separator. */
  lemma {:induction false} SplitPiecesFree(s: string, c: char)
    ensures forall k :: 0 <= k < |Split(s, c)| ==> c !in Split(s, c)[k]
    decreases |s|
  {
    var i := IndexOf(s, c);
    if i < |s| { SplitPiecesFree(s[i + 1..], c); }
  }

  /** Joining the pieces of a split restores the text. */
  lemma {:induction false} JoinSplit(s: string, c: char)
    ensures Join(Split(s, c), c) == s
    decreases |s|
  {
    var i := IndexOf(s, c);
    if i < |s| {
      JoinSplit(s[i + 1..], c);
      JoinSplitStep(s, c);
      Around(s, i);
    }
  }

  lemma JoinSplitStep(s: string, c: char)
    requires IndexOf(s, c) < |s|
    ensures var i := IndexOf(s, c);
            Join(Split(s, c), c) == s[..i] + [c] + Join(Split(s[i + 1..], c), c)
  {
    var i := IndexOf(s, c);
    var rest := Split(s[i + 1..], c);
    assert Split(s, c) == [s[..i]] + rest;
    JoinCons(s[..i], rest, c);
  }

  /** Joining a piece in front of further pieces puts the separator
      between it and their join. */
  lemma JoinCons(piece: string, rest: seq<string>, c: char)
    requires rest != []
    ensures Join([piece] + rest, c) == piece + [c] + Join(rest, c)
  {
    TailAppend([piece], rest);
  }

  /** Splitting a join gives back the pieces, provided none contains the
      separator. */
  lemma {:induction false} SplitJoin(parts: seq<string>, c: char)
    requires |parts| >= 1
    requires forall k :: 0 <= k < |parts| ==> c !in parts[k]
    ensures Split(Join(parts, c), c) == parts
    decreases |parts|
  {
    if |parts| > 1 {
      var s := Join(parts, c);
      var head := parts[0];
      assert s == head + [c] + Join(parts[1..], c);
      IndexOfPrefix(head, Join(parts[1..], c), c);
      assert s[..|head|] == head;
      assert s[|head| + 1..] == Join(parts[1..], c);
      SplitJoin(parts[1..], c);
    } else {
      assert IndexOf(parts[0], c) == |parts[0]|;
    }
  }

  lemma {:induction false} IndexOfPrefix(a: string, b: string, c: char)
    requires c !in a
    ensures IndexOf(a + [c] + b, c) == |a|
  {
    if a != [] {
      assert (a + [c] + b)[1..] == a[1..] + [c] + b;
      IndexOfPrefix(a[1..], b, c);
    }
  }

  /** Two pieces joined by the separator split back into those two. */
  lemma SplitPair(a: string, b: string, c: char)
    requires c !in a && c !in b
    ensures Split(a + [c] + b, c) == [a, b]
  {
    var s := a + [c] + b;
    IndexOfPrefix(a, b, c);
    assert s[..|a|] == a;
    assert s[|a| + 1..] == b;
    assert Split(b, c) == [b];
  }

  // ---------------------------------------------------------------------------
  // Text to numbers
  // ---------------------------------------------------------------------------

  /** An unsigned decimal literal: digits, optionally a '.' and more digits,
      with at least one digit in all. */
  function ParseUnsigned(s: string): Option<real>
  {
    var i := IndexOf(s, '.');
    var whole := s[..i];
    var frac := if i < |s| then s[i + 1..] else "";
    if AllDigits(whole) && AllDigits(frac) && |whole| + |frac| > 0 then
      Some(Unshift(DigitsValue(whole + frac) as real, |frac|))
    else None
  }

  /** JavaScript's `Number(s)` on plain decimal literals: the empty text is 0,
      an optional sign is followed by an unsigned literal, and anything else
      is not a number (`None` stands for NaN). */
  function ParseNumber(s: string): Option<real>
  {
    if s == "" then Some(0.0)
    else
      var signed := s[0] == '-' || s[0] == '+';
      match ParseUnsigned(if signed then s[1..] else s)
      case Some(v) => Some(if s[0] == '-' then -v else v)
      case None => None
  }

  /** JavaScript's `BigInt(s)` on plain decimal literals: the empty text is 0,
      an optional sign is followed by at least one digit; anything else throws
      (`None`). */
  function ParseBigInt(s: string): Option<int>
  {
    if s == "" then Some(0)
    else if s[0] == '-' || s[0] == '+' then
      if |s| > 1 && AllDigits(s[1..]) then
        var magnitude: int := DigitsValue(s[1..]);
        Some(if s[0] == '-' then -magnitude else magnitude)
      else None
    else if AllDigits(s) then Some(DigitsValue(s))
    else None
  }

  // ---------------------------------------------------------------------------
  // Numbers to text
  // ---------------------------------------------------------------------------

  /** Fractional digits kept when a number is rendered. */
  const MaxPlaces: nat := 20

  function Abs(r: real): real { if r < 0.0 then -r else r }

  predicate IsWhole(x: real) { x == x.Floor as real }

  /** `r` is written exactly with `k` fractional digits. */
  predicate HasPlaces(r: real, k: nat) { IsWhole(Shift(Abs(r), k)) }

  /** `r` is a decimal that the renderer writes exactly. */
  predicate IsFiniteDecimal(r: real) { HasPlaces(r, MaxPlaces) }

  function PlacesFrom(r: real, k: nat): (p: nat)
    requires k <= MaxPlaces
    ensures k <= p <= MaxPlaces
    ensures p < MaxPlaces ==> HasPlaces(r, p)
    decreases MaxPlaces - k
  {
    if k == MaxPlaces || HasPlaces(r, k) then k else PlacesFrom(r, k + 1)
  }

  /** The fewest fractional digits that write `r` exactly, at most MaxPlaces. */
  function Places(r: real): (p: nat)
    ensures p <= MaxPlaces
    ensures IsFiniteDecimal(r) ==> HasPlaces(r, p)
  {
    PlacesFrom(r, 0)
  }

  /** The whole part of `Abs(r)` scaled by 10^k. */
  function Scaled(r: real, k: nat): nat
  {
    Shift(Abs(r), k).Floor
  }

  /** The digits of `Abs(r)` scaled by 10^k, padded so that at least one
      digit stands before the decimal point. */
  function ScaledDigits(r: real, k: nat): (s: string)
    ensures AllDigits(s) && |s| >= k + 1
  {
    ZeroPad(NatToDigits(Scaled(r, k)), k + 1)
  }

  /** Text made of digits, '.' and '-' only, starting with a digit or '-'. */
  predicate IsNumeral(s: string)
  {
    && |s| >= 1 && (IsDigit(s[0]) || s[0] == '-')
    && forall i :: 0 <= i < |s| ==> IsDigit(s[i]) || s[i] == '.' || s[i] == '-'
  }

  lemma NumeralLacks(s: string, c: char)
    requires IsNumeral(s) && !IsDigit(c) && c != '.' && c != '-'
    ensures c !in s
  {
    assert forall i :: 0 <= i < |s| ==> s[i] != c;
  }

  lemma DigitsLack(s: string, c: char)
    requires AllDigits(s) && !IsDigit(c)
    ensures c !in s
  {
    assert forall i :: 0 <= i < |s| ==> s[i] != c;
  }

  /** The digits with a '.' inserted before the last `k` of them (none when
      `k` is 0). */
  function PointBody(digits: string, k: nat): (body: string)
    requires AllDigits(digits) && |digits| >= k + 1
    ensures IsNumeral(body) && IsDigit(body[0])
  {
    if k == 0 then digits
    else
      var body := digits[..|digits| - k] + "." + digits[|digits| - k..];
      assert forall i :: 0 <= i < |body| ==> IsDigit(body[i]) || body[i] == '.' by {
        forall i | 0 <= i < |body| ensures IsDigit(body[i]) || body[i] == '.' {
          if i < |digits| - k { assert body[i] == digits[i]; }
          else if i > |digits| - k { assert body[i] == digits[i - 1]; }
        }
      }
      body
  }

  /** The decimal text of a number, as string interpolation renders it: a
      '-' for negatives, the whole part, and a '.' with the fractional digits
      when there are any. Digits beyond MaxPlaces are cut off. */
  function RenderNumber(r: real): (s: string)
    ensures IsNumeral(s)
  {
    var k := Places(r);
    var body := PointBody(ScaledDigits(r, k), k);
    if r < 0.0 then "-" + body else body
  }

  /** Scaling a decimal with `k` places by 10^k loses nothing: scaling
      back gives the number's magnitude. */
  lemma ScaledExact(r: real, k: nat)
    requires HasPlaces(r, k)
    ensures Unshift(Scaled(r, k) as real, k) == Abs(r)
  {
    assert Scaled(r, k) as real == Shift(Abs(r), k);
    UnshiftShift(Abs(r), k);
  }

  lemma ScaledDigitsValue(r: real, k: nat)
    ensures DigitsValue(ScaledDigits(r, k)) == Scaled(r, k)
  {
    ZeroPadValue(NatToDigits(Scaled(r, k)), k + 1);
    DigitsRoundTrip(Scaled(r, k));
  }

  lemma ScaledValue(r: real, k: nat)
    requires HasPlaces(r, k)
    ensures Unshift(DigitsValue(ScaledDigits(r, k)) as real, k) == Abs(r)
  {
    ScaledExact(r, k);
    ScaledDigitsValue(r, k);
    assert DigitsValue(ScaledDigits(r, k)) as real == Scaled(r, k) as real;
  }

  lemma ParseWhole(whole: string)
    requires AllDigits(whole) && |whole| >= 1
    ensures ParseUnsigned(whole) == Some(DigitsValue(whole) as real)
  {
    DigitsLack(whole, '.');
    assert IndexOf(whole, '.') == |whole|;
    assert whole[..|whole|] == whole;
    assert whole + "" == whole;

  }

  /** A run of digits reads as the number it denotes. */
  lemma ParseDigits(s: string)
    requires AllDigits(s) && |s| >= 1
    ensures ParseNumber(s) == Some(DigitsValue(s) as real)
  {
    ParseWhole(s);
  }

  lemma ParsePointed(whole: string, frac: string)
    requires AllDigits(whole) && AllDigits(frac) && |whole| >= 1
    ensures AllDigits(whole + frac)
    ensures ParseUnsigned(whole + "." + frac)
            == Some(Unshift(DigitsValue(whole + frac) as real, |frac|))
  {
    DigitsValueAppend(whole, frac);
    DigitsLack(whole, '.');
    IndexOfPrefix(whole, frac, '.');
    var body := whole + "." + frac;
    assert body[..|whole|] == whole;
    assert body[|whole| + 1..] == frac;
  }

  lemma PointBodyWhole(digits: string)
    requires AllDigits(digits) && |digits| >= 1
    ensures ParseUnsigned(PointBody(digits, 0)) == Some(DigitsValue(digits) as real)
  {
    PointBodyShape(digits, 0);
    ParseWhole(digits);
  }

  lemma PointBodyShape(digits: string, k: nat)
    requires AllDigits(digits) && |digits| >= k + 1
    ensures k == 0 ==> PointBody(digits, k) == digits
    ensures k > 0 ==> PointBody(digits, k) == digits[..|digits| - k] + "." + digits[|digits| - k..]
  {
  }

  lemma PointBodyFraction(digits: string, k: nat)
    requires AllDigits(digits) && |digits| >= k + 1 && k > 0
    ensures ParseUnsigned(PointBody(digits, k))
            == Some(Unshift(DigitsValue(digits) as real, k))
  {
    PointBodyShape(digits, k);
    var whole := digits[..|digits| - k];
    var frac := digits[|digits| - k..];
    assert whole + frac == digits;
    ParsePointed(whole, frac);
  }

  lemma PointBodyValue(digits: string, k: nat)
    requires AllDigits(digits) && |digits| >= k + 1
    ensures ParseUnsigned(PointBody(digits, k))
            == Some(Unshift(DigitsValue(digits) as real, k))
  {
    if k == 0 {
      PointBodyWhole(digits);
    } else {
      PointBodyFraction(digits, k);
    }
  }

  /** Reading back the text of a number that the renderer writes exactly gives
      the number. */
  lemma RenderRoundTrip(r: real)
    requires IsFiniteDecimal(r)
    ensures ParseNumber(RenderNumber(r)) == Some(r)
  {
    var k := Places(r);
    var digits := ScaledDigits(r, k);
    var body := PointBody(digits, k);
    ScaledValue(r, k);
    PointBodyValue(digits, k);
    assert ParseUnsigned(body) == Some(Abs(r));
    if r < 0.0 {
      assert ("-" + body)[1..] == body;
    }
  }

  /** Whole numbers render as their plain digit strings. */
  lemma RenderNat(n: nat)
    ensures RenderNumber(n as real) == NatToDigits(n)
  {
    var r := n as real;
    assert Shift(Abs(r), 0) == r;
    assert HasPlaces(r, 0);
    assert PlacesFrom(r, 0) == 0;
    assert Scaled(r, 0) == n;
  }
}
