/** Base32 without padding (section 6 of RFC 4648), on bit strings. */
module Base32 {
  import opened Prelude

  // ---------------------------------------------------------------- bits, most significant first

  function Pow2(w: nat): nat { if w == 0 then 1 else 2 * Pow2(w - 1) }

  /** `n` in `w` bits. */
  function ToBits(n: nat, w: nat): (s: seq<bool>)
    ensures |s| == w
  {
    if w == 0 then [] else ToBits(n / 2, w - 1) + [n % 2 == 1]
  }

  function FromBits(s: seq<bool>): nat {
    if s == [] then 0 else 2 * FromBits(s[..|s| - 1]) + if s[|s| - 1] then 1 else 0
  }

  lemma {:induction false} NumberOfBits(n: nat, w: nat)
    requires n < Pow2(w)
    ensures FromBits(ToBits(n, w)) == n
  {
    if w > 0 {
      NumberOfBits(n / 2, w - 1);
      assert ToBits(n, w)[..w - 1] == ToBits(n / 2, w - 1);
    }
  }

  lemma {:induction false} BitsOfNumber(s: seq<bool>)
    ensures FromBits(s) < Pow2(|s|) && ToBits(FromBits(s), |s|) == s
  {
    if s != [] {
      BitsOfNumber(s[..|s| - 1]);
      assert s == s[..|s| - 1] + [s[|s| - 1]];
    }
  }

  /** The digits of `w` bits each, one after the other. */
  function Concat(digits: seq<nat>, w: nat): (bits: seq<bool>)
    ensures |bits| == |digits| * w
  {
    if digits == [] then [] else ToBits(digits[0], w) + Concat(digits[1..], w)
  }

  /** `bits` in digits of `w` bits; what is left over at the end is dropped. */
  function Group(bits: seq<bool>, w: nat): seq<nat>
    requires w > 0
    decreases |bits|
  {
    if |bits| < w then [] else [FromBits(bits[..w])] + Group(bits[w..], w)
  }

  predicate Digits(digits: seq<nat>, w: nat) { forall k :: 0 <= k < |digits| ==> digits[k] < Pow2(w) }

  lemma {:induction false} GroupOfConcat(digits: seq<nat>, w: nat, rest: seq<bool>)
    requires Digits(digits, w) && |rest| < w
    ensures Group(Concat(digits, w) + rest, w) == digits
    decreases |digits|
  {
    if digits == [] {
      assert Concat(digits, w) + rest == rest;
    } else {
      var tail := Concat(digits[1..], w) + rest;
      assert Concat(digits, w) + rest == ToBits(digits[0], w) + tail;
      NumberOfBits(digits[0], w);
      GroupOfConcat(digits[1..], w, rest);
      GroupStep(ToBits(digits[0], w), tail, w);
    }
  }

  lemma GroupStep(first: seq<bool>, tail: seq<bool>, w: nat)
    requires w > 0 && |first| == w
    ensures Group(first + tail, w) == [FromBits(first)] + Group(tail, w)
  {
    assert (first + tail)[..w] == first && (first + tail)[w..] == tail;
  }

  /** How many bits are left over. */
  function Leftover(n: nat, w: nat): (r: nat)
    requires w > 0
    ensures r < w && r <= n
  {
    if n < w then n else Leftover(n - w, w)
  }

  lemma {:induction false} ConcatOfGroup(bits: seq<bool>, w: nat)
    requires w > 0
    ensures Digits(Group(bits, w), w)
    ensures Concat(Group(bits, w), w) == bits[..|bits| - Leftover(|bits|, w)]
    decreases |bits|
  {
    if |bits| >= w {
      var first, tail := bits[..w], bits[w..];
      ConcatOfGroup(tail, w);
      BitsOfNumber(first);
      ConcatCons(FromBits(first), Group(tail, w), w);
      FirstAndSome(bits, w, |tail| - Leftover(|tail|, w));
    }
  }

  lemma FirstAndSome(bits: seq<bool>, w: nat, k: nat)
    requires w + k <= |bits|
    ensures bits[..w + k] == bits[..w] + bits[w..][..k]
  {
  }

  lemma ConcatCons(digit: nat, digits: seq<nat>, w: nat)
    ensures Concat([digit] + digits, w) == ToBits(digit, w) + Concat(digits, w)
  {
    assert ([digit] + digits)[1..] == digits;
  }

  // ---------------------------------------------------------------- digits and bytes

  function Zeros(n: nat): seq<bool> { seq(n, _ => false) }

  /** Zero bits up to a multiple of five. */
  function Padded(bits: seq<bool>): seq<bool> {
    var over := Leftover(|bits|, 5);
    if over == 0 then bits else bits + Zeros(5 - over)
  }

  lemma {:induction false} LeftoverSum(n: nat, m: nat, w: nat)
    requires w > 0
    ensures Leftover(n + m, w) == Leftover(Leftover(n, w) + m, w)
    decreases n
  {
    if n >= w { LeftoverSum(n - w, m, w); }
  }

  lemma PaddedFull(bits: seq<bool>)
    ensures Leftover(|Padded(bits)|, 5) == 0 && |Padded(bits)| - |bits| < 5
    ensures bits <= Padded(bits)
  {
    LeftoverSum(|bits|, |Padded(bits)| - |bits|, 5);
  }

  function EncodeDigits(octets: seq<nat>): seq<nat> { Group(Padded(Concat(octets, 8)), 5) }

  function DecodeDigits(digits: seq<nat>): seq<nat> { Group(Concat(digits, 5), 8) }

  lemma DigitsRoundTrip(octets: seq<nat>)
    requires Digits(octets, 8)
    ensures Digits(EncodeDigits(octets), 5) && DecodeDigits(EncodeDigits(octets)) == octets
  {
    var bits := Concat(octets, 8);
    var padded := Padded(bits);
    PaddedFull(bits);
    ConcatOfGroup(padded, 5);
    assert padded[..|padded|] == padded == bits + padded[|bits|..];
    GroupOfConcat(octets, 8, padded[|bits|..]);
  }

  // ---------------------------------------------------------------- text

  function Letter(d: nat): char
    requires d < 32
  {
    if d < 26 then 'A' + d as char else '2' + (d - 26) as char
  }

  function Digit(c: char): Option<nat> {
    if 'A' <= c <= 'Z' then Some((c - 'A') as nat)
    else if '2' <= c <= '7' then Some((c - '2') as nat + 26)
    else None
  }

  predicate InAlphabet(s: string) { forall k :: 0 <= k < |s| ==> Digit(s[k]).Some? }

  lemma DigitLetter(d: nat, c: char)
    ensures d < 32 ==> Digit(Letter(d)) == Some(d)
    ensures Digit(c).Some? ==> Digit(c).value < 32 && Letter(Digit(c).value) == c
  {
  }

  lemma FiveBits()
    ensures Pow2(5) == 32 && Pow2(8) == 256
  {
    assert Pow2(3) == 8;
    assert Pow2(5) == 4 * Pow2(3);
    assert Pow2(8) == 8 * Pow2(5);
  }

  function Octets(b: Bytes): seq<nat> { seq(|b|, k requires 0 <= k < |b| => b[k] as nat) }

  function AsBytes(octets: seq<nat>): Bytes
    requires forall k :: 0 <= k < |octets| ==> octets[k] < 256
  {
    seq(|octets|, k requires 0 <= k < |octets| => octets[k] as byte)
  }

  function Letters(digits: seq<nat>): string
    requires forall k :: 0 <= k < |digits| ==> digits[k] < 32
  {
    seq(|digits|, k requires 0 <= k < |digits| => Letter(digits[k]))
  }

  function Values(s: string): seq<nat>
    requires InAlphabet(s)
  {
    seq(|s|, k requires 0 <= k < |s| => Digit(s[k]).value)
  }

  lemma EncodedDigits(b: Bytes)
    ensures forall k :: 0 <= k < |EncodeDigits(Octets(b))| ==> EncodeDigits(Octets(b))[k] < 32
  {
    FiveBits();
    DigitsRoundTrip(Octets(b));
  }

  lemma DecodedDigits(digits: seq<nat>)
    ensures forall k :: 0 <= k < |DecodeDigits(digits)| ==> DecodeDigits(digits)[k] < 256
  {
    FiveBits();
    ConcatOfGroup(Concat(digits, 5), 8);
  }

  function Encode(b: Bytes): string {
    EncodedDigits(b);
    Letters(EncodeDigits(Octets(b)))
  }

  /** Refused exactly for a character outside the alphabet; bits that do not fill a
      byte are dropped. */
  function Decode(s: string): (r: Option<Bytes>)
    ensures r.Some? <==> InAlphabet(s)
  {
    if !InAlphabet(s) then None
    else
      DecodedDigits(Values(s));
      Some(AsBytes(DecodeDigits(Values(s))))
  }

  /** Main result: nothing is lost, for every byte string. */
  lemma RoundTrip(b: Bytes)
    ensures Decode(Encode(b)) == Some(b)
  {
    FiveBits();
    var digits := EncodeDigits(Octets(b));
    EncodedDigits(b);
    DigitsRoundTrip(Octets(b));
    LettersValues(digits);
    assert AsBytes(Octets(b)) == b;
  }

  lemma LettersValues(digits: seq<nat>)
    requires forall k :: 0 <= k < |digits| ==> digits[k] < 32
    ensures InAlphabet(Letters(digits)) && Values(Letters(digits)) == digits
  {
    forall k | 0 <= k < |digits| ensures Digit(Letters(digits)[k]) == Some(digits[k]) {
      DigitLetter(digits[k], 'A');
    }
  }

  lemma ValuesLetters(s: string)
    requires InAlphabet(s)
    ensures Digits(Values(s), 5) && Letters(Values(s)) == s
  {
    FiveBits();
    forall k | 0 <= k < |s| ensures Values(s)[k] < 32 && Letter(Values(s)[k]) == s[k] {
      DigitLetter(0, s[k]);
    }
  }

  /** The bits of `s` that do not fill a byte. */
  function Dropped(s: string): seq<bool>
    requires InAlphabet(s)
  {
    var bits := Concat(Values(s), 5);
    bits[|bits| - Leftover(|bits|, 8)..]
  }

  lemma LettersAre(digits: seq<nat>, s: string)
    requires InAlphabet(s) && forall k :: 0 <= k < |digits| ==> digits[k] < 32
    ensures Letters(digits) == s <==> digits == Values(s)
  {
    LettersValues(digits);
    ValuesLetters(s);
  }

  /** The bytes that are decoded, as bits: all that fill a byte. */
  lemma DecodedBits(s: string)
    requires InAlphabet(s)
    ensures Concat(Octets(Decode(s).value), 8) + Dropped(s) == Concat(Values(s), 5)
  {
    var bits := Concat(Values(s), 5);
    DecodedDigits(Values(s));
    ConcatOfGroup(bits, 8);
    assert Octets(Decode(s).value) == DecodeDigits(Values(s));
  }

  /** Which texts are encodings at all: those with fewer than five bits left over, all
      of them zero. */
  lemma CanonicalExactly(s: string)
    requires InAlphabet(s)
    ensures Encode(Decode(s).value) == s <==> |Dropped(s)| < 5 && Dropped(s) == Zeros(|Dropped(s)|)
  {
    var octets := Octets(Decode(s).value);
    var kept := Concat(octets, 8);
    DecodedBits(s);
    ValuesLetters(s);
    EncodedDigits(Decode(s).value);
    LettersAre(EncodeDigits(octets), s);
    SameDigits(kept, Values(s));
    PaddedIs(kept, Dropped(s), |s|);
  }

  lemma SameDigits(kept: seq<bool>, digits: seq<nat>)
    requires Digits(digits, 5)
    ensures Group(Padded(kept), 5) == digits <==> Padded(kept) == Concat(digits, 5)
  {
    var padded := Padded(kept);
    PaddedFull(kept);
    ConcatOfGroup(padded, 5);
    assert padded[..|padded|] == padded;
    GroupOfConcat(digits, 5, []);
    assert Concat(digits, 5) + [] == Concat(digits, 5);
  }

  lemma {:induction false} LeftoverOfMultiple(k: nat, w: nat)
    requires w > 0
    ensures Leftover(k * w, w) == 0
  {
    if k > 0 {
      assert k * w - w == (k - 1) * w;
      LeftoverOfMultiple(k - 1, w);
      assert k * w >= w;
    }
  }

  lemma PaddedIs(kept: seq<bool>, rest: seq<bool>, k: nat)
    requires |kept + rest| == k * 5
    ensures Padded(kept) == kept + rest <==> |rest| < 5 && rest == Zeros(|rest|)
  {
    LeftoverOfMultiple(k, 5);
    LeftoverSum(|kept|, |rest|, 5);
    PaddedFull(kept);
    var padding := Padded(kept)[|kept|..];
    assert Padded(kept) == kept + padding && padding == Zeros(|padding|);
    assert Padded(kept) == kept + rest ==> padding == rest by {
      assert (kept + rest)[|kept|..] == rest;
    }
    if |rest| < 5 { assert |padding| == |rest|; }
  }

  // ---------------------------------------------------------------- the alphabet and the order of the bits

  /** Table 3 of RFC 4648. */
  const TABLE: string := "ABCDEFGHIJKLMNOPQRSTUVWXYZ234567"

  /** The digits of the table are the digits, each in its place. */
  lemma TableIs(c: char, d: nat)
    ensures Digit(c) == Some(d) <==> d < 32 && TABLE[d] == c
    ensures Digit(c).Some? <==> c in TABLE
  {
    forall e: nat | e < 32 ensures Letter(e) == TABLE[e] {}
    DigitLetter(d, c);
    if Digit(c).Some? { assert TABLE[Digit(c).value] == c; }
    if c in TABLE {
      var e :| 0 <= e < |TABLE| && TABLE[e] == c;
      DigitLetter(e, c);
    }
  }

  /** The number that digits of a base denote, the first being the most significant. */
  function Number(digits: seq<nat>, base: nat): nat {
    if digits == [] then 0 else Number(digits[..|digits| - 1], base) * base + digits[|digits| - 1]
  }

  lemma {:induction false} BitsInOrder(x: seq<bool>, y: seq<bool>)
    ensures FromBits(x + y) == FromBits(x) * Pow2(|y|) + FromBits(y)
    decreases |y|
  {
    if y == [] {
      assert x + y == x;
    } else {
      var z, bit := y[..|y| - 1], if y[|y| - 1] then 1 else 0;
      assert (x + y)[..|x + y| - 1] == x + z;
      assert FromBits(x + y) == 2 * FromBits(x + z) + bit;
      BitsInOrder(x, z);
      OneBitMore(FromBits(x), Pow2(|z|), FromBits(z), bit);
    }
  }

  lemma OneBitMore(x: nat, unit: nat, z: nat, bit: nat)
    ensures 2 * (x * unit + z) + bit == x * (2 * unit) + (2 * z + bit)
  {
  }

  lemma {:induction false} ConcatOneMore(digits: seq<nat>, d: nat, w: nat)
    ensures Concat(digits + [d], w) == Concat(digits, w) + ToBits(d, w)
    decreases |digits|
  {
    if digits == [] {
      assert digits + [d] == [d] && [d][1..] == [];
    } else {
      assert (digits + [d])[1..] == digits[1..] + [d];
      ConcatOneMore(digits[1..], d, w);
    }
  }

  lemma {:induction false} ConcatIsNumber(digits: seq<nat>, w: nat)
    requires Digits(digits, w)
    ensures FromBits(Concat(digits, w)) == Number(digits, Pow2(w))
  {
    if digits != [] {
      var less, d := digits[..|digits| - 1], digits[|digits| - 1];
      assert digits == less + [d];
      ConcatIsNumber(less, w);
      ConcatOneMore(less, d, w);
      BitsInOrder(Concat(less, w), ToBits(d, w));
      NumberOfBits(d, w);
    }
  }

  lemma {:induction false} ZerosCountNothing(n: nat)
    ensures FromBits(Zeros(n)) == 0
  {
    if n > 0 {
      assert Zeros(n)[..n - 1] == Zeros(n - 1);
      ZerosCountNothing(n - 1);
    }
  }

  /** An encoding is the number the bytes denote, with as few zero bits behind it as fill
      its last digit, in the digits of the table: RFC 4648, section 6. */
  lemma EncodeIsNumber(b: Bytes)
    ensures var s := Encode(b);
            && InAlphabet(s) && 8 * |b| <= 5 * |s| < 8 * |b| + 5
            && Number(Values(s), 32) == Number(Octets(b), 256) * Pow2(5 * |s| - 8 * |b|)
  {
    var n := EncodedBits(b);
    EncodedDigits(b);
    LettersValues(EncodeDigits(Octets(b)));
    assert Digits(Octets(b), 8) by { FiveBits(); }
    SameNumber(EncodeDigits(Octets(b)), Octets(b), n);
  }

  lemma SameNumber(digits: seq<nat>, octets: seq<nat>, n: nat)
    requires Digits(digits, 5) && Digits(octets, 8) && Concat(digits, 5) == Concat(octets, 8) + Zeros(n)
    ensures Number(digits, 32) == Number(octets, 256) * Pow2(n)
  {
    FiveBits();
    ZerosCountNothing(n);
    BitsInOrder(Concat(octets, 8), Zeros(n));
    ConcatIsNumber(octets, 8);
    ConcatIsNumber(digits, 5);
  }

  /** The bits of the encoding: those of the bytes, and `n` zeros. */
  lemma EncodedBits(b: Bytes) returns (n: nat)
    ensures n < 5 && 5 * |EncodeDigits(Octets(b))| == 8 * |b| + n
    ensures Digits(EncodeDigits(Octets(b)), 5)
    ensures Concat(EncodeDigits(Octets(b)), 5) == Concat(Octets(b), 8) + Zeros(n)
  {
    var bits := Concat(Octets(b), 8);
    PaddedFull(bits);
    ConcatOfGroup(Padded(bits), 5);
    n := |Padded(bits)| - |bits|;
  }

  /** Decoding any text of the alphabet gives the bytes of its number, rounded down by
      the bits that do not fill a byte. */
  lemma DecodeIsNumber(s: string)
    requires InAlphabet(s)
    ensures var b := Decode(s).value;
            && 0 <= 5 * |s| - 8 * |b| < 8
            && var n, unit := Number(Octets(b), 256), Pow2(5 * |s| - 8 * |b|);
               n * unit <= Number(Values(s), 32) < n * unit + unit
  {
    FiveBits();
    var octets, rest := Octets(Decode(s).value), Dropped(s);
    DecodedCounts(s);
    ValuesLetters(s);
    DecodedBits(s);
    BitsInOrder(Concat(octets, 8), rest);
    BitsOfNumber(rest);
    ConcatIsNumber(octets, 8);
    ConcatIsNumber(Values(s), 5);
  }

  lemma DecodedCounts(s: string)
    requires InAlphabet(s)
    ensures 5 * |s| == 8 * |Decode(s).value| + |Dropped(s)| && |Dropped(s)| < 8
  {
    DecodedBits(s);
  }
}
