/**
 * Base64 VLQ decoding with JavaScript's 32-bit operators (sourcemap/vlq.ts).
 *
 * `value` is a signed 32-bit integer, `<<` masks its shift count to five bits, `|`
 * works on the two's-complement bit patterns and `>>>` reads the pattern unsigned.
 */
module Vlq {
  import opened Prelude

  const TWO31: nat := 0x8000_0000
  const TWO32: nat := 0x1_0000_0000

  // ---------------------------------------------------------------- 32-bit operators

  function ToUint32(x: int): (u: nat)
    ensures u < TWO32
  {
    x % TWO32
  }

  function ToInt32(x: int): int {
    var u := ToUint32(x);
    if u < TWO31 then u else u - TWO32
  }

  function Pow2(n: nat): (p: nat)
    ensures p >= 1
  {
    if n == 0 then 1 else 2 * Pow2(n - 1)
  }

  /** Bitwise or of two binary numerals. */
  function BitOr(a: nat, b: nat): nat
    decreases a + b
  {
    if a == 0 && b == 0 then 0
    else 2 * BitOr(a / 2, b / 2) + (if a % 2 == 1 || b % 2 == 1 then 1 else 0)
  }

  /** `x << s` */
  function ShiftLeft(x: int, s: nat): int { ToInt32(x * Pow2(s % 32)) }

  /** `x | y` */
  function Or(x: int, y: int): int { ToInt32(BitOr(ToUint32(x), ToUint32(y))) }

  /** `-magnitude` or `magnitude`, with magnitude `x >>> 1` and the sign in `x & 1`. */
  function Signed(x: int): int {
    var u := ToUint32(x);
    if u % 2 == 1 then -(u / 2) else u / 2
  }

  lemma {:induction false} BitOrZero(a: nat)
    ensures BitOr(a, 0) == a && BitOr(0, a) == a
  {
    if a != 0 {
      BitOrZero(a / 2);
    }
  }

  /** Or-ing in bits above every set bit is addition. */
  lemma {:induction false} BitOrDisjoint(a: nat, b: nat, k: nat)
    requires a < Pow2(k)
    ensures BitOr(a, b * Pow2(k)) == a + b * Pow2(k)
  {
    if k == 0 {
      BitOrZero(b);
    } else if a == 0 {
      BitOrZero(b * Pow2(k));
    } else {
      var half := b * Pow2(k - 1);
      assert b * Pow2(k) == 2 * half;
      BitOrDisjoint(a / 2, b, k - 1);
    }
  }

  lemma {:induction false} Pow2Add(a: nat, b: nat)
    ensures Pow2(a + b) == Pow2(a) * Pow2(b)
  {
    if a != 0 {
      Pow2Add(a - 1, b);
      assert Pow2(a) * Pow2(b) == 2 * (Pow2(a - 1) * Pow2(b));
    }
  }

  // ---------------------------------------------------------------- decoding

  datatype VlqError = InvalidChar(ch: char, at: nat) | Truncated

  /** The alphabet of section 4 of RFC 4648: the character of each six-bit digit. */
  function DigitChar(d: nat): char
    requires d < 64
  {
    if d < 26 then 'A' + d as char
    else if d < 52 then 'a' + (d - 26) as char
    else if d < 62 then '0' + (d - 52) as char
    else if d == 62 then '+'
    else '/'
  }

  /** The digit a character stands for, None when it is not in the alphabet. */
  function CharValue(ch: char): (d: Option<nat>)
    ensures d.Some? ==> d.value < 64 && DigitChar(d.value) == ch
    ensures d.None? ==> forall i: nat :: i < 64 ==> DigitChar(i) != ch
  {
    if 'A' <= ch <= 'Z' then Some((ch - 'A') as nat)
    else if 'a' <= ch <= 'z' then Some((ch - 'a') as nat + 26)
    else if '0' <= ch <= '9' then Some((ch - '0') as nat + 52)
    else if ch == '+' then Some(62)
    else if ch == '/' then Some(63)
    else None
  }

  predicate IsDigitChar(ch: char) { CharValue(ch).Some? }

  function DecodeFrom(s: string, i: nat, value: int, shift: nat, out: seq<int>): Result<seq<int>, VlqError>
    requires i <= |s|
    decreases |s| - i
  {
    if i == |s| then
      if shift != 0 then Err(Truncated) else Ok(out)
    else
      var digit := CharValue(s[i]);
      if digit.None? then Err(InvalidChar(s[i], i))
      else
        var next := Or(value, ShiftLeft(digit.value % 32, shift));
        if digit.value >= 32 then DecodeFrom(s, i + 1, next, shift + 5, out)
        else DecodeFrom(s, i + 1, 0, 0, out + [Signed(next)])
  }

  function Decode(s: string): Result<seq<int>, VlqError> { DecodeFrom(s, 0, 0, 0, []) }

  method DecodeVlqList(s: string) returns (r: Result<seq<int>, VlqError>)
    ensures r == Decode(s)
  {
    var out: seq<int> := [];
    var value := 0;
    var shift: nat := 0;
    for i := 0 to |s|
      invariant DecodeFrom(s, i, value, shift, out) == Decode(s)
    {
      var digit := CharValue(s[i]);
      if digit.None? {
        return Err(InvalidChar(s[i], i));
      }
      value := Or(value, ShiftLeft(digit.value % 32, shift));
      if digit.value >= 32 {
        shift := shift + 5;
        continue;
      }
      out := out + [Signed(value)];
      value := 0;
      shift := 0;
    }
    if shift != 0 {
      return Err(Truncated);
    }
    return Ok(out);
  }

  // ---------------------------------------------------------------- the printer

  /** Little-endian groups of five bits, the continuation bit on all but the last. */
  function EncodeUnsigned(x: nat): (s: string)
    ensures |s| >= 1
    ensures forall i :: 0 <= i < |s| ==> IsDigitChar(s[i])
  {
    if x < 32 then [DigitChar(x)] else [DigitChar(32 + x % 32)] + EncodeUnsigned(x / 32)
  }

  function ZigZag(n: int): nat { if n < 0 then -2 * n + 1 else 2 * n }

  function Encode(ns: seq<int>): string {
    if ns == [] then "" else EncodeUnsigned(ZigZag(ns[0])) + Encode(ns[1..])
  }

  predicate Fits(n: int) { -(TWO31 as int) < n < TWO31 }

  // ---------------------------------------------------------------- decoding what was printed

  /** What the accumulator holds once the digits of `x` have been read, wrap-around included. */
  ghost function Accumulate(x: nat, value: int, shift: nat): int {
    if x < 32 then Or(value, ShiftLeft(x, shift))
    else Accumulate(x / 32, Or(value, ShiftLeft(x % 32, shift)), shift + 5)
  }

  /** What one printed integer decodes to. */
  ghost function Wrapped(n: int): int { Signed(Accumulate(ZigZag(n), 0, 0)) }

  ghost function WrappedAll(ns: seq<int>): (ws: seq<int>)
    ensures |ws| == |ns|
    ensures forall i :: 0 <= i < |ns| ==> ws[i] == Wrapped(ns[i])
  {
    seq(|ns|, i requires 0 <= i < |ns| => Wrapped(ns[i]))
  }

  lemma CharValueOf(d: nat)
    requires d < 64
    ensures CharValue(DigitChar(d)) == Some(d)
  {}

  /** The printed text `t` stands in `s` from position `i` on. */
  ghost predicate At(s: string, i: nat, t: string) {
    i + |t| <= |s| && s[i..i + |t|] == t
  }

  lemma AtCons(s: string, i: nat, c: char, rest: string)
    requires At(s, i, [c] + rest)
    ensures i < |s| && s[i] == c && At(s, i + 1, rest)
  {
    var t := [c] + rest;
    assert s[i] == s[i..i + |t|][0];
    assert s[i + 1..i + |t|] == s[i..i + |t|][1..];
    assert t[1..] == rest;
  }

  /** A digit with the continuation bit. */
  lemma DecodeMore(s: string, i: nat, p: nat, value: int, shift: nat, out: seq<int>)
    requires i < |s| && p < 32 && s[i] == DigitChar(32 + p)
    ensures DecodeFrom(s, i, value, shift, out) == DecodeFrom(s, i + 1, Or(value, ShiftLeft(p, shift)), shift + 5, out)
  {
    CharValueOf(32 + p);
    assert (32 + p) % 32 == p;
  }

  /** A digit without it. */
  lemma DecodeLast(s: string, i: nat, p: nat, value: int, shift: nat, out: seq<int>)
    requires i < |s| && p < 32 && s[i] == DigitChar(p)
    ensures DecodeFrom(s, i, value, shift, out)
      == DecodeFrom(s, i + 1, 0, 0, out + [Signed(Or(value, ShiftLeft(p, shift)))])
  {
    CharValueOf(p);
    assert p % 32 == p;
  }

  // The same group by group: the five-bit groups of a number, their text, and what they accumulate to.

  ghost predicate AreGroups(gs: seq<nat>) { gs != [] && forall k :: 0 <= k < |gs| ==> gs[k] < 32 }

  ghost function Groups(x: nat): (gs: seq<nat>)
    ensures AreGroups(gs)
  {
    if x < 32 then [x] else [x % 32] + Groups(x / 32)
  }

  ghost function TextOf(gs: seq<nat>): (t: string)
    requires AreGroups(gs)
    ensures |t| == |gs|
  {
    if |gs| == 1 then [DigitChar(gs[0])] else [DigitChar(32 + gs[0])] + TextOf(gs[1..])
  }

  ghost function Gathered(gs: seq<nat>, value: int, shift: nat): int
    requires gs != []
  {
    var next := Or(value, ShiftLeft(gs[0], shift));
    if |gs| == 1 then next else Gathered(gs[1..], next, shift + 5)
  }

  lemma {:induction false} GroupsOf(x: nat, value: int, shift: nat)
    ensures EncodeUnsigned(x) == TextOf(Groups(x)) && Accumulate(x, value, shift) == Gathered(Groups(x), value, shift)
    decreases x
  {
    if x >= 32 {
      var gs := Groups(x);
      assert gs[1..] == Groups(x / 32);
      GroupsOf(x / 32, Or(value, ShiftLeft(x % 32, shift)), shift + 5);
    }
  }

  /** Whatever decoding gives behind the text of some groups, it gives before it too. */
  lemma {:induction false} DecodeGroups(s: string, i: nat, gs: seq<nat>, value: int, shift: nat, out: seq<int>,
    j: nat, acc: int)
    requires AreGroups(gs) && At(s, i, TextOf(gs)) && j == i + |gs| && acc == Gathered(gs, value, shift)
    ensures DecodeFrom(s, i, value, shift, out) == DecodeFrom(s, j, 0, 0, out + [Signed(acc)])
    decreases |gs|
  {
    var g := gs[0];
    if |gs| == 1 {
      AtCons(s, i, DigitChar(g), []);
      DecodeLast(s, i, g, value, shift, out);
    } else {
      var rest, next := gs[1..], Or(value, ShiftLeft(g, shift));
      AtCons(s, i, DigitChar(32 + g), TextOf(rest));
      DecodeGroups(s, i + 1, rest, next, shift + 5, out, j, acc);
      Compose(s, i, g, value, shift, out, j, out + [Signed(acc)]);
    }
  }

  lemma Compose(s: string, i: nat, p: nat, value: int, shift: nat, out: seq<int>, j: nat, out': seq<int>)
    requires i < |s| && p < 32 && s[i] == DigitChar(32 + p) && j <= |s|
    requires DecodeFrom(s, i + 1, Or(value, ShiftLeft(p, shift)), shift + 5, out) == DecodeFrom(s, j, 0, 0, out')
    ensures DecodeFrom(s, i, value, shift, out) == DecodeFrom(s, j, 0, 0, out')
  {
    DecodeMore(s, i, p, value, shift, out);
  }

  lemma DecodeUnsigned(s: string, i: nat, x: nat, value: int, shift: nat, out: seq<int>)
    requires At(s, i, EncodeUnsigned(x))
    ensures DecodeFrom(s, i, value, shift, out)
         == DecodeFrom(s, i + |EncodeUnsigned(x)|, 0, 0, out + [Signed(Accumulate(x, value, shift))])
  {
    GroupsOf(x, value, shift);
    DecodeGroups(s, i, Groups(x), value, shift, out, i + |Groups(x)|, Accumulate(x, value, shift));
  }

  lemma WrappedAllCons(n: int, ns: seq<int>)
    ensures WrappedAll([n] + ns) == [Wrapped(n)] + WrappedAll(ns)
  {}

  lemma WrappedAllSplit(ns: seq<int>, out: seq<int>)
    requires ns != []
    ensures out + [Wrapped(ns[0])] + WrappedAll(ns[1..]) == out + WrappedAll(ns)
  {
    WrappedAllCons(ns[0], ns[1..]);
    assert ns == [ns[0]] + ns[1..];
  }

  lemma AtFront(s: string, i: nat, a: string, b: string)
    requires i <= |s| && s[i..] == a + b
    ensures At(s, i, a) && s[i + |a|..] == b
  {
    assert s[i..i + |a|] == s[i..][..|a|];
    assert s[i + |a|..] == s[i..][|a|..];
  }

  /** One printed integer in front of others. */
  lemma DecodeFirst(s: string, i: nat, n: int, rest: string, out: seq<int>) returns (j: nat)
    requires i <= |s| && s[i..] == EncodeUnsigned(ZigZag(n)) + rest
    ensures j <= |s| && s[j..] == rest
    ensures DecodeFrom(s, i, 0, 0, out) == DecodeFrom(s, j, 0, 0, out + [Wrapped(n)])
  {
    j := i + |EncodeUnsigned(ZigZag(n))|;
    AtFront(s, i, EncodeUnsigned(ZigZag(n)), rest);
    DecodeUnsigned(s, i, ZigZag(n), 0, 0, out);
  }

  lemma {:induction false} DecodeEncodedFrom(s: string, i: nat, ns: seq<int>, out: seq<int>, all: seq<int>)
    requires i <= |s| && s[i..] == Encode(ns) && all == out + WrappedAll(ns)
    ensures DecodeFrom(s, i, 0, 0, out) == Ok(all)
    decreases |ns|
  {
    if ns == [] {
      assert i == |s| && all == out;
    } else {
      var j := DecodeFirst(s, i, ns[0], Encode(ns[1..]), out);
      WrappedAllSplit(ns, out);
      DecodeEncodedFrom(s, j, ns[1..], out + [Wrapped(ns[0])], all);
    }
  }

  /** Whatever was printed decodes without error, to one value for each printed integer. */
  lemma DecodeEncoded(ns: seq<int>)
    ensures Decode(Encode(ns)) == Ok(WrappedAll(ns))
  {
    assert Encode(ns)[0..] == Encode(ns) && [] + WrappedAll(ns) == WrappedAll(ns);
    DecodeEncodedFrom(Encode(ns), 0, ns, [], WrappedAll(ns));
  }

  lemma Pow2Values()
    ensures Pow2(5) == 32 && Pow2(30) == 0x4000_0000 && Pow2(32) == TWO32
  {
    assert Pow2(2) == 4;
    Pow2Add(2, 3);
    Pow2Add(5, 5);
    Pow2Add(10, 5);
    Pow2Add(15, 15);
    Pow2Add(30, 2);
  }

  lemma {:induction false} Pow2Monotonic(a: nat, b: nat)
    requires a <= b
    ensures Pow2(a) <= Pow2(b)
  {
    if a < b {
      Pow2Monotonic(a, b - 1);
    }
  }

  lemma Uint32OfInt32(u: nat)
    requires u < TWO32
    ensures ToUint32(ToInt32(u)) == u
  {}

  lemma ShiftBelow(shift: nat)
    requires Pow2(shift) < TWO32
    ensures shift < 32
  {
    if shift >= 32 {
      Pow2Values();
      Pow2Monotonic(32, shift);
    }
  }

  lemma ShiftIsWeight(p: nat, shift: nat, w: nat)
    requires shift < 32 && w == Pow2(shift)
    ensures ShiftLeft(p, shift) == ToInt32(p * w)
  {
    assert shift % 32 == shift;
  }

  lemma OrOfInt32(a: nat, b: nat)
    requires a < TWO32 && b < TWO32
    ensures Or(ToInt32(a), ToInt32(b)) == ToInt32(BitOr(a, b))
  {
    Uint32OfInt32(a);
    Uint32OfInt32(b);
  }

  /** One more group below 2^32 adds its weight. */
  lemma AddGroup(acc: nat, p: nat, shift: nat, w: nat)
    requires w == Pow2(shift) && acc < w < TWO32 && acc + p * w < TWO32
    ensures Or(ToInt32(acc), ShiftLeft(p, shift)) == ToInt32(acc + p * w)
  {
    ShiftBelow(shift);
    ShiftIsWeight(p, shift, w);
    MulMonotonic(0, p, w);
    OrOfInt32(acc, p * w);
    BitOrDisjoint(acc, p, shift);
  }

  /** The arithmetic of splitting off the lowest group. */
  lemma SplitGroup(x: nat, w: nat)
    requires w >= 1
    ensures x * w == (x % 32) * w + (x / 32) * (32 * w)
    ensures 0 <= (x % 32) * w <= 31 * w
    ensures (x / 32) * (32 * w) >= 0
    ensures x > 0 ==> x * w >= w
  {
    var p, q := x % 32, x / 32;
    assert x == p + 32 * q;
    Distribute(p, q, w);
    MulMonotonic(p, 31, w);
    MulMonotonic(0, q, 32 * w);
    if x > 0 {
      MulMonotonic(1, x, w);
    }
  }

  lemma Distribute(p: nat, q: nat, w: nat)
    ensures (p + 32 * q) * w == p * w + q * (32 * w)
  {}

  lemma MulMonotonic(a: nat, b: nat, w: nat)
    requires a <= b
    ensures 0 <= a * w <= b * w
  {
    assert b * w == a * w + (b - a) * w;
  }

  lemma {:induction false} AccumulateFits(x: nat, acc: nat, shift: nat, w: nat)
    requires w == Pow2(shift) && acc < w && acc + x * w < TWO32
    requires shift == 0 || x > 0
    ensures Accumulate(x, ToInt32(acc), shift) == ToInt32(acc + x * w)
    decreases x
  {
    SplitGroup(x, w);
    if x < 32 {
      AddGroup(acc, x, shift, w);
    } else {
      var p, q := x % 32, x / 32;
      AddGroup(acc, p, shift, w);
      assert Pow2(shift + 5) == 32 * w by {
        Pow2Add(5, shift);
      }
      AccumulateFits(q, acc + p * w, shift + 5, 32 * w);
    }
  }

  lemma SignedOfZigZag(n: int)
    requires Fits(n)
    ensures ZigZag(n) < TWO32 && Signed(ToInt32(ZigZag(n))) == n
  {
    Uint32OfInt32(ZigZag(n));
  }

  lemma SignedFits(x: int)
    ensures Fits(Signed(x))
  {}

  /** A printed integer comes back exactly when its magnitude is below 2^31. */
  lemma WrappedIff(n: int)
    ensures Wrapped(n) == n <==> Fits(n)
    ensures Fits(Wrapped(n))
  {
    var x := Accumulate(ZigZag(n), 0, 0);
    SignedFits(x);
    if Fits(n) {
      SignedOfZigZag(n);
      AccumulateFits(ZigZag(n), 0, 0, 1);
      assert x == ToInt32(ZigZag(n)) by {
        assert ToInt32(0) == 0;
      }
    }
  }

  /** Decoding inverts printing exactly on the lists whose members are all below 2^31 in magnitude. */
  lemma VlqRoundTrip(ns: seq<int>)
    ensures Decode(Encode(ns)) == Ok(ns) <==> forall i :: 0 <= i < |ns| ==> Fits(ns[i])
  {
    DecodeEncoded(ns);
    forall i | 0 <= i < |ns|
      ensures WrappedAll(ns)[i] == ns[i] <==> Fits(ns[i])
    {
      WrappedIff(ns[i]);
    }
    assert WrappedAll(ns) == ns <==> forall i :: 0 <= i < |ns| ==> WrappedAll(ns)[i] == ns[i];
  }

  // ---------------------------------------------------------------- which texts are accepted

  /** The text does not stop inside a group. */
  predicate Terminated(s: string) {
    s == "" || (IsDigitChar(s[|s| - 1]) && CharValue(s[|s| - 1]).value < 32)
  }

  /** From position i on, every character is a digit. */
  predicate DigitsFrom(s: string, i: nat) {
    forall j :: i <= j < |s| ==> IsDigitChar(s[j])
  }

  lemma {:induction false} DecodeFromAccepts(s: string, i: nat, value: int, shift: nat, out: seq<int>)
    requires i <= |s|
    requires i == |s| ==> (shift == 0 <==> Terminated(s))
    ensures DecodeFrom(s, i, value, shift, out).Ok? <==> DigitsFrom(s, i) && Terminated(s)
    ensures DecodeFrom(s, i, value, shift, out).Ok? ==>
      |DecodeFrom(s, i, value, shift, out).value| >= |out| + (if i < |s| then 1 else 0)
    decreases |s| - i
  {
    if i < |s| && IsDigitChar(s[i]) {
      var digit := CharValue(s[i]).value;
      var next := Or(value, ShiftLeft(digit % 32, shift));
      if digit >= 32 {
        DecodeFromAccepts(s, i + 1, next, shift + 5, out);
      } else {
        DecodeFromAccepts(s, i + 1, 0, 0, out + [Signed(next)]);
      }
    }
  }

  /**
   * Decoding succeeds exactly on the texts made of digits that do not stop inside a group,
   * and a non-empty one yields a value.
   */
  lemma DecodeAccepts(s: string)
    ensures Decode(s).Ok? <==> DigitsFrom(s, 0) && Terminated(s)
    ensures Decode(s).Ok? && s != "" ==> |Decode(s).value| >= 1
  {
    DecodeFromAccepts(s, 0, 0, 0, []);
  }

  lemma {:induction false} DecodeFromFits(s: string, i: nat, value: int, shift: nat, out: seq<int>)
    requires i <= |s| && forall k :: 0 <= k < |out| ==> Fits(out[k])
    ensures
      var r := DecodeFrom(s, i, value, shift, out);
      r.Ok? ==> forall k :: 0 <= k < |r.value| ==> Fits(r.value[k])
    decreases |s| - i
  {
    if i < |s| && CharValue(s[i]).Some? {
      var digit := CharValue(s[i]).value;
      var next := Or(value, ShiftLeft(digit % 32, shift));
      if digit >= 32 {
        DecodeFromFits(s, i + 1, next, shift + 5, out);
      } else {
        SignedFits(next);
        DecodeFromFits(s, i + 1, 0, 0, out + [Signed(next)]);
      }
    }
  }

  /** Everything that decodes is below the bound, so whatever was decoded can be printed and decoded again. */
  lemma DecodedFits(s: string)
    requires Decode(s).Ok?
    ensures forall k :: 0 <= k < |Decode(s).value| ==> Fits(Decode(s).value[k])
  {
    DecodeFromFits(s, 0, 0, 0, []);
  }

  /** A printed list is made of digits, and only the empty list prints as nothing. */
  lemma {:induction false} EncodeChars(ns: seq<int>)
    ensures forall i :: 0 <= i < |Encode(ns)| ==> IsDigitChar(Encode(ns)[i])
    ensures Encode(ns) == "" <==> ns == []
  {
    if ns != [] {
      EncodeChars(ns[1..]);
    }
  }
}
