/** JavaScript's `split`, `join` and decimal numerals, as far as the ids and mappings use them. */
module Text {
  import opened Prelude

  /** `s.split(c)`: always at least one piece. */
  function Split(s: string, c: char): (parts: seq<string>)
    ensures |parts| >= 1
  {
    if s == "" then [""]
    else
      var rest := Split(s[1..], c);
      if s[0] == c then [""] + rest
      else [[s[0]] + rest[0]] + rest[1..]
  }

  /** `parts.join(c)`. */
  function Join(parts: seq<string>, c: char): string {
    if parts == [] then ""
    else if |parts| == 1 then parts[0]
    else parts[0] + [c] + Join(parts[1..], c)
  }

  lemma {:induction false} SplitNone(s: string, c: char)
    requires c !in s
    ensures Split(s, c) == [s]
  {
    if s != "" {
      assert s == [s[0]] + s[1..];
      SplitNone(s[1..], c);
    }
  }

  /** A separator splits the text into the pieces before it and the pieces after it. */
  lemma {:induction false} SplitAt(a: string, b: string, c: char)
    ensures Split(a + [c] + b, c) == Split(a, c) + Split(b, c)
  {
    if a == "" {
      assert (a + [c] + b)[1..] == b;
    } else {
      assert (a + [c] + b)[1..] == a[1..] + [c] + b;
      SplitAt(a[1..], b, c);
    }
  }

  lemma JoinCons(first: string, rest: seq<string>, c: char)
    requires rest != []
    ensures Join([first] + rest, c) == first + [c] + Join(rest, c)
  {
    assert ([first] + rest)[1..] == rest;
  }

  /** A character put in front of the first piece. */
  lemma JoinGrown(ch: char, rest: seq<string>, c: char)
    requires rest != []
    ensures Join([[ch] + rest[0]] + rest[1..], c) == [ch] + Join(rest, c)
  {
    if |rest| > 1 {
      JoinCons([ch] + rest[0], rest[1..], c);
      assert [ch] + rest[0] + [c] + Join(rest[1..], c) == [ch] + (rest[0] + [c] + Join(rest[1..], c));
    }
  }

  /** Joining undoes splitting, and no piece holds the separator. */
  lemma {:induction false} JoinSplit(s: string, c: char)
    ensures Join(Split(s, c), c) == s
    ensures forall i :: 0 <= i < |Split(s, c)| ==> c !in Split(s, c)[i]
  {
    if s != "" {
      JoinSplit(s[1..], c);
      assert s == [s[0]] + s[1..];
      if s[0] == c {
        JoinCons("", Split(s[1..], c), c);
      } else {
        JoinGrown(s[0], Split(s[1..], c), c);
      }
    }
  }

  /** Splitting undoes joining, unless the separator occurs in a piece. */
  lemma {:induction false} SplitJoin(parts: seq<string>, c: char)
    requires parts != []
    requires forall i :: 0 <= i < |parts| ==> c !in parts[i]
    ensures Split(Join(parts, c), c) == parts
  {
    SplitNone(parts[0], c);
    if |parts| == 1 {
      assert parts == [parts[0]];
    } else {
      SplitJoin(parts[1..], c);
      SplitAt(parts[0], Join(parts[1..], c), c);
      assert parts == [parts[0]] + parts[1..];
    }
  }

  /** A joined text splits into exactly as many pieces as were joined plus the separators inside them. */
  lemma {:induction false} SplitJoinCount(parts: seq<string>, c: char)
    requires parts != []
    ensures |Split(Join(parts, c), c)| >= |parts|
    ensures (exists i :: 0 <= i < |parts| && c in parts[i]) ==> |Split(Join(parts, c), c)| > |parts|
  {
    if c in parts[0] {
      SplitMany(parts[0], c);
    }
    if |parts| > 1 {
      SplitJoinCount(parts[1..], c);
      SplitAt(parts[0], Join(parts[1..], c), c);
      if i :| 0 <= i < |parts| && c in parts[i] && i > 0 {
        assert c in parts[1..][i - 1];
      }
    }
  }

  lemma {:induction false} SplitMany(s: string, c: char)
    requires c in s
    ensures |Split(s, c)| > 1
  {
    if s[0] != c {
      assert s == [s[0]] + s[1..];
      SplitMany(s[1..], c);
    }
  }

  predicate IsDigit(c: char) { '0' <= c <= '9' }

  /** `/^\d+$/` on a text with no line break in it. */
  predicate IsNumeric(s: string) {
    |s| > 0 && forall i :: 0 <= i < |s| ==> IsDigit(s[i])
  }

  /** `String(n)` for a non-negative integer. */
  function Decimal(n: nat): (s: string)
    ensures IsNumeric(s)
  {
    var digit := ['0' + (n % 10) as char];
    if n < 10 then digit else Decimal(n / 10) + digit
  }

  /** `Number.parseInt(s, 10)` on a string of digits. */
  function ParseDecimal(s: string): nat
    requires IsNumeric(s)
  {
    var last := (s[|s| - 1] - '0') as nat;
    if |s| == 1 then last else 10 * ParseDecimal(s[..|s| - 1]) + last
  }

  lemma {:induction false} DecimalRoundTrip(n: nat)
    ensures ParseDecimal(Decimal(n)) == n
  {
    var s := Decimal(n);
    if n >= 10 {
      DecimalRoundTrip(n / 10);
      assert s[..|s| - 1] == Decimal(n / 10);
    }
  }

  predicate AllZeros(s: string) { forall i :: 0 <= i < |s| ==> s[i] == '0' }

  /** The decimal form of `n`, after any number of zeros. */
  ghost predicate Numeral(s: string, n: nat) {
    exists zeros: nat :: zeros <= |s| && AllZeros(s[..zeros]) && s[zeros..] == Decimal(n)
  }

  lemma {:induction false} ZeroInFront(s: string)
    requires IsNumeric(s)
    ensures IsNumeric("0" + s) && ParseDecimal("0" + s) == ParseDecimal(s)
    decreases |s|
  {
    var t := "0" + s;
    assert forall i :: 0 < i < |t| ==> t[i] == s[i - 1];
    if |s| == 1 {
      assert t[..1] == "0";
    } else {
      ZeroInFront(s[..|s| - 1]);
      assert t[..|t| - 1] == "0" + s[..|s| - 1];
    }
  }

  lemma {:induction false} ZerosInFront(zeros: string, s: string)
    requires IsNumeric(s) && AllZeros(zeros)
    ensures IsNumeric(zeros + s) && ParseDecimal(zeros + s) == ParseDecimal(s)
    decreases |zeros|
  {
    if zeros == "" {
      assert zeros + s == s;
    } else {
      ZerosInFront(zeros[1..], s);
      ZeroInFront(zeros[1..] + s);
      assert zeros + s == "0" + (zeros[1..] + s);
    }
  }

  lemma DigitIs(d: char)
    requires IsDigit(d)
    ensures Decimal((d - '0') as nat) == [d]
  {}

  lemma DecimalSnoc(n: nat, d: char)
    requires IsDigit(d) && n > 0
    ensures Decimal(10 * n + (d - '0') as nat) == Decimal(n) + [d]
  {
    var k := 10 * n + (d - '0') as nat;
    assert k / 10 == n && k % 10 == (d - '0') as nat;
  }

  /** One digit more. */
  lemma NumeralSnoc(s: string, n: nat, d: char)
    requires Numeral(s, n) && IsDigit(d)
    ensures Numeral(s + [d], 10 * n + (d - '0') as nat)
  {
    var zeros: nat :| zeros <= |s| && AllZeros(s[..zeros]) && s[zeros..] == Decimal(n);
    var t := s + [d];
    if n == 0 {
      DigitIs(d);
      ZeroAtTheEnd(s, zeros);
      assert t[..|s|] == s && t[|s|..] == [d];
    } else {
      DecimalSnoc(n, d);
      assert t[zeros..] == s[zeros..] + [d] && t[..zeros] == s[..zeros];
    }
  }

  lemma ZeroAtTheEnd(s: string, zeros: nat)
    requires zeros <= |s| && AllZeros(s[..zeros]) && s[zeros..] == Decimal(0)
    ensures AllZeros(s)
  {
    assert s == s[..zeros] + s[zeros..];
  }

  lemma {:induction false} ParsedIsNumeral(s: string)
    requires IsNumeric(s)
    ensures Numeral(s, ParseDecimal(s))
  {
    var front, last := s[..|s| - 1], s[|s| - 1];
    if |s| == 1 {
      assert s[..0] == "" && s[0..] == [last] == Decimal((last - '0') as nat);
    } else {
      ParsedIsNumeral(front);
      NumeralSnoc(front, ParseDecimal(front), last);
      assert s == front + [last];
    }
  }

  /** A text of digits is parsed to the number whose decimal form it is, leading zeros aside. */
  lemma NumeralIff(s: string, n: nat)
    ensures IsNumeric(s) && ParseDecimal(s) == n <==> Numeral(s, n)
  {
    if IsNumeric(s) {
      ParsedIsNumeral(s);
    }
    if Numeral(s, n) {
      NumeralIsParsed(s, n);
    }
  }

  lemma NumeralIsParsed(s: string, n: nat)
    requires Numeral(s, n)
    ensures IsNumeric(s) && ParseDecimal(s) == n
  {
    var zeros: nat :| zeros <= |s| && AllZeros(s[..zeros]) && s[zeros..] == Decimal(n);
    assert s == s[..zeros] + s[zeros..];
    ZerosInFront(s[..zeros], s[zeros..]);
    DecimalRoundTrip(n);
  }
}
