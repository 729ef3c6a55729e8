/**
 Byte text and its canonical spellings: lines and fields, decimal numbers without leading
 zeros, and lower-case hexadecimal. A byte is a character with that code.
 */
module Text {
  import opened Words

  type Byte = b: int | 0 <= b < 256

  // Splitting and joining ------------------------------------------------------------------------

  predicate Lacks(s: string, c: char) { c !in s }

  /** The pieces of `s` between occurrences of `c`. */
  function Split(s: string, c: char): (parts: seq<string>)
    ensures |parts| > 0
    decreases |s|
  {
    var i := IndexOf(s, c);
    if i == |s| then [s] else [s[..i]] + Split(s[i + 1..], c)
  }

  /** The first place of `c`, or the length when it does not occur. */
  function IndexOf(s: string, c: char): (i: nat)
    ensures i <= |s| && (forall k :: 0 <= k < i ==> s[k] != c) && (i < |s| ==> s[i] == c)
  {
    if s == "" || s[0] == c then 0 else IndexOf(s[1..], c) + 1
  }

  function Join(parts: seq<string>, c: char): string
    requires |parts| > 0
  {
    if |parts| == 1 then parts[0] else parts[0] + [c] + Join(parts[1..], c)
  }

  lemma {:induction false} IndexIsFirst(a: string, c: char, b: string)
    requires Lacks(a, c)
    ensures IndexOf(a + [c] + b, c) == |a|
    ensures IndexOf(a, c) == |a|
  {
    var s := a + [c] + b;
    assert s[|a|] == c && forall k :: 0 <= k < |a| ==> s[k] == a[k];
  }

  lemma {:induction false} PiecesLack(s: string, c: char)
    ensures forall k :: 0 <= k < |Split(s, c)| ==> Lacks(Split(s, c)[k], c)
    decreases |s|
  {
    hide IndexOf;
    var i := IndexOf(s, c);
    if i < |s| {
      PiecesLack(s[i + 1..], c);
    }
  }

  lemma {:induction false} JoinCons(first: string, rest: seq<string>, c: char)
    requires |rest| > 0
    ensures Join([first] + rest, c) == first + [c] + Join(rest, c)
  {
    assert ([first] + rest)[1..] == rest;
  }

  lemma {:induction false} JoinSplit(s: string, c: char)
    ensures Join(Split(s, c), c) == s
    ensures forall k :: 0 <= k < |Split(s, c)| ==> Lacks(Split(s, c)[k], c)
    decreases |s|
  {
    hide IndexOf, Lacks;
    PiecesLack(s, c);
    var i := IndexOf(s, c);
    if i < |s| {
      JoinSplit(s[i + 1..], c);
      hide Join;
      JoinCons(s[..i], Split(s[i + 1..], c), c);
      assert s == s[..i] + [c] + s[i + 1..];
    }
  }

  lemma {:induction false} SplitJoin(parts: seq<string>, c: char)
    requires |parts| > 0 && forall k :: 0 <= k < |parts| ==> Lacks(parts[k], c)
    ensures Split(Join(parts, c), c) == parts
    decreases |parts|
  {
    if |parts| == 1 {
      IndexIsFirst(parts[0], c, "");
    } else {
      var rest := Join(parts[1..], c);
      SplitJoin(parts[1..], c);
      IndexIsFirst(parts[0], c, rest);
      var s := parts[0] + [c] + rest;
      assert s[..|parts[0]|] == parts[0] && s[|parts[0]| + 1..] == rest;
    }
  }

  // Decimal numbers --------------------------------------------------------------------------------

  predicate Digit(c: char) { '0' <= c <= '9' }

  predicate Digits(s: string) { forall k :: 0 <= k < |s| ==> Digit(s[k]) }

  function DigitValue(c: char): nat
    requires Digit(c)
  {
    c as int - '0' as int
  }

  function DigitOf(n: nat): (c: char)
    requires n < 10
    ensures Digit(c) && DigitValue(c) == n
  {
    ('0' as int + n) as char
  }

  function Value(s: string): nat
    requires Digits(s)
  {
    if s == "" then 0 else Value(s[..|s| - 1]) * 10 + DigitValue(s[|s| - 1])
  }

  /** A canonical decimal: digits, no spare leading zero, inside 64 bits. */
  function ParseDecimal(s: string): Option<u64> {
    if s == "" || !Digits(s) || (|s| > 1 && s[0] == '0') then None
    else if Value(s) > U64_MAX then None
    else Some(Value(s))
  }

  function PrintDecimal(n: nat): (s: string)
    ensures |s| > 0 && Digits(s)
  {
    if n < 10 then [DigitOf(n)] else PrintDecimal(n / 10) + [DigitOf(n % 10)]
  }

  lemma {:induction false} PrintedDecimal(n: nat)
    ensures Value(PrintDecimal(n)) == n
    ensures PrintDecimal(n)[0] == '0' ==> n == 0
    ensures n < 10 <==> |PrintDecimal(n)| == 1
  {
    var s := PrintDecimal(n);
    if n < 10 {
      assert s[..0] == "";
      assert Value(s) == Value("") * 10 + DigitValue(s[0]);
    } else {
      PrintedDecimal(n / 10);
      assert s[..|s| - 1] == PrintDecimal(n / 10);
      assert s[0] == PrintDecimal(n / 10)[0];
    }
  }

  lemma {:induction false} ValueAppend(front: string, last: char)
    requires Digits(front) && Digit(last)
    ensures Digits(front + [last]) && Value(front + [last]) == Value(front) * 10 + DigitValue(last)
  {
    assert (front + [last])[..|front|] == front;
  }

  lemma {:induction false} PrintAppend(n: nat, digit: nat)
    requires n >= 1 && digit < 10
    ensures PrintDecimal(n * 10 + digit) == PrintDecimal(n) + [DigitOf(digit)]
  {
    assert (n * 10 + digit) / 10 == n && (n * 10 + digit) % 10 == digit;
  }

  lemma {:induction false} OneDigit(c: char)
    requires Digit(c)
    ensures DigitValue(c) < 10 && DigitOf(DigitValue(c)) == c
    ensures Value([c]) == DigitValue(c) && PrintDecimal(Value([c])) == [c]
  {
    ValueAppend("", c);
    assert "" + [c] == [c];
  }

  lemma {:induction false} PrintsBack(s: string)
    requires s != "" && Digits(s) && (|s| > 1 ==> s[0] != '0')
    ensures PrintDecimal(Value(s)) == s
    ensures |s| > 1 ==> Value(s) >= 10
  {
    hide Value, PrintDecimal, DigitValue, DigitOf, Digit;
    var last := s[|s| - 1];
    var front := s[..|s| - 1];
    assert s == front + [last];
    OneDigit(last);
    if |s| == 1 {
      assert s == [last];
    } else {
      PrintsBack(front);
      LeadingNotZero(front);
      ValueAppend(front, last);
      PrintAppend(Value(front), DigitValue(last));
    }
  }

  lemma {:induction false} LeadingNotZero(s: string)
    requires s != "" && Digits(s) && s[0] != '0'
    ensures Value(s) >= 1
  {
    if |s| > 1 {
      LeadingNotZero(s[..|s| - 1]);
    } else {
      assert s[..0] == "";
    }
  }

  /** The canonical decimals are exactly the printed 64-bit numbers. */
  lemma {:induction false} DecimalExact(s: string, n: nat)
    ensures ParseDecimal(s) == Some(n) <==> n <= U64_MAX && s == PrintDecimal(n)
  {
    hide PrintDecimal, Value;
    PrintedDecimal(n);
    if s != "" && Digits(s) && (|s| > 1 ==> s[0] != '0') { PrintsBack(s); }
  }

  // Hexadecimal --------------------------------------------------------------------------------------

  predicate HexDigit(c: char) { Digit(c) || 'a' <= c <= 'f' }

  predicate HexDigits(s: string) { forall k :: 0 <= k < |s| ==> HexDigit(s[k]) }

  function Nibble(c: char): (n: nat)
    requires HexDigit(c)
    ensures n < 16
  {
    if Digit(c) then c as int - '0' as int else c as int - 'a' as int + 10
  }

  function HexOf(n: nat): (c: char)
    requires n < 16
    ensures HexDigit(c) && Nibble(c) == n
  {
    if n < 10 then ('0' as int + n) as char else ('a' as int + (n - 10)) as char
  }

  function DecodeHex(s: string, n: nat): (r: Option<seq<Byte>>)
    ensures r.Some? ==> |r.value| == n
  {
    if |s| != n * 2 || !HexDigits(s) then None
    else Some(seq(n, i requires 0 <= i < n => ByteAt(s, i)))
  }

  function ByteAt(s: string, i: nat): Byte
    requires HexDigits(s) && 2 * i + 1 < |s|
  {
    Nibble(s[2 * i]) * 16 + Nibble(s[2 * i + 1])
  }

  function EncodeHex(bytes: seq<Byte>): (s: string)
    ensures |s| == |bytes| * 2 && HexDigits(s)
    ensures forall i :: 0 <= i < |bytes| ==>
              s[2 * i] == HexOf(bytes[i] / 16) && s[2 * i + 1] == HexOf(bytes[i] % 16)
  {
    if bytes == [] then ""
    else EncodeHex(bytes[..|bytes| - 1]) + [HexOf(bytes[|bytes| - 1] / 16), HexOf(bytes[|bytes| - 1] % 16)]
  }

  /** The accepted spellings of `n` bytes are exactly their lower-case encodings. */
  lemma {:induction false} HexExact(s: string, n: nat, bytes: seq<Byte>)
    ensures DecodeHex(s, n) == Some(bytes) <==> |bytes| == n && s == EncodeHex(bytes)
  {
    hide EncodeHex, DecodeHex;
    if |bytes| == n && s == EncodeHex(bytes) { EncodedDecodes(bytes); }
    if DecodeHex(s, n) == Some(bytes) { DecodedEncodes(s, n); }
  }

  lemma {:induction false} EncodedDecodes(bytes: seq<Byte>)
    ensures DecodeHex(EncodeHex(bytes), |bytes|) == Some(bytes)
  {
    hide EncodeHex, Nibble, HexOf, HexDigit;
    var s := EncodeHex(bytes);
    forall i | 0 <= i < |bytes| ensures ByteAt(s, i) == bytes[i] {
      assert s[2 * i] == HexOf(bytes[i] / 16) && s[2 * i + 1] == HexOf(bytes[i] % 16);
    }
    assert DecodeHex(s, |bytes|).value == bytes;
  }

  lemma DecodedEncodes(s: string, n: nat)
    requires DecodeHex(s, n).Some?
    ensures EncodeHex(DecodeHex(s, n).value) == s
  {
    hide EncodeHex, Nibble, HexOf, HexDigit;
    var bytes := DecodeHex(s, n).value;
    var t := EncodeHex(bytes);
    forall k | 0 <= k < |s| ensures t[k] == s[k] {
      var i := k / 2;
      assert k == 2 * i || k == 2 * i + 1;
      assert bytes[i] == ByteAt(s, i);
      assert t[2 * i] == HexOf(bytes[i] / 16) && t[2 * i + 1] == HexOf(bytes[i] % 16);
      assert bytes[i] / 16 == Nibble(s[2 * i]) && bytes[i] % 16 == Nibble(s[2 * i + 1]);
      NibbleIsHex(s[k]);
    }
  }

  lemma NibbleIsHex(c: char)
    requires HexDigit(c)
    ensures HexOf(Nibble(c)) == c
  {
  }
}
