/** Labels as field names: URL-safe base64 without padding (section 5 of RFC 4648). */
module SafeKeys {
  import opened Options

  type Byte = b: int | 0 <= b < 256

  /** UTF-8 text holds no byte from F5 up (section 3 of RFC 3629). */
  predicate Utf8(b: seq<Byte>) {
    forall i :: 0 <= i < |b| ==> b[i] < 0xF5
  }

  function Digit(n: int): char
    requires 0 <= n < 64
  {
    if n < 26 then ('A' as int + n) as char
    else if n < 52 then ('a' as int + n - 26) as char
    else if n < 62 then ('0' as int + n - 52) as char
    else if n == 62 then '-' else '_'
  }

  function Value(c: char): int {
    if 'A' <= c <= 'Z' then c as int - 'A' as int
    else if 'a' <= c <= 'z' then c as int - 'a' as int + 26
    else if '0' <= c <= '9' then c as int - '0' as int + 52
    else if c == '-' then 62 else if c == '_' then 63 else -1
  }

  function Encode(b: seq<Byte>): string {
    if |b| == 0 then ""
    else if |b| == 1 then [Digit(b[0] / 4), Digit(b[0] % 4 * 16)]
    else if |b| == 2 then [Digit(b[0] / 4), Digit(b[0] % 4 * 16 + b[1] / 16), Digit(b[1] % 16 * 4)]
    else [Digit(b[0] / 4), Digit(b[0] % 4 * 16 + b[1] / 16), Digit(b[1] % 16 * 4 + b[2] / 64), Digit(b[2] % 64)] + Encode(b[3..])
  }

  predicate Digits(s: string) {
    forall i :: 0 <= i < |s| ==> Value(s[i]) >= 0
  }

  function Decode(s: string): Option<seq<Byte>> {
    if !Digits(s) || |s| == 1 then None
    else if |s| == 0 then Some([])
    else if |s| == 2 then Some([Pair(s[0], s[1], 16)])
    else if |s| == 3 then Some([Pair(s[0], s[1], 16), Pair(s[1], s[2], 4)])
    else
      var rest := Decode(s[4..]);
      if rest.None? then None else Some([Pair(s[0], s[1], 16), Pair(s[1], s[2], 4), Pair(s[2], s[3], 1)] + rest.value)
  }

  /** The byte made of the low bits of one digit and the high bits of the next. */
  function Pair(c: char, d: char, unit: int): Byte
    requires unit == 1 || unit == 4 || unit == 16
  {
    (Value(c) * (64 / unit) + Value(d) / unit) % 256
  }

  lemma DigitValue(n: int)
    requires 0 <= n < 64
    ensures Value(Digit(n)) == n
  {
  }

  lemma HighBits(a: Byte, t: int)
    requires 0 <= t < 16
    ensures (a / 4 * 4 + (a % 4 * 16 + t) / 16) % 256 == a
  {
    assert (a % 4 * 16 + t) / 16 == a % 4;
  }

  lemma MiddleBits(p: int, b: Byte, t: int)
    requires 0 <= p < 4 && 0 <= t < 4
    ensures ((p * 16 + b / 16) * 16 + (b % 16 * 4 + t) / 4) % 256 == b
  {
    assert (b % 16 * 4 + t) / 4 == b % 16;
    assert (p * 16 + b / 16) * 16 + b % 16 == p * 256 + b;
  }

  lemma LowBits(p: int, c: Byte)
    requires 0 <= p < 16
    ensures ((p * 4 + c / 64) * 64 + c % 64) % 256 == c
  {
    assert (p * 4 + c / 64) * 64 + c % 64 == p * 256 + c;
  }

  lemma DigitPairs(a: Byte, b: Byte, c: Byte)
    ensures Pair(Digit(a / 4), Digit(a % 4 * 16 + b / 16), 16) == a
    ensures Pair(Digit(a % 4 * 16 + b / 16), Digit(b % 16 * 4 + c / 64), 4) == b
    ensures Pair(Digit(b % 16 * 4 + c / 64), Digit(c % 64), 1) == c
  {
    PairOf(a / 4, a % 4 * 16 + b / 16);
    PairOf(a % 4 * 16 + b / 16, b % 16 * 4 + c / 64);
    PairOf(b % 16 * 4 + c / 64, c % 64);
    hide Pair;
    hide Digit;
    HighBits(a, b / 16);
    MiddleBits(a % 4, b, c / 64);
    LowBits(b % 16, c);
  }

  lemma PairOf(x: int, y: int)
    requires 0 <= x < 64 && 0 <= y < 64
    ensures Pair(Digit(x), Digit(y), 16) == (x * 4 + y / 16) % 256
    ensures Pair(Digit(x), Digit(y), 4) == (x * 16 + y / 4) % 256
    ensures Pair(Digit(x), Digit(y), 1) == (x * 64 + y) % 256
  {
    DigitValue(x);
    DigitValue(y);
    hide Digit;
    hide Value;
  }

  lemma {:induction false} EncodedDigits(b: seq<Byte>)
    ensures Digits(Encode(b)) && |Encode(b)| != 1
    decreases |b|
  {
    forall n | 0 <= n < 64
      ensures Value(Digit(n)) == n
    {
      DigitValue(n);
    }
    hide Digit;
    hide Value;
    if |b| >= 3 {
      EncodedDigits(b[3..]);
    }
  }

  /** Different labels never share a field, and a reader gets the label back. */
  lemma {:induction false} RoundTrip(b: seq<Byte>)
    ensures Decode(Encode(b)) == Some(b)
  {
    EncodedDigits(b);
    hide Digits;
    hide Digit;
    hide Value;
    hide Pair;
    if |b| >= 3 {
      RoundTrip(b[3..]);
      DigitPairs(b[0], b[1], b[2]);
      var c := Encode(b);
      assert |c| >= 4 && c[4..] == Encode(b[3..]);
      assert Decode(c) == Some([Pair(c[0], c[1], 16), Pair(c[1], c[2], 4), Pair(c[2], c[3], 1)] + b[3..]);
      assert b == [b[0], b[1], b[2]] + b[3..];
    } else if |b| == 2 {
      DigitPairs(b[0], b[1], 0);
      assert b == [b[0], b[1]];
    } else if |b| == 1 {
      DigitPairs(b[0], 0, 0);
      assert b == [b[0]];
    }
  }

  lemma SafeKeysDiffer(a: seq<Byte>, b: seq<Byte>)
    requires Encode(a) == Encode(b)
    ensures a == b
  {
    RoundTrip(a);
    RoundTrip(b);
  }

  predicate EndsWith(s: string, suffix: string) {
    |suffix| <= |s| && s[|s| - |suffix|..] == suffix
  }

  lemma {:induction false} EncodedLength(b: seq<Byte>)
    ensures 3 * |Encode(b)| >= 4 * |b| && 3 * |Encode(b)| <= 4 * |b| + 2
  {
    if |b| >= 3 {
      EncodedLength(b[3..]);
    }
  }

  /** What the letters of the two suffixes are as digits. */
  lemma Letters(n: int)
    requires 0 <= n < 64
    ensures Digit(n) == '_' <==> n == 63
    ensures Digit(n) == 'm' <==> n == 38
    ensures Digit(n) == 'a' <==> n == 26
    ensures Digit(n) == 'x' <==> n == 49
    ensures Digit(n) == 's' <==> n == 44
  {
  }

  function ByteAt(b: seq<Byte>, i: nat): Byte {
    if i < |b| then b[i] else 0
  }

  /** The digits of an encoding, one by one. */
  function Sextet(b: seq<Byte>, k: nat): (n: int)
    ensures 0 <= n < 64
  {
    var i := k / 4 * 3;
    if k % 4 == 0 then ByteAt(b, i) / 4
    else if k % 4 == 1 then ByteAt(b, i) % 4 * 16 + ByteAt(b, i + 1) / 16
    else if k % 4 == 2 then ByteAt(b, i + 1) % 16 * 4 + ByteAt(b, i + 2) / 64
    else ByteAt(b, i + 2) % 64
  }

  lemma {:induction false} EncodedAt(b: seq<Byte>, k: nat)
    requires k < |Encode(b)|
    ensures Encode(b)[k] == Digit(Sextet(b, k))
  {
    hide Digit;
    if |b| >= 3 && k >= 4 {
      EncodedAt(b[3..], k - 4);
      assert forall i: nat :: ByteAt(b, i + 3) == ByteAt(b[3..], i);
      assert k / 4 * 3 == (k - 4) / 4 * 3 + 3;
    }
  }

  lemma DigitFromEnd(b: seq<Byte>, suffix: string, k: nat)
    requires EndsWith(Encode(b), suffix) && k < |suffix|
    ensures Digit(Sextet(b, |Encode(b)| - |suffix| + k)) == suffix[k]
  {
    hide Digit;
    var s := Encode(b);
    EncodedAt(b, |s| - |suffix| + k);
    assert s[|s| - |suffix|..][k] == s[|s| - |suffix| + k];
  }

  /** A digit of ones opening a group needs a byte from FC up. */
  lemma NoOnesFirst(b: seq<Byte>, k: nat)
    requires Utf8(b) && k % 4 == 0
    ensures Sextet(b, k) != 63
  {
  }

  /** Ones in the second place and the letter m after them need the byte F9. */
  lemma NoOnesSecond(b: seq<Byte>, k: nat)
    requires Utf8(b) && k % 4 == 1
    ensures !(Sextet(b, k) == 63 && Sextet(b, k + 1) == 38)
  {
    var i := k / 4 * 3;
    var x, y, z := ByteAt(b, i), ByteAt(b, i + 1), ByteAt(b, i + 2);
    assert Sextet(b, k) == x % 4 * 16 + y / 16 && Sextet(b, k + 1) == y % 16 * 4 + z / 64;
    hide Sextet;
    hide Utf8;
  }

  lemma NeverPlainMax(b: seq<Byte>)
    requires Utf8(b)
    ensures !EndsWith(Encode(b), "_max")
  {
    hide Digit;
    hide Sextet;
    hide Utf8;
    var n := |Encode(b)|;
    if EndsWith(Encode(b), "_max") {
      DigitFromEnd(b, "_max", 0);
      DigitFromEnd(b, "_max", 3);
      Letters(Sextet(b, n - 4));
      Letters(Sextet(b, n - 1));
      LastDigit(b);
      NoOnesFirst(b, if n % 4 == 0 then n - 4 else 0);
    }
  }

  lemma NeverMaxMs(b: seq<Byte>)
    requires Utf8(b)
    ensures !EndsWith(Encode(b), "_max_ms")
  {
    hide Digit;
    hide Sextet;
    hide Utf8;
    var n := |Encode(b)|;
    if EndsWith(Encode(b), "_max_ms") {
      DigitFromEnd(b, "_max_ms", 0);
      DigitFromEnd(b, "_max_ms", 1);
      DigitFromEnd(b, "_max_ms", 6);
      Letters(Sextet(b, n - 7));
      Letters(Sextet(b, n - 6));
      Letters(Sextet(b, n - 1));
      LastDigit(b);
      NoOnesFirst(b, if n % 4 == 3 then n - 7 else 0);
      NoOnesSecond(b, if n % 4 == 0 then n - 7 else 1);
    }
  }

  /** No encoded label reads as a maximum: in every alignment the suffix would need
      either leftover bits an encoder leaves zero or a byte UTF-8 never uses. */
  lemma NeverMax(b: seq<Byte>)
    requires Utf8(b)
    ensures !EndsWith(Encode(b), "_max") && !EndsWith(Encode(b), "_max_ms")
  {
    NeverPlainMax(b);
    NeverMaxMs(b);
  }

  /** Where the bytes do not fill the last group its last digit has zero low bits. */
  lemma LastDigit(b: seq<Byte>)
    requires b != []
    ensures var n := |Encode(b)|;
      && n >= 2 && n % 4 != 1
      && (n % 4 == 2 ==> Sextet(b, n - 1) % 16 == 0)
      && (n % 4 == 3 ==> Sextet(b, n - 1) % 4 == 0)
  {
    EncodedShape(b);
    hide Encode;
    hide Sextet;
    var n, g := |Encode(b)|, |b| / 3;
    if n % 4 == 2 {
      assert |b| == g * 3 + 1 && (n - 1) / 4 == g && (n - 1) % 4 == 1;
      LowZero(b, n - 1, g);
    } else if n % 4 == 3 {
      assert |b| == g * 3 + 2 && (n - 1) / 4 == g && (n - 1) % 4 == 2;
      LowZero(b, n - 1, g);
    }
  }

  lemma LowZero(b: seq<Byte>, k: nat, g: nat)
    requires k / 4 == g
    ensures k % 4 == 1 && |b| == g * 3 + 1 ==> Sextet(b, k) % 16 == 0
    ensures k % 4 == 2 && |b| == g * 3 + 2 ==> Sextet(b, k) % 4 == 0
  {
  }

  lemma {:induction false} EncodedShape(b: seq<Byte>)
    ensures |Encode(b)| == |b| / 3 * 4 + (if |b| % 3 == 0 then 0 else |b| % 3 + 1)
  {
    if |b| >= 3 {
      EncodedShape(b[3..]);
      assert |b| / 3 == |b[3..]| / 3 + 1;
    }
  }
}
