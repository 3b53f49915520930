/** The string operations the MapCode printer and parser use, on ASCII text. */
module Text {

  /** What `strip` removes: space, the \t..\r group and the four ASCII separators. */
  predicate IsSpace(c: char) {
    c == ' ' || 9 <= c as int <= 13 || 28 <= c as int <= 31
  }

  function LowerChar(c: char): char {
    if 'A' <= c <= 'Z' then (c as int + 32) as char else c
  }

  function UpperChar(c: char): char {
    if 'a' <= c <= 'z' then (c as int - 32) as char else c
  }

  function Lower(s: string): (r: string)
    ensures |r| == |s| && forall i :: 0 <= i < |s| ==> r[i] == LowerChar(s[i])
  {
    seq(|s|, i requires 0 <= i < |s| => LowerChar(s[i]))
  }

  function Upper(s: string): (r: string)
    ensures |r| == |s| && forall i :: 0 <= i < |s| ==> r[i] == UpperChar(s[i])
  {
    seq(|s|, i requires 0 <= i < |s| => UpperChar(s[i]))
  }

  predicate AllSpace(s: string) {
    forall i :: 0 <= i < |s| ==> IsSpace(s[i])
  }

  /** Nothing to strip at either end. */
  predicate Trimmed(s: string) {
    s == "" || (!IsSpace(s[0]) && !IsSpace(s[|s| - 1]))
  }

  function DropLeft(s: string): (r: string)
    ensures |r| <= |s| && AllSpace(s[..|s| - |r|]) && r == s[|s| - |r|..]
    ensures r == "" || !IsSpace(r[0])
  {
    if s != "" && IsSpace(s[0]) then DropLeft(s[1..]) else s
  }

  function DropRight(s: string): (r: string)
    ensures |r| <= |s| && AllSpace(s[|r|..]) && r == s[..|r|]
    ensures r == "" || !IsSpace(r[|r| - 1])
  {
    if s != "" && IsSpace(s[|s| - 1]) then DropRight(s[..|s| - 1]) else s
  }

  function Strip(s: string): string {
    DropRight(DropLeft(s))
  }

  lemma {:induction false} DropLeftIs(before: string, rest: string)
    requires AllSpace(before) && (rest == "" || !IsSpace(rest[0]))
    ensures DropLeft(before + rest) == rest
  {
    if before == "" {
      assert before + rest == rest;
    } else {
      DropLeftIs(before[1..], rest);
      assert (before + rest)[1..] == before[1..] + rest;
    }
  }

  lemma {:induction false} DropRightIs(rest: string, after: string)
    requires AllSpace(after) && (rest == "" || !IsSpace(rest[|rest| - 1]))
    ensures DropRight(rest + after) == rest
  {
    if after == "" {
      assert rest + after == rest;
    } else {
      var n := |after| - 1;
      DropRightIs(rest, after[..n]);
      assert (rest + after)[..|rest + after| - 1] == rest + after[..n];
    }
  }

  /** Strip finds the one trimmed middle. */
  lemma StripIs(s: string, before: string, middle: string, after: string)
    requires s == before + middle + after && AllSpace(before) && AllSpace(after) && Trimmed(middle)
    ensures Strip(s) == middle
  {
    if middle == "" {
      DropLeftIs(before + after, "");
      assert s == before + after + "" && s == before + after;
    } else {
      DropLeftIs(before, middle + after);
      assert s == before + (middle + after);
    }
    DropRightIs(middle, after);
  }

  lemma Glue(s: string, k: nat)
    requires k <= |s|
    ensures s == s[..k] + s[k..]
  {
  }

  lemma StripParts(s: string) returns (before: string, after: string)
    ensures s == before + Strip(s) + after && AllSpace(before) && AllSpace(after) && Trimmed(Strip(s))
  {
    hide AllSpace;
    hide IsSpace;
    hide DropLeft;
    hide DropRight;
    var left := DropLeft(s);
    var middle := DropRight(left);
    assert Strip(s) == middle;
    hide Strip;
    before, after := s[..|s| - |left|], left[|middle|..];
    Glue(s, |s| - |left|);
    Glue(left, |middle|);
    assert before + (middle + after) == before + middle + after;
    assert middle != "" ==> middle[0] == left[0];
  }

  lemma LowerChars(c: char)
    ensures IsSpace(LowerChar(c)) <==> IsSpace(c)
    ensures LowerChar(LowerChar(c)) == LowerChar(c)
    ensures UpperChar(LowerChar(c)) == UpperChar(c)
    ensures '0' <= LowerChar(c) <= '9' <==> '0' <= c <= '9'
    ensures '0' <= c <= '9' ==> LowerChar(c) == c
    ensures (LowerChar(c) == '|' <==> c == '|') && (LowerChar(c) == '=' <==> c == '=') && (LowerChar(c) == ',' <==> c == ',')
  {
  }

  lemma LowerConcat(a: string, b: string)
    ensures Lower(a + b) == Lower(a) + Lower(b)
  {
  }

  lemma LowerEnds(s: string)
    ensures AllSpace(s) ==> AllSpace(Lower(s))
    ensures Trimmed(s) ==> Trimmed(Lower(s))
  {
    forall i | 0 <= i < |s|
      ensures IsSpace(Lower(s)[i]) == IsSpace(s[i])
    {
      LowerChars(s[i]);
    }
  }

  /** Lowering case commutes with stripping. */
  lemma LowerStrip(s: string)
    ensures Strip(Lower(s)) == Lower(Strip(s))
  {
    hide Strip;
    hide Lower;
    var before, after := StripParts(s);
    LowerConcat(before + Strip(s), after);
    LowerConcat(before, Strip(s));
    LowerEnds(before);
    LowerEnds(after);
    LowerEnds(Strip(s));
    StripIs(Lower(s), Lower(before), Lower(Strip(s)), Lower(after));
  }

  lemma LowerLower(s: string)
    ensures Lower(Lower(s)) == Lower(s)
  {
    forall c: char { LowerChars(c); }
  }

  function FirstIndex(s: string, c: char): (k: nat)
    ensures k <= |s| && (k < |s| ==> s[k] == c)
    ensures forall i :: 0 <= i < k ==> s[i] != c
  {
    if s == "" || s[0] == c then 0 else 1 + FirstIndex(s[1..], c)
  }

  function Split(s: string, c: char): (r: seq<string>)
    ensures r != []
  {
    if s == "" then [""]
    else
      var rest := Split(s[1..], c);
      if s[0] == c then [""] + rest else [[s[0]] + rest[0]] + rest[1..]
  }

  function Join(parts: seq<string>, c: char): string {
    if parts == [] then ""
    else if |parts| == 1 then parts[0]
    else parts[0] + [c] + Join(parts[1..], c)
  }

  lemma {:induction false} SplitAt(a: string, rest: string, c: char)
    requires c !in a
    ensures Split(a, c) == [a]
    ensures Split(a + [c] + rest, c) == [a] + Split(rest, c)
  {
    var s := a + [c] + rest;
    if a == "" {
      assert s[1..] == rest;
    } else {
      assert s[1..] == a[1..] + [c] + rest;
      assert s[0] == a[0] && a[0] in a && c !in a[1..];
      SplitAt(a[1..], rest, c);
      assert [a[0]] + a[1..] == a;
    }
  }

  lemma {:induction false} SplitJoin(parts: seq<string>, c: char)
    requires parts != [] && forall i :: 0 <= i < |parts| ==> c !in parts[i]
    ensures Split(Join(parts, c), c) == parts
  {
    hide Split;
    if |parts| == 1 {
      SplitAt(parts[0], "", c);
    } else {
      SplitJoin(parts[1..], c);
      SplitAt(parts[0], Join(parts[1..], c), c);
      assert parts == [parts[0]] + parts[1..];
    }
  }

  function LowerAll(parts: seq<string>): (r: seq<string>)
    ensures |r| == |parts| && forall i :: 0 <= i < |parts| ==> r[i] == Lower(parts[i])
  {
    seq(|parts|, i requires 0 <= i < |parts| => Lower(parts[i]))
  }

  /** Splitting and lowering commute when the separator is not a letter. */
  lemma {:induction false} LowerSplit(s: string, c: char)
    requires c == '|' || c == ',' || c == '='
    ensures Split(Lower(s), c) == LowerAll(Split(s, c))
  {
    if s != "" {
      LowerSplit(s[1..], c);
      hide LowerAll;
      hide Split;
      if s[0] != c {
        LowerSplitInside(s, c);
      } else {
        LowerSplitHere(s, c);
      }
    }
  }

  lemma LowerAllCons(first: string, rest: seq<string>)
    ensures LowerAll([first] + rest) == [Lower(first)] + LowerAll(rest)
  {
    hide Lower;
  }

  lemma LowerFirst(s: string)
    requires s != ""
    ensures Lower(s) != "" && Lower(s)[0] == LowerChar(s[0]) && Lower(s)[1..] == Lower(s[1..])
  {
  }

  lemma LowerSplitInside(s: string, c: char)
    requires (c == '|' || c == ',' || c == '=') && s != "" && s[0] != c
    requires Split(Lower(s[1..]), c) == LowerAll(Split(s[1..], c))
    ensures Split(Lower(s), c) == LowerAll(Split(s, c))
  {
    LowerChars(s[0]);
    LowerFirst(s);
    var rest := Split(s[1..], c);
    assert Split(s, c) == [[s[0]] + rest[0]] + rest[1..];
    var low := Split(Lower(s)[1..], c);
    assert Split(Lower(s), c) == [[LowerChar(s[0])] + low[0]] + low[1..];
    hide Split;
    LowerConcat([s[0]], rest[0]);
    LowerFirst([s[0]]);
    assert Lower([s[0]]) == [LowerChar(s[0])];
    LowerAllCons(rest[0], rest[1..]);
    assert rest == [rest[0]] + rest[1..];
    LowerAllCons([s[0]] + rest[0], rest[1..]);
    hide LowerChar;
    hide Lower;
    hide LowerAll;
  }

  lemma LowerSplitHere(s: string, c: char)
    requires (c == '|' || c == ',' || c == '=') && s != "" && s[0] == c
    requires Split(Lower(s[1..]), c) == LowerAll(Split(s[1..], c))
    ensures Split(Lower(s), c) == LowerAll(Split(s, c))
  {
    LowerChars(s[0]);
    assert Lower(s)[1..] == Lower(s[1..]);
    assert LowerAll([""] + Split(s[1..], c)) == [""] + LowerAll(Split(s[1..], c));
  }

  lemma LowerSlices(s: string, k: nat)
    requires k < |s|
    ensures Lower(s)[..k] == Lower(s[..k]) && Lower(s)[k + 1..] == Lower(s[k + 1..])
  {
  }

  lemma LowerFirstIndex(s: string, c: char)
    requires c == '|' || c == ',' || c == '='
    ensures FirstIndex(Lower(s), c) == FirstIndex(s, c)
  {
    forall i | 0 <= i < |s|
      ensures Lower(s)[i] == c <==> s[i] == c
    {
      LowerChars(s[i]);
    }
  }

  predicate IsDigit(c: char) {
    '0' <= c <= '9'
  }

  /** `isdigit`: some characters, all of them digits. */
  predicate AllDigits(s: string) {
    s != "" && forall i :: 0 <= i < |s| ==> IsDigit(s[i])
  }

  function DigitValue(c: char): nat
    requires IsDigit(c)
  {
    c as int - '0' as int
  }

  function ToNat(s: string): nat
    requires forall i :: 0 <= i < |s| ==> IsDigit(s[i])
  {
    if s == "" then 0 else 10 * ToNat(s[..|s| - 1]) + DigitValue(s[|s| - 1])
  }

  function DigitChar(d: nat): char
    requires d < 10
  {
    ('0' as int + d) as char
  }

  /** Decimal printing, without leading zeros. */
  function FromNat(n: nat): (s: string)
    ensures AllDigits(s) && ToNat(s) == n
  {
    if n < 10 then
      var s := [DigitChar(n)];
      assert s[..0] == "";
      s
    else
      var s := FromNat(n / 10) + [DigitChar(n % 10)];
      assert s[..|s| - 1] == FromNat(n / 10);
      s
  }

  /** Leading zeros do not change a number. */
  lemma {:induction false} LeadingZeros(zeros: string, s: string)
    requires (forall i :: 0 <= i < |zeros| ==> zeros[i] == '0') && forall i :: 0 <= i < |s| ==> IsDigit(s[i])
    ensures (forall i :: 0 <= i < |zeros + s| ==> IsDigit((zeros + s)[i])) && ToNat(zeros + s) == ToNat(s)
  {
    if s != "" {
      LeadingZeros(zeros, s[..|s| - 1]);
      assert (zeros + s)[..|zeros + s| - 1] == zeros + s[..|s| - 1];
    } else if zeros != "" {
      LeadingZeros(zeros[..|zeros| - 1], s);
      assert zeros + s == zeros;
      assert zeros[..|zeros| - 1] + s == zeros[..|zeros| - 1];
    }
  }

  lemma {:induction false} FromNatLength(n: nat, digits: nat, power: nat)
    requires digits >= 1 && power == Power10(digits) && n < power
    ensures |FromNat(n)| <= digits
  {
    if n >= 10 {
      FromNatLength(n / 10, digits - 1, power / 10);
    }
  }

  function Power10(k: nat): nat {
    if k == 0 then 1 else 10 * Power10(k - 1)
  }

  /** Text without capitals is already lower case. */
  lemma NoCapitals(s: string)
    requires forall i :: 0 <= i < |s| ==> !('A' <= s[i] <= 'Z')
    ensures Lower(s) == s
  {
  }

  /** Joining trimmed, non-empty parts leaves nothing to strip. */
  lemma {:induction false} JoinTrimmed(parts: seq<string>, c: char)
    requires parts != [] && forall i :: 0 <= i < |parts| ==> parts[i] != "" && Trimmed(parts[i])
    ensures Join(parts, c) != "" && Trimmed(Join(parts, c))
  {
    if |parts| > 1 {
      var rest := Join(parts[1..], c);
      JoinTrimmed(parts[1..], c);
      var s := parts[0] + [c] + rest;
      assert s[0] == parts[0][0] && s[|s| - 1] == rest[|rest| - 1];
    }
  }

  /** A character in none of the parts, and not the separator, is not in the result. */
  lemma {:induction false} JoinOmits(parts: seq<string>, c: char, x: char)
    requires x != c && forall i :: 0 <= i < |parts| ==> x !in parts[i]
    ensures x !in Join(parts, c)
  {
    if |parts| > 1 {
      JoinOmits(parts[1..], c, x);
    }
  }

  lemma {:induction false} JoinLength(parts: seq<string>, c: char, most: nat)
    requires forall i :: 0 <= i < |parts| ==> |parts[i]| <= most
    ensures |Join(parts, c)| <= |parts| * (most + 1)
  {
    if |parts| > 1 {
      JoinLength(parts[1..], c, most);
      assert |parts| * (most + 1) == |parts[1..]| * (most + 1) + (most + 1);
    }
  }

  /** The same bound when one part alone may be longer. */
  lemma {:induction false} JoinOneLong(parts: seq<string>, c: char, k: nat, most: nat, extra: nat)
    requires forall i :: 0 <= i < |parts| && i != k ==> |parts[i]| <= most
    requires k < |parts| ==> |parts[k]| <= most + extra
    ensures |Join(parts, c)| <= |parts| * (most + 1) + extra
  {
    if |parts| > 1 {
      if k == 0 {
        JoinLength(parts[1..], c, most);
      } else {
        JoinOneLong(parts[1..], c, k - 1, most, extra);
      }
      assert |parts| * (most + 1) == |parts[1..]| * (most + 1) + (most + 1);
    }
  }

  /** Spaces around a text do not survive stripping. */
  lemma StripPadded(before: string, s: string, after: string)
    requires AllSpace(before) && AllSpace(after)
    ensures Strip(before + s + after) == Strip(s)
  {
    hide Strip;
    var a, b := StripParts(s);
    assert before + s + after == (before + a) + Strip(s) + (b + after);
    StripIs(before + s + after, before + a, Strip(s), b + after);
  }

  /** Digits have no case: texts that differ only in case are equal if one is a number. */
  lemma DigitsHaveNoCase(s: string, t: string)
    requires Lower(s) == Lower(t) && AllDigits(s)
    ensures s == t
  {
    forall i | 0 <= i < |s|
      ensures s[i] == t[i]
    {
      assert Lower(s)[i] == Lower(t)[i];
      LowerChars(s[i]);
      LowerChars(t[i]);
    }
  }

  lemma UpperByLower(s: string, t: string)
    requires Lower(s) == Lower(t)
    ensures Upper(s) == Upper(t)
  {
    assert |s| == |t|;
    forall i | 0 <= i < |s|
      ensures UpperChar(s[i]) == UpperChar(t[i])
    {
      assert Lower(s)[i] == Lower(t)[i];
      LowerChars(s[i]);
      LowerChars(t[i]);
    }
  }
}
