/** The string handling the command pipeline relies on: Python's `str(int)`,
    `str.isdigit()`, `str.count(':')` and `str.split(':')`, with the facts that
    make a `"pin:pulse:time"` token round-trip. */
module Text {

  predicate IsDigit(c: char) {
    '0' <= c <= '9'
  }

  /** `s.isdigit()` over ASCII: at least one character, and only digits. */
  predicate IsDigits(s: string) {
    |s| > 0 && forall i :: 0 <= i < |s| ==> IsDigit(s[i])
  }

  function DigitChar(d: nat): (c: char)
    requires d < 10
    ensures IsDigit(c) && c as int - '0' as int == d
  {
    (d + '0' as int) as char
  }

  /** `str(n)` for a non-negative integer: decimal, no leading zeros. */
  function NatToString(n: nat): string
    decreases n
  {
    if n < 10 then [DigitChar(n)] else NatToString(n / 10) + [DigitChar(n % 10)]
  }

  /** `str(i)`: a minus sign in front of negative numbers. */
  function IntToString(i: int): string {
    if i < 0 then "-" + NatToString(-i) else NatToString(i)
  }

  /** The value of a string of decimal digits (`int(s)` when `s.isdigit()`). */
  function ParseDigits(s: string): nat
    requires forall i :: 0 <= i < |s| ==> IsDigit(s[i])
  {
    if s == [] then 0
    else
      assert IsDigit(s[|s| - 1]);
      ParseDigits(s[..|s| - 1]) * 10 + (s[|s| - 1] as int - '0' as int)
  }

  /** `str(n)` is a digit string that reads back as `n`. */
  lemma {:induction false} NatToStringRoundTrip(n: nat)
    ensures IsDigits(NatToString(n))
    ensures ParseDigits(NatToString(n)) == n
    decreases n
  {
    if n >= 10 {
      NatToStringRoundTrip(n / 10);
      var s := NatToString(n);
      assert s[..|s| - 1] == NatToString(n / 10);
    }
  }

  /** `str(i).isdigit()` holds exactly for non-negative `i`, and `str(i)`
      never contains a colon. */
  lemma IntToStringDigits(i: int)
    ensures IsDigits(IntToString(i)) <==> i >= 0
    ensures ':' !in IntToString(i)
    ensures i >= 0 ==> ParseDigits(IntToString(i)) == i
  {
    if i < 0 {
      NatToStringRoundTrip(-i);
      assert !IsDigit(IntToString(i)[0]);
    } else {
      NatToStringRoundTrip(i);
    }
    var s := IntToString(i);
    forall k | 0 <= k < |s| ensures s[k] != ':' {
      if i < 0 && k > 0 { assert s[k] == NatToString(-i)[k - 1]; }
    }
  }

  /** `s.count(c)`. */
  function Count(s: string, c: char): nat {
    if s == [] then 0 else (if s[0] == c then 1 else 0) + Count(s[1..], c)
  }

  /** `s.split(':')`: the colon-free fields between colons, one more than
      there are colons. */
  function Split(s: string): (r: seq<string>)
    ensures |r| == Count(s, ':') + 1
    ensures forall k :: 0 <= k < |r| ==> ':' !in r[k]
  {
    if s == [] then [""]
    else
      var rest := Split(s[1..]);
      if s[0] == ':' then [""] + rest
      else [[s[0]] + rest[0]] + rest[1..]
  }

  /** `':'.join(fields)`. */
  function Join(fields: seq<string>): string
    requires |fields| > 0
  {
    if |fields| == 1 then fields[0] else fields[0] + ":" + Join(fields[1..])
  }

  /** The `"a:b:c"` token made of three fields. */
  function Token(a: string, b: string, c: string): string {
    a + ":" + b + ":" + c
  }

  /** Splitting and joining again gives back the string. */
  lemma {:induction false} JoinSplit(s: string)
    ensures Join(Split(s)) == s
    decreases |s|
  {
    if s != [] {
      JoinSplit(s[1..]);
      var rest := Split(s[1..]);
      if s[0] == ':' {
        assert Split(s) == [""] + rest;
        assert ([""] + rest)[1..] == rest;
      } else {
        var head := [s[0]] + rest[0];
        assert Split(s) == [head] + rest[1..];
        if |rest| > 1 {
          assert ([head] + rest[1..])[1..] == rest[1..];
          assert Join(rest) == rest[0] + ":" + Join(rest[1..]);
        }
      }
    }
  }

  /** A colon-free string is a single field. */
  lemma {:induction false} SplitNoColon(s: string)
    requires ':' !in s
    ensures Split(s) == [s]
    decreases |s|
  {
    if s != [] {
      assert s[0] in s;
      SplitNoColon(s[1..]);
      assert [s[0]] + s[1..] == s;
    }
  }

  /** Splitting at a colon concatenates the two halves' fields. */
  lemma {:induction false} SplitAtColon(a: string, b: string)
    ensures Split(a + ":" + b) == Split(a) + Split(b)
    decreases |a|
  {
    if a == [] {
      assert a + ":" + b == [':'] + b;
      assert ([':'] + b)[1..] == b;
    } else {
      SplitAtColon(a[1..], b);
      assert (a + ":" + b)[1..] == a[1..] + ":" + b;
      var ra := Split(a[1..]);
      if a[0] != ':' {
        assert Split(a[1..] + ":" + b) == ra + Split(b);
      }
    }
  }

  /** A token made of three colon-free fields splits back into them. */
  lemma SplitToken(a: string, b: string, c: string)
    requires ':' !in a && ':' !in b && ':' !in c
    ensures Split(Token(a, b, c)) == [a, b, c]
  {
    SplitAtColon(a + ":" + b, c);
    SplitAtColon(a, b);
    SplitNoColon(a);
    SplitNoColon(b);
    SplitNoColon(c);
  }

  /** A string with exactly two colons is the token of its three fields. */
  lemma TokenOfSplit(s: string)
    requires Count(s, ':') == 2
    ensures Token(Split(s)[0], Split(s)[1], Split(s)[2]) == s
  {
    JoinSplit(s);
    var f := Split(s);
    assert |f| == 3;
    assert Join(f[1..][1..]) == f[2];
    assert Join(f[1..]) == f[1] + ":" + f[2];
    assert Join(f) == f[0] + ":" + (f[1] + ":" + f[2]);
  }
}
