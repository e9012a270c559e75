/** The string operations of the JavaScript runtime that the pipeline relies on. */
module Text {

  predicate OccursAt(s: string, pat: string, i: int) {
    0 <= i && i + |pat| <= |s| && s[i..i + |pat|] == pat
  }

  /** `s.indexOf(pat)`: the first position at which `pat` occurs in `s`, or -1 when it occurs
      nowhere. A regular expression made of plain letters, such as `/xml/`, matches exactly
      when this is not -1. */
  function IndexOf(s: string, pat: string): (r: int)
    ensures r == -1 || OccursAt(s, pat, r)
    ensures r == -1 <==> forall i :: 0 <= i <= |s| ==> !OccursAt(s, pat, i)
    ensures forall i :: 0 <= i < r ==> !OccursAt(s, pat, i)
    decreases |s|
  {
    if |s| < |pat| then -1
    else if s[..|pat|] == pat then 0
    else
      var k := IndexOf(s[1..], pat);
      assert !OccursAt(s, pat, 0) by { assert s[0..|pat|] == s[..|pat|]; }
      forall i | 1 <= i <= |s| ensures OccursAt(s, pat, i) <==> OccursAt(s[1..], pat, i - 1) {
        ShiftOccurs(s, pat, i);
      }
      if k == -1 then -1 else k + 1
  }

  lemma ShiftOccurs(s: string, pat: string, i: int)
    requires 1 <= i <= |s|
    ensures OccursAt(s, pat, i) <==> OccursAt(s[1..], pat, i - 1)
  {
    if i + |pat| <= |s| {
      assert s[1..][i - 1..i - 1 + |pat|] == s[i..i + |pat|];
    }
  }

  /** `pat` occurs somewhere in `s`: what `s.indexOf(pat) !== -1` and the regular expression
      test `/pat/.test(s)` decide for a pattern of plain letters. */
  function Contains(s: string, pat: string): (b: bool)
    ensures b <==> exists i :: 0 <= i <= |s| && OccursAt(s, pat, i)
  {
    IndexOf(s, pat) != -1
  }

  /** `parts.join(sep)`. */
  function Join(parts: seq<string>, sep: string): (r: string)
    ensures parts == [] ==> r == ""
    ensures |parts| == 1 ==> r == parts[0]
  {
    if parts == [] then ""
    else if |parts| == 1 then parts[0]
    else parts[0] + sep + Join(parts[1..], sep)
  }

  /** Each part of a join occurs in the joined string, at the position returned. */
  lemma {:induction false} JoinPartAt(parts: seq<string>, sep: string, i: nat) returns (k: nat)
    requires i < |parts|
    ensures OccursAt(Join(parts, sep), parts[i], k)
    decreases |parts|
  {
    var s := Join(parts, sep);
    if |parts| == 1 {
      k := 0;
      assert s[0..|parts[0]|] == parts[0];
    } else if i == 0 {
      k := 0;
      assert s == parts[0] + (sep + Join(parts[1..], sep));
      assert s[0..|parts[0]|] == parts[0];
    } else {
      var rest := Join(parts[1..], sep);
      var k1 := JoinPartAt(parts[1..], sep, i - 1);
      var pre := parts[0] + sep;
      assert s == pre + rest;
      assert parts[1..][i - 1] == parts[i];
      k := |pre| + k1;
      assert s[k..k + |parts[i]|] == rest[k1..k1 + |parts[i]|];
    }
  }

  /** Every part shows in the joined string. */
  lemma JoinShowsParts(parts: seq<string>, sep: string)
    ensures forall i :: 0 <= i < |parts| ==> Contains(Join(parts, sep), parts[i])
  {
    forall i | 0 <= i < |parts|
      ensures Contains(Join(parts, sep), parts[i])
    {
      var k := JoinPartAt(parts, sep, i);
    }
  }

  /** Joining a joined list into a longer one is joining the longer list. */
  lemma {:induction false} JoinFlatten(xs: seq<string>, ys: seq<string>, sep: string)
    requires ys != []
    ensures Join(xs + [Join(ys, sep)], sep) == Join(xs + ys, sep)
  {
    if xs == [] {
      assert xs + [Join(ys, sep)] == [Join(ys, sep)];
      assert xs + ys == ys;
    } else {
      var rest1 := xs[1..] + [Join(ys, sep)];
      var rest2 := xs[1..] + ys;
      assert xs + [Join(ys, sep)] == [xs[0]] + rest1;
      assert xs + ys == [xs[0]] + rest2;
      assert ([xs[0]] + rest1)[1..] == rest1;
      assert ([xs[0]] + rest2)[1..] == rest2;
      JoinFlatten(xs[1..], ys, sep);
    }
  }

  function Digit(d: nat): (c: char)
    requires d < 10
    ensures '0' <= c <= '9' && (c as int) - ('0' as int) == d
  {
    "0123456789"[d]
  }

  /** The decimal text JavaScript produces when a non-negative integer is concatenated to a
      string. */
  function NatToString(n: nat): (r: string)
    ensures |r| > 0 && (|r| > 1 ==> r[0] != '0')
    ensures forall i :: 0 <= i < |r| ==> '0' <= r[i] <= '9'
  {
    if n < 10 then [Digit(n)] else NatToString(n / 10) + [Digit(n % 10)]
  }

  /** Reads a string of decimal digits back as a number. */
  ghost function DecimalValue(s: string): nat
    requires forall i :: 0 <= i < |s| ==> '0' <= s[i] <= '9'
  {
    if s == [] then 0 else 10 * DecimalValue(s[..|s| - 1]) + ((s[|s| - 1] as int) - ('0' as int))
  }

  lemma {:induction false} NatToStringRoundTrip(n: nat)
    ensures DecimalValue(NatToString(n)) == n
  {
    if n >= 10 {
      NatToStringRoundTrip(n / 10);
      var r := NatToString(n);
      assert r[..|r| - 1] == NatToString(n / 10);
    }
  }
}
