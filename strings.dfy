/**
 * The string operations the digest uses: `name.split('/')[1]`, `type.replace("Event", "")`
 * and the decimal rendering of a number in a template literal (`${n}`).
 */
module Strings {
  import opened Wrappers

  /** `pat` occurs in `s` starting at index `i`. */
  predicate OccursAt(s: string, pat: string, i: int)
  {
    0 <= i && i + |pat| <= |s| && s[i..i + |pat|] == pat
  }

  /** The first index at or after `from` where `pat` occurs (`s.indexOf(pat, from)`). */
  function IndexOfFrom(s: string, pat: string, from: nat): (r: Option<nat>)
    requires from <= |s|
    ensures r.Some? ==> from <= r.value && OccursAt(s, pat, r.value)
    ensures r.Some? ==> forall j :: from <= j < r.value ==> !OccursAt(s, pat, j)
    ensures r.None? ==> forall j :: from <= j <= |s| ==> !OccursAt(s, pat, j)
    decreases |s| - from
  {
    if OccursAt(s, pat, from) then Some(from)
    else if from == |s| then None
    else IndexOfFrom(s, pat, from + 1)
  }

  /** `s.replace(pat, "")` with a string pattern: only the FIRST occurrence is removed. */
  function RemoveFirst(s: string, pat: string): (r: string)
    ensures (forall j :: 0 <= j <= |s| ==> !OccursAt(s, pat, j)) ==> r == s
    ensures forall i :: OccursAt(s, pat, i) && (forall j :: 0 <= j < i ==> !OccursAt(s, pat, j))
                ==> r == s[..i] + s[i + |pat|..]
  {
    match IndexOfFrom(s, pat, 0)
    case Some(i) => s[..i] + s[i + |pat|..]
    case None => s
  }

  /** Removing a suffix whose first occurrence is the suffix itself gives back the stem. */
  lemma RemoveFirstOfSuffix(stem: string, pat: string)
    requires forall j :: 0 <= j < |stem| ==> !OccursAt(stem + pat, pat, j)
    ensures RemoveFirst(stem + pat, pat) == stem
  {
    var s := stem + pat;
    assert s[|stem|..|stem| + |pat|] == pat;
    assert OccursAt(s, pat, |stem|);
    assert s[..|stem|] == stem;
  }

  /** The characters of `s` before the first `c` (all of `s` when there is none). */
  function TakeUntil(s: string, c: char): (r: string)
    ensures c !in r
    ensures |r| <= |s| && r == s[..|r|]
    ensures |r| == |s| || s[|r|] == c
  {
    if |s| == 0 || s[0] == c then [] else [s[0]] + TakeUntil(s[1..], c)
  }

  /**
   * `s.split('/')[1]`: the piece between the first and the second '/' (or the end);
   * `None` (JavaScript's `undefined`) when `s` has no '/'.
   */
  function SecondSegment(s: string): (r: Option<string>)
    ensures r.None? <==> '/' !in s
    ensures r.Some? ==> '/' !in r.value
  {
    var owner := TakeUntil(s, '/');
    if |owner| == |s| then None else Some(TakeUntil(s[|owner| + 1..], '/'))
  }

  lemma {:induction false} TakeUntilOf(head: string, c: char, rest: string)
    requires c !in head
    requires rest == [] || rest[0] == c
    ensures TakeUntil(head + rest, c) == head
  {
    if |head| > 0 {
      assert head[0] in head;
      assert (head + rest)[1..] == head[1..] + rest;
      TakeUntilOf(head[1..], c, rest);
    }
  }

  /** Every name with a '/' splits as owner '/' segment rest, and the second piece is the segment. */
  lemma SecondSegmentOf(owner: string, seg: string, rest: string)
    requires '/' !in owner && '/' !in seg
    requires rest == [] || rest[0] == '/'
    ensures SecondSegment(owner + "/" + seg + rest) == Some(seg)
  {
    var s := owner + "/" + seg + rest;
    assert s == owner + ("/" + seg + rest);
    TakeUntilOf(owner, '/', "/" + seg + rest);
    assert s[|owner| + 1..] == seg + rest;
    TakeUntilOf(seg, '/', rest);
  }

  /** The character of a decimal digit. */
  function DigitChar(d: nat): char
    requires d < 10
  {
    (48 + d) as char
  }

  predicate IsDigit(ch: char)
  {
    '0' <= ch <= '9'
  }

  function DigitValue(ch: char): nat
    requires IsDigit(ch)
  {
    ch as int - '0' as int
  }

  /** The shortest decimal numeral of `n`, as JavaScript writes an integer. */
  function NatToDecimal(n: nat): (s: string)
    ensures |s| >= 1
    ensures forall i :: 0 <= i < |s| ==> IsDigit(s[i])
    ensures n > 0 ==> s[0] != '0'
  {
    if n < 10 then [DigitChar(n)] else NatToDecimal(n / 10) + [DigitChar(n % 10)]
  }

  /** `${n}` for an integer `n`: a leading '-' for a negative number. */
  function IntToDecimal(n: int): string
  {
    if n < 0 then "-" + NatToDecimal(-n) else NatToDecimal(n)
  }

  /** The value of a string of decimal digits. */
  function DecimalValue(s: string): nat
    requires forall i :: 0 <= i < |s| ==> IsDigit(s[i])
  {
    if |s| == 0 then 0 else DecimalValue(s[..|s| - 1]) * 10 + DigitValue(s[|s| - 1])
  }

  /** Reads back an optionally signed decimal numeral. */
  function ParseInt(s: string): Option<int>
  {
    if |s| > 0 && s[0] == '-' then
      (if |s| > 1 && forall i :: 1 <= i < |s| ==> IsDigit(s[i]) then Some(0 - DecimalValue(s[1..]) as int) else None)
    else if |s| > 0 && forall i :: 0 <= i < |s| ==> IsDigit(s[i]) then Some(DecimalValue(s))
    else None
  }

  lemma {:induction false} NatToDecimalRoundTrip(n: nat)
    ensures DecimalValue(NatToDecimal(n)) == n
  {
    if n >= 10 {
      NatToDecimalRoundTrip(n / 10);
      var s := NatToDecimal(n);
      assert s[..|s| - 1] == NatToDecimal(n / 10);
    }
  }

  /** The rendering of an integer reads back as that integer. */
  lemma IntToDecimalRoundTrip(n: int)
    ensures ParseInt(IntToDecimal(n)) == Some(n)
  {
    var s := IntToDecimal(n);
    if n < 0 {
      var digits := NatToDecimal(-n);
      NatToDecimalRoundTrip(-n);
      assert s[1..] == digits;
      assert forall i :: 1 <= i < |s| ==> s[i] == digits[i - 1];
    } else {
      NatToDecimalRoundTrip(n);
      assert IsDigit(s[0]);
    }
  }
}
