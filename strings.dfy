/**
 * The few Python string built-ins the collector relies on: slicing a prefix
 * (`s[:n]`), rendering a positive integer in decimal (`str(i)` inside an
 * f-string) and joining with a separator (`sep.join(parts)`).
 */
module Strings {

  /** Python's `s[:n]` for `n >= 0`: the first `n` characters, or all of `s` when it is shorter. */
  function Take(s: string, n: nat): (r: string)
    ensures |r| <= n
    ensures r <= s
    ensures |s| <= n ==> r == s
    ensures n < |s| ==> |r| == n
  {
    if |s| <= n then s else s[..n]
  }

  predicate IsDigit(c: char)
  {
    '0' <= c <= '9'
  }

  function DigitChar(d: nat): (c: char)
    requires d < 10
    ensures IsDigit(c)
  {
    (48 + d) as char
  }

  function DigitValue(c: char): (d: nat)
    requires IsDigit(c)
    ensures d < 10 && DigitChar(d) == c
  {
    (c as int) - 48
  }

  /** The decimal numeral of `n`, as Python's `str(n)` writes it: no sign, no leading zero. */
  function Decimal(n: nat): (r: string)
    ensures |r| >= 1
    ensures forall k :: 0 <= k < |r| ==> IsDigit(r[k])
    ensures n > 0 ==> r[0] != '0'
    decreases n
  {
    if n < 10 then [DigitChar(n)] else Decimal(n / 10) + [DigitChar(n % 10)]
  }

  /** Reads a numeral back, most significant digit first. */
  function ParseDigits(s: string): nat
    requires forall k :: 0 <= k < |s| ==> IsDigit(s[k])
  {
    if s == [] then 0 else ParseDigits(s[..|s| - 1]) * 10 + DigitValue(s[|s| - 1])
  }

  /** `Decimal` loses nothing: its numeral reads back as the number. */
  lemma {:induction false} ParseDecimal(n: nat)
    ensures ParseDigits(Decimal(n)) == n
    decreases n
  {
    var s := Decimal(n);
    if n < 10 {
      assert s[..|s| - 1] == [];
    } else {
      assert s[..|s| - 1] == Decimal(n / 10);
      ParseDecimal(n / 10);
    }
  }

  /** Two different numbers never share a numeral. */
  lemma DecimalInjective(m: nat, n: nat)
    requires Decimal(m) == Decimal(n)
    ensures m == n
  {
    ParseDecimal(m);
    ParseDecimal(n);
  }

  /** The length of the run of digits that `s` starts with. */
  function DigitRun(s: string): (k: nat)
    ensures k <= |s|
    ensures forall j :: 0 <= j < k ==> IsDigit(s[j])
    ensures k < |s| ==> !IsDigit(s[k])
  {
    if s == [] || !IsDigit(s[0]) then 0 else 1 + DigitRun(s[1..])
  }

  /** A numeral followed by anything that does not start with a digit: the run is the numeral. */
  lemma {:induction false} DigitRunOfNumeral(d: string, rest: string)
    requires forall k :: 0 <= k < |d| ==> IsDigit(d[k])
    requires rest == [] || !IsDigit(rest[0])
    ensures DigitRun(d + rest) == |d|
  {
    if d != [] {
      assert (d + rest)[1..] == d[1..] + rest;
      DigitRunOfNumeral(d[1..], rest);
    } else {
      assert d + rest == rest;
    }
  }

  /** Python's `sep.join(parts)`: the parts in order, with `sep` between neighbours only. */
  function Join(sep: string, parts: seq<string>): string
  {
    if |parts| == 0 then ""
    else if |parts| == 1 then parts[0]
    else parts[0] + sep + Join(sep, parts[1..])
  }

  /** Where `parts[k]` starts inside `Join(sep, parts)`. */
  function Offset(sep: string, parts: seq<string>, k: nat): nat
    requires k <= |parts|
  {
    if k == 0 then 0 else |parts[0]| + |sep| + Offset(sep, parts[1..], k - 1)
  }

  /** The sum of the lengths of `parts`. */
  function TotalLength(parts: seq<string>): nat
  {
    if parts == [] then 0 else |parts[0]| + TotalLength(parts[1..])
  }

  /** The joined text is exactly as long as the parts plus one separator between each pair. */
  lemma {:induction false} JoinLength(sep: string, parts: seq<string>)
    requires parts != []
    ensures |Join(sep, parts)| == TotalLength(parts) + |sep| * (|parts| - 1)
  {
    if |parts| > 1 {
      JoinLength(sep, parts[1..]);
    } else {
      assert parts[1..] == [];
    }
  }

  /** Each part appears, unchanged, at its offset. */
  lemma {:induction false} JoinAt(sep: string, parts: seq<string>, k: nat)
    requires k < |parts|
    ensures Offset(sep, parts, k) + |parts[k]| <= |Join(sep, parts)|
    ensures Join(sep, parts)[Offset(sep, parts, k)..Offset(sep, parts, k) + |parts[k]|] == parts[k]
  {
    if |parts| == 1 {
      assert Join(sep, parts) == parts[0];
    } else {
      var tail := Join(sep, parts[1..]);
      var shift := parts[0] + sep;
      assert Join(sep, parts) == shift + tail;
      if k == 0 {
        assert Join(sep, parts) == parts[0] + (sep + tail);
      } else {
        JoinAt(sep, parts[1..], k - 1);
        var o := Offset(sep, parts[1..], k - 1);
        assert parts[1..][k - 1] == parts[k];
        assert Offset(sep, parts, k) == |shift| + o;
        SliceRight(shift, tail, o, o + |parts[k]|);
      }
    }
  }

  /**
   * The part after `parts[k]` starts one separator later, and the separator
   * sits between them; the last part ends the joined text.
   */
  lemma {:induction false} JoinNext(sep: string, parts: seq<string>, k: nat)
    requires k < |parts|
    ensures k + 1 < |parts| ==>
      Offset(sep, parts, k + 1) == Offset(sep, parts, k) + |parts[k]| + |sep| <= |Join(sep, parts)| &&
      Join(sep, parts)[Offset(sep, parts, k) + |parts[k]|..Offset(sep, parts, k + 1)] == sep
    ensures k + 1 == |parts| ==> Offset(sep, parts, k) + |parts[k]| == |Join(sep, parts)|
  {
    if |parts| == 1 {
      assert Join(sep, parts) == parts[0];
    } else {
      var tail := Join(sep, parts[1..]);
      var shift := parts[0] + sep;
      assert Join(sep, parts) == shift + tail;
      if k == 0 {
        OffsetOne(sep, parts);
        JoinAt(sep, parts[1..], 0);
        assert Join(sep, parts) == parts[0] + sep + tail;
        SliceMiddle(parts[0], sep, tail);
      } else {
        JoinNext(sep, parts[1..], k - 1);
        assert parts[1..][k - 1] == parts[k];
        var o := Offset(sep, parts[1..], k - 1);
        assert Offset(sep, parts, k) == |shift| + o;
        if k + 1 < |parts| {
          var o' := Offset(sep, parts[1..], k);
          assert Offset(sep, parts, k + 1) == |shift| + o';
          SliceRight(shift, tail, o + |parts[k]|, o');
        }
      }
    }
  }

  lemma OffsetOne(sep: string, parts: seq<string>)
    requires |parts| >= 1
    ensures Offset(sep, parts, 1) == |parts[0]| + |sep|
  {
    assert Offset(sep, parts[1..], 0) == 0;
  }

  /** A slice of the right operand of a concatenation, seen through the concatenation. */
  lemma SliceRight(x: string, y: string, i: nat, j: nat)
    requires i <= j <= |y|
    ensures (x + y)[|x| + i..|x| + j] == y[i..j]
  {
  }

  /** The middle operand of a three-way concatenation, seen through it. */
  lemma SliceMiddle(x: string, y: string, z: string)
    ensures (x + y + z)[|x|..|x| + |y|] == y
  {
    assert x + y + z == x + (y + z);
    SliceRight(x, y + z, 0, |y|);
  }

  /** `JoinAt`, seen through text `h` put in front of the joined parts. */
  lemma PrefixedJoinAt(h: string, sep: string, parts: seq<string>, k: nat)
    requires k < |parts|
    ensures |h| + Offset(sep, parts, k) + |parts[k]| <= |h + Join(sep, parts)|
    ensures (h + Join(sep, parts))[|h| + Offset(sep, parts, k)..|h| + Offset(sep, parts, k) + |parts[k]|] == parts[k]
  {
    var o := Offset(sep, parts, k);
    JoinAt(sep, parts, k);
    SliceRight(h, Join(sep, parts), o, o + |parts[k]|);
  }

  /** `JoinNext`, seen through text `h` put in front of the joined parts. */
  lemma PrefixedJoinNext(h: string, sep: string, parts: seq<string>, k: nat)
    requires k < |parts|
    ensures var end := |h| + Offset(sep, parts, k) + |parts[k]|;
      if k + 1 < |parts| then
        |h| + Offset(sep, parts, k + 1) == end + |sep| <= |h + Join(sep, parts)| &&
        (h + Join(sep, parts))[end..end + |sep|] == sep
      else
        end == |h + Join(sep, parts)|
  {
    var o := Offset(sep, parts, k);
    JoinNext(sep, parts, k);
    if k + 1 < |parts| {
      SliceRight(h, Join(sep, parts), o + |parts[k]|, o + |parts[k]| + |sep|);
    }
  }

  /** A concatenation splits back into its operands. */
  lemma SplitAt(x: string, y: string)
    ensures (x + y)[..|x|] == x && (x + y)[|x|..] == y
  {
  }

  /** A slice inside the left operand of a concatenation, seen through the concatenation. */
  lemma SliceLeft(x: string, y: string, i: nat, j: nat)
    requires i <= j <= |x|
    ensures (x + y)[i..j] == x[i..j]
  {
  }

  /** A three-way concatenation splits back into its operands. */
  lemma SplitThree(x: string, y: string, z: string)
    ensures |x| + |y| <= |x + y + z|
    ensures (x + y + z)[..|x|] == x
    ensures (x + y + z)[|x|..|x| + |y|] == y
    ensures (x + y + z)[|x| + |y|..] == z
  {
    SplitAt(x + y, z);
    SplitAt(x, y);
    SliceLeft(x + y, z, 0, |x|);
    SliceLeft(x + y, z, |x|, |x| + |y|);
  }
}
