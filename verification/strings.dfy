/**
 * The parts of java.lang.String, Integer and StringJoiner the schematic
 * format relies on: decimal printing and parsing of integers, the regular
 * expression -?\d+, String.split on one character, joining with one
 * character, endsWith and contains.
 */
module Strings {
  import opened Wrappers

  const INT_MIN: int := -0x8000_0000
  const INT_MAX: int := 0x7fff_ffff

  predicate IsDigit(c: char) {
    '0' <= c <= '9'
  }

  predicate AllDigits(s: string) {
    forall i :: 0 <= i < |s| ==> IsDigit(s[i])
  }

  function DigitChar(d: nat): (c: char)
    requires d < 10
    ensures IsDigit(c)
  {
    ('0' as int + d) as char
  }

  function DigitValue(c: char): (d: nat)
    requires IsDigit(c)
    ensures d < 10
  {
    c as int - '0' as int
  }

  /** Integer.toString of a non-negative value: its decimal digits, without a leading zero. */
  function NatStr(n: nat): (s: string)
    ensures |s| > 0 && AllDigits(s)
    ensures |s| > 1 ==> s[0] != '0'
  {
    if n < 10 then [DigitChar(n)] else NatStr(n / 10) + [DigitChar(n % 10)]
  }

  /** Integer.toString: a minus sign before the digits of a negative value. */
  function IntStr(i: int): (s: string)
    ensures |s| > 0
    ensures (s[0] == '-') == (i < 0)
  {
    if i < 0 then "-" + NatStr(-i) else NatStr(i)
  }

  /** The value of a run of decimal digits read from the left, after the digits already worth acc. */
  function DigitsValueFrom(acc: nat, d: string): nat
    requires AllDigits(d)
    decreases |d|
  {
    if d == [] then acc else DigitsValueFrom(10 * acc + DigitValue(d[0]), d[1..])
  }

  /** The value of a run of decimal digits. */
  function DigitsValue(d: string): nat
    requires AllDigits(d)
  {
    DigitsValueFrom(0, d)
  }

  /** One more digit on the right multiplies the value by ten and adds the digit. */
  lemma {:induction false} DigitsValueSnoc(acc: nat, d: string, c: char)
    requires AllDigits(d) && IsDigit(c)
    ensures AllDigits(d + [c])
    ensures DigitsValueFrom(acc, d + [c]) == 10 * DigitsValueFrom(acc, d) + DigitValue(c)
    decreases |d|
  {
    if d == [] {
      assert [] + [c] == [c];
      assert [c][1..] == [];
    } else {
      assert (d + [c])[1..] == d[1..] + [c];
      DigitsValueSnoc(10 * acc + DigitValue(d[0]), d[1..], c);
    }
  }

  /** Reading back the digits NatStr prints gives the number printed. */
  lemma {:induction false} NatStrValue(n: nat)
    ensures DigitsValue(NatStr(n)) == n
  {
    if n < 10 {
      var d := NatStr(n);
      assert d[1..] == [];
      assert DigitValue(d[0]) == n;
      assert DigitsValueFrom(0, d) == DigitsValueFrom(n, []);
    } else {
      NatStrValue(n / 10);
      DigitsValueSnoc(0, NatStr(n / 10), DigitChar(n % 10));
    }
  }

  /**
   * The digits of s from position i on, as far as they go, read into a
   * value (after the digits already worth acc), with the position of the
   * first character that is not a digit.
   */
  function ReadDigits(s: string, i: nat, acc: nat): (r: (nat, nat))
    requires i <= |s|
    ensures i <= r.1 <= |s|
    ensures i < |s| && IsDigit(s[i]) ==> i < r.1
    ensures r.1 < |s| ==> !IsDigit(s[r.1])
    decreases |s| - i
  {
    if i < |s| && IsDigit(s[i]) then ReadDigits(s, i + 1, 10 * acc + DigitValue(s[i])) else (acc, i)
  }

  /** A run of digits d at position i, followed by a non-digit or the end, is read as exactly d. */
  lemma {:induction false} ReadDigitsOf(s: string, i: nat, d: string, acc: nat)
    requires AllDigits(d) && OccursAt(s, d, i)
    requires i + |d| == |s| || !IsDigit(s[i + |d|])
    ensures ReadDigits(s, i, acc) == (DigitsValueFrom(acc, d), i + |d|)
    decreases |d|
  {
    if d != [] {
      assert s[i] == d[0];
      assert OccursAt(s, d[1..], i + 1) by {
        forall j | 0 <= j < |d[1..]| ensures s[i + 1 + j] == d[1..][j] {
          assert s[i + (j + 1)] == d[j + 1];
        }
      }
      ReadDigitsOf(s, i + 1, d[1..], 10 * acc + DigitValue(d[0]));
    }
  }

  /**
   * The regular expression -?\d+ matched at position i (greedy, so the digit
   * run is maximal): the value it denotes and the position just after it.
   */
  function MatchSigned(s: string, i: nat): (r: Option<(int, nat)>)
    requires i <= |s|
    ensures r.Some? ==> i < r.value.1 <= |s|
  {
    var negative := i < |s| && s[i] == '-';
    var start := if negative then i + 1 else i;
    if start < |s| && IsDigit(s[start]) then
      var (v, e) := ReadDigits(s, start, 0);
      Some((if negative then -(v as int) else v, e))
    else None
  }

  /** What IntStr prints, found at position i of s and followed by a non-digit, is matched by -?\d+ there and read back as the same value. */
  lemma MatchSignedIn(s: string, i: nat, v: int, e: nat)
    requires OccursAt(s, IntStr(v), i) && e == i + |IntStr(v)|
    requires e == |s| || !IsDigit(s[e])
    ensures MatchSigned(s, i) == Some((v, e))
  {
    var n: nat := if v < 0 then -v else v;
    var d := NatStr(n);
    var start := if v < 0 then i + 1 else i;
    assert IntStr(v) == if v < 0 then "-" + d else d;
    assert OccursAt(s, d, start) by {
      forall j | 0 <= j < |d| ensures s[start + j] == d[j] {
        if v < 0 {
          assert s[i + (j + 1)] == IntStr(v)[j + 1];
        } else {
          assert s[i + j] == IntStr(v)[j];
        }
      }
    }
    assert s[i] == IntStr(v)[0];
    assert s[start] == d[0];
    ReadDigitsOf(s, start, d, 0);
    NatStrValue(n);
  }

  /**
   * Integer.parseInt: an optional sign, then one or more decimal digits whose
   * value fits in 32 bits; None stands for the NumberFormatException it throws
   * otherwise.
   */
  function ParseInt(s: string): (r: Option<int>)
    ensures r.Some? ==> INT_MIN <= r.value <= INT_MAX
    ensures r.Some? ==> |s| > 0 && (AllDigits(s) || s[0] == '-' || s[0] == '+')
    ensures r.Some? && AllDigits(s) ==> r.value == DigitsValue(s)
    ensures r.Some? && !AllDigits(s) ==>
      |s| > 1 && AllDigits(s[1..]) &&
      r.value == (if s[0] == '-' then -(DigitsValue(s[1..]) as int) else DigitsValue(s[1..]))
    ensures |s| > 0 && AllDigits(s) && DigitsValue(s) <= INT_MAX ==> r == Some(DigitsValue(s))
  {
    var signed := |s| > 0 && (s[0] == '-' || s[0] == '+');
    var digits := if signed then s[1..] else s;
    if |digits| == 0 || !AllDigits(digits) then None
    else
      var v: int := if signed && s[0] == '-' then -(DigitsValue(digits) as int) else DigitsValue(digits);
      if INT_MIN <= v <= INT_MAX then Some(v) else None
  }

  /** Integer.parseInt reads back what Integer.toString prints, for every 32-bit value. */
  lemma ParseIntIntStr(v: int)
    requires INT_MIN <= v <= INT_MAX
    ensures ParseInt(IntStr(v)) == Some(v)
  {
    var n: nat := if v < 0 then -v else v;
    NatStrValue(n);
    assert IsDigit(NatStr(n)[0]);
    if v < 0 {
      assert IntStr(v)[1..] == NatStr(n);
    }
  }

  /** s cut at every occurrence of c, keeping every piece, empty ones included. */
  function Pieces(s: string, c: char): (r: seq<string>)
    ensures |r| > 0
  {
    if s == [] then [[]]
    else
      var rest := Pieces(s[1..], c);
      if s[0] == c then [[]] + rest else [[s[0]] + rest[0]] + rest[1..]
  }

  /** StringJoiner with a one-character delimiter: the pieces with c between consecutive ones. */
  function Join(ts: seq<string>, c: char): string
  {
    if ts == [] then [] else if |ts| == 1 then ts[0] else ts[0] + [c] + Join(ts[1..], c)
  }

  /** The pieces with trailing empty pieces removed. */
  function DropTrailingEmpty(ps: seq<string>): (r: seq<string>)
    ensures |r| <= |ps| && r == ps[..|r|]
    ensures r != [] ==> r[|r| - 1] != []
    ensures forall i :: |r| <= i < |ps| ==> ps[i] == []
  {
    if ps != [] && ps[|ps| - 1] == [] then DropTrailingEmpty(ps[..|ps| - 1]) else ps
  }

  /**
   * String.split with a one-character pattern and no limit: the pieces
   * between occurrences of c, with trailing empty pieces removed, except that
   * the empty string splits into one empty piece.
   */
  function JavaSplit(s: string, c: char): seq<string>
  {
    if s == [] then [[]] else DropTrailingEmpty(Pieces(s, c))
  }

  /** A string without the delimiter is a single piece. */
  lemma {:induction false} PiecesNoDelimiter(a: string, c: char)
    requires c !in a
    ensures Pieces(a, c) == [a]
  {
    if a != [] {
      PiecesNoDelimiter(a[1..], c);
      assert [a[0]] + a[1..] == a;
    }
  }

  /** Cutting a + c + b: a delimiter-free prefix a becomes the first piece. */
  lemma {:induction false} PiecesAfterDelimiter(a: string, c: char, b: string)
    requires c !in a
    ensures Pieces(a + [c] + b, c) == [a] + Pieces(b, c)
  {
    var s := a + [c] + b;
    if a == [] {
      assert s[1..] == b;
    } else {
      assert s[1..] == a[1..] + [c] + b;
      PiecesAfterDelimiter(a[1..], c, b);
      assert [a[0]] + a[1..] == a;
    }
  }

  /** Cutting a join gives back the pieces that were joined, when none holds the delimiter. */
  lemma {:induction false} PiecesOfJoin(ts: seq<string>, c: char)
    requires |ts| > 0
    requires forall i :: 0 <= i < |ts| ==> c !in ts[i]
    ensures Pieces(Join(ts, c), c) == ts
  {
    if |ts| == 1 {
      PiecesNoDelimiter(ts[0], c);
    } else {
      PiecesAfterDelimiter(ts[0], c, Join(ts[1..], c));
      PiecesOfJoin(ts[1..], c);
      assert [ts[0]] + ts[1..] == ts;
    }
  }

  /** A join starts with its first piece. */
  lemma {:induction false} JoinStartsWithFirst(ts: seq<string>, c: char)
    requires |ts| > 0
    ensures |Join(ts, c)| >= |ts[0]| && Join(ts, c)[..|ts[0]|] == ts[0]
  {
  }

  /**
   * String.split undoes StringJoiner when every piece is non-empty and free
   * of the delimiter, and there is at least one piece.
   */
  lemma SplitJoin(ts: seq<string>, c: char)
    requires |ts| > 0
    requires forall i :: 0 <= i < |ts| ==> ts[i] != [] && c !in ts[i]
    ensures JavaSplit(Join(ts, c), c) == ts
  {
    PiecesOfJoin(ts, c);
    JoinStartsWithFirst(ts, c);
    assert Join(ts, c) != [];
  }

  /** String.endsWith. */
  predicate EndsWith(s: string, suffix: string) {
    |suffix| <= |s| && s[|s| - |suffix|..] == suffix
  }

  /** part occurs in s starting at position i. */
  predicate OccursAt(s: string, part: string, i: int) {
    0 <= i <= |s| - |part| && forall j :: 0 <= j < |part| ==> s[i + j] == part[j]
  }

  /** String.contains with a string argument. */
  predicate HasSubstring(s: string, part: string) {
    exists i | 0 <= i <= |s| - |part| :: OccursAt(s, part, i)
  }
}
