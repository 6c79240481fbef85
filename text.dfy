/**
 The string operations the traffic generator relies on: `str()` of a
 non-negative integer, `str.startswith` and `str.split` / `str.join` on a
 single-character separator.
 */
module Text {

  predicate IsDigit(c: char) {
    '0' <= c <= '9'
  }

  predicate AllDigits(s: string) {
    forall i :: 0 <= i < |s| ==> IsDigit(s[i])
  }

  function DigitChar(d: nat): (c: char)
    requires d < 10
    ensures IsDigit(c)
  {
    (d + '0' as int) as char
  }

  function DigitValue(c: char): (d: nat)
    requires IsDigit(c)
    ensures d < 10
    ensures DigitChar(d) == c
  {
    c as int - '0' as int
  }

  /** Python's `str(n)` for a non-negative integer: its decimal digits, no leading zeros. */
  function NatToString(n: nat): (s: string)
    ensures |s| > 0 && AllDigits(s)
    ensures |s| > 1 ==> s[0] != '0'
    decreases n
  {
    if n < 10 then [DigitChar(n)] else NatToString(n / 10) + [DigitChar(n % 10)]
  }

  /** The value of a string of decimal digits (the empty string reads as 0). */
  function ParseDigits(s: string): nat
    requires AllDigits(s)
  {
    if s == [] then 0 else ParseDigits(s[..|s| - 1]) * 10 + DigitValue(s[|s| - 1])
  }

  /** Reading back the digits that `NatToString` writes gives the number again. */
  lemma {:induction false} ParseNatToString(n: nat)
    ensures ParseDigits(NatToString(n)) == n
    decreases n
  {
    var s := NatToString(n);
    if n >= 10 {
      ParseNatToString(n / 10);
      assert s[..|s| - 1] == NatToString(n / 10);
    }
  }

  /** The length of the longest prefix of `s` made of decimal digits. */
  function DigitPrefix(s: string): (k: nat)
    ensures k <= |s|
    ensures AllDigits(s[..k])
    ensures k < |s| ==> !IsDigit(s[k])
  {
    if s == [] || !IsDigit(s[0]) then 0
    else
      var k := 1 + DigitPrefix(s[1..]);
      assert s[..k] == [s[0]] + s[1..][..k - 1];
      k
  }

  /** A digit string followed by anything that does not start with a digit is cut exactly there. */
  lemma {:induction false} DigitPrefixOfConcat(digits: string, rest: string)
    requires AllDigits(digits)
    requires rest == [] || !IsDigit(rest[0])
    ensures DigitPrefix(digits + rest) == |digits|
  {
    if digits != [] {
      assert (digits + rest)[1..] == digits[1..] + rest;
      DigitPrefixOfConcat(digits[1..], rest);
    }
  }

  /** Python's `s.startswith(prefix)`: `s` is `prefix` followed by something. */
  predicate StartsWith(s: string, prefix: string): (ok: bool)
    ensures ok <==> exists rest :: s == prefix + rest
  {
    PrefixSplit(s, prefix);
    |prefix| <= |s| && s[..|prefix|] == prefix
  }

  /** Comparing the first `|prefix|` characters decides whether `s` is `prefix` plus a rest. */
  lemma PrefixSplit(s: string, prefix: string)
    ensures (|prefix| <= |s| && s[..|prefix|] == prefix) <==> exists rest :: s == prefix + rest
  {
    if |prefix| <= |s| && s[..|prefix|] == prefix {
      assert s == prefix + s[|prefix|..];
    }
    forall rest | s == prefix + rest
      ensures |prefix| <= |s| && s[..|prefix|] == prefix
    {
      assert s[..|prefix|] == prefix;
    }
  }

  /** Python's `s.count(sep)` for a one-character `sep`. */
  function Count(s: string, sep: char): nat {
    if s == [] then 0 else (if s[0] == sep then 1 else 0) + Count(s[1..], sep)
  }

  /**
   Python's `s.split(sep)` for a one-character `sep`: the pieces between the
   separators, in order, empty pieces kept; `"".split(sep)` is `[""]`.
   */
  function Split(s: string, sep: char): (pieces: seq<string>)
    ensures |pieces| == Count(s, sep) + 1
    ensures forall i :: 0 <= i < |pieces| ==> sep !in pieces[i]
    decreases |s|
  {
    if s == [] then [""]
    else
      var rest := Split(s[1..], sep);
      if s[0] == sep then [""] + rest
      else [[s[0]] + rest[0]] + rest[1..]
  }

  /** Python's `sep.join(pieces)`. */
  function Join(pieces: seq<string>, sep: char): string {
    if pieces == [] then ""
    else if |pieces| == 1 then pieces[0]
    else pieces[0] + [sep] + Join(pieces[1..], sep)
  }

  /** Joining the pieces back with the separator reproduces the text that was split. */
  lemma {:induction false} JoinSplit(s: string, sep: char)
    ensures Join(Split(s, sep), sep) == s
    decreases |s|
  {
    if s != [] {
      var rest := Split(s[1..], sep);
      JoinSplit(s[1..], sep);
      if s[0] != sep {
        var pieces := Split(s, sep);
        assert pieces[0] == [s[0]] + rest[0] && pieces[1..] == rest[1..];
        if |rest| > 1 {
          assert Join(rest, sep) == rest[0] + [sep] + Join(rest[1..], sep);
        }
      }
    }
  }

  /** Conversely, splitting a join of separator-free pieces gives the same pieces back. */
  lemma {:induction false} SplitJoin(pieces: seq<string>, sep: char)
    requires |pieces| >= 1
    requires forall i :: 0 <= i < |pieces| ==> sep !in pieces[i]
    ensures Split(Join(pieces, sep), sep) == pieces
    decreases |pieces|
  {
    var p := pieces[0];
    if |pieces| == 1 {
      SplitPiece(p, [], sep);
    } else {
      SplitJoin(pieces[1..], sep);
      SplitPiece(p, pieces[1..], sep);
    }
  }

  /** Splitting `p + sep + Join(tail)` for a separator-free `p`. */
  lemma {:induction false} SplitPiece(p: string, tail: seq<string>, sep: char)
    requires sep !in p
    requires tail != [] ==> Split(Join(tail, sep), sep) == tail
    ensures Split(if tail == [] then p else p + [sep] + Join(tail, sep), sep) == [p] + tail
    decreases |p|
  {
    var s := if tail == [] then p else p + [sep] + Join(tail, sep);
    if p == [] {
      if tail != [] {
        assert s[1..] == Join(tail, sep);
      }
    } else {
      SplitPiece(p[1..], tail, sep);
      var s' := if tail == [] then p[1..] else p[1..] + [sep] + Join(tail, sep);
      assert s[0] == p[0] && s[1..] == s';
      assert p == [p[0]] + p[1..];
    }
  }
}
