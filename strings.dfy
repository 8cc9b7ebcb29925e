/**
 * The JavaScript string operations the widget relies on: `startsWith` at an
 * index, `indexOf`, `replace` with a string pattern (first occurrence only),
 * `trim`, and the decimal rendering of a non-negative integer.
 */
module Strings {
  import opened Wrappers

  /** `s.substring(i).startsWith(pat)`, for an index inside `s` or at its end. */
  predicate StartsAt(s: string, i: nat, pat: string) {
    i + |pat| <= |s| && s[i..i + |pat|] == pat
  }

  /** `s.indexOf(pat)`: the first index at which `pat` occurs, or None for -1. */
  function IndexOf(s: string, pat: string): (r: Option<nat>)
    ensures r.Some? ==> StartsAt(s, r.value, pat)
    decreases |s|
  {
    if StartsAt(s, 0, pat) then Some(0)
    else if s == [] then None
    else match IndexOf(s[1..], pat)
      case None => None
      case Some(i) => Some(i + 1)
  }

  lemma ShiftStartsAt(s: string, q: nat, pat: string)
    requires s != []
    ensures StartsAt(s, q + 1, pat) <==> StartsAt(s[1..], q, pat)
  {
    if q + 1 + |pat| <= |s| {
      assert s[1..][q..q + |pat|] == s[q + 1..q + 1 + |pat|];
    }
  }

  /** IndexOf finds the FIRST occurrence, and None means there is none at all. */
  lemma {:induction false} IndexOfIsFirst(s: string, pat: string)
    ensures IndexOf(s, pat).Some? ==>
              forall q :: 0 <= q < IndexOf(s, pat).value ==> !StartsAt(s, q, pat)
    ensures IndexOf(s, pat).None? ==> forall q :: 0 <= q <= |s| ==> !StartsAt(s, q, pat)
    decreases |s|
  {
    if StartsAt(s, 0, pat) {
    } else if s == [] {
    } else {
      IndexOfIsFirst(s[1..], pat);
      forall q | 1 <= q <= |s|
        ensures StartsAt(s, q, pat) <==> StartsAt(s[1..], q - 1, pat)
      {
        ShiftStartsAt(s, q - 1, pat);
      }
    }
  }

  /** An occurrence with none before it is the one IndexOf returns. */
  lemma IndexOfAt(s: string, pat: string, p: nat)
    requires StartsAt(s, p, pat)
    requires forall q :: 0 <= q < p ==> !StartsAt(s, q, pat)
    ensures IndexOf(s, pat) == Some(p)
  {
    IndexOfIsFirst(s, pat);
  }

  /**
   * `s.replace(pat, rep)` with a string pattern: only the first occurrence is
   * replaced, and `s` comes back unchanged when `pat` does not occur.
   */
  function ReplaceFirst(s: string, pat: string, rep: string): (r: string)
    ensures IndexOf(s, pat).None? ==> r == s
    ensures IndexOf(s, pat).Some? ==> |r| == |s| - |pat| + |rep|
  {
    match IndexOf(s, pat)
    case None => s
    case Some(i) => s[..i] + rep + s[i + |pat|..]
  }

  lemma ReplaceFirstAt(s: string, pat: string, rep: string, i: nat)
    requires IndexOf(s, pat) == Some(i)
    ensures ReplaceFirst(s, pat, rep) == s[..i] + rep + s[i + |pat|..]
  {
  }

  /** The text before the replaced occurrence is kept, and the replacement follows it. */
  lemma ReplaceFirstKeepsPrefix(s: string, pat: string, rep: string)
    requires IndexOf(s, pat).Some?
    ensures var i := IndexOf(s, pat).value;
            ReplaceFirst(s, pat, rep)[..i] == s[..i] &&
            ReplaceFirst(s, pat, rep)[i..i + |rep|] == rep
  {
  }

  /** Cutting `pat` out at `i` and putting `rep` there moves a later occurrence of `pat` by the length change. */
  lemma SpliceMovesLater(s: string, pat: string, rep: string, i: nat, q: nat)
    requires i + |pat| <= q
    requires StartsAt(s, q, pat)
    ensures StartsAt(s[..i] + rep + s[i + |pat|..], q - |pat| + |rep|, pat)
  {
    var head := s[..i] + rep;
    var tail := s[i + |pat|..];
    var d := q - i - |pat|;
    assert |head| == i + |rep|;
    assert (head + tail)[|head| + d..|head| + d + |pat|] == tail[d..d + |pat|];
    assert tail[d..d + |pat|] == s[q..q + |pat|];
  }

  /** Only the first occurrence is replaced: a later, non-overlapping one survives, shifted. */
  lemma ReplaceFirstLeavesLater(s: string, pat: string, rep: string, q: nat)
    requires IndexOf(s, pat).Some?
    requires IndexOf(s, pat).value + |pat| <= q
    requires StartsAt(s, q, pat)
    ensures StartsAt(ReplaceFirst(s, pat, rep), q - |pat| + |rep|, pat)
  {
    var i := IndexOf(s, pat).value;
    ReplaceFirstAt(s, pat, rep, i);
    SpliceMovesLater(s, pat, rep, i, q);
  }

  /**
   * The characters `String.prototype.trim` removes: the ECMAScript WhiteSpace
   * (tab, vertical tab, form feed, space, no-break space, byte order mark and
   * the other Zs space separators) and LineTerminator code points.
   */
  predicate IsWhitespace(c: char) {
    c == '\t' || c == '\n' || c == '\U{000B}' || c == '\U{000C}' || c == '\r' ||
    c == ' ' || c == '\U{00A0}' || c == '\U{1680}' ||
    ('\U{2000}' <= c <= '\U{200A}') ||
    c == '\U{2028}' || c == '\U{2029}' || c == '\U{202F}' || c == '\U{205F}' ||
    c == '\U{3000}' || c == '\U{FEFF}'
  }

  /** `trimStart`: the suffix left after dropping leading whitespace. */
  function TrimStart(s: string): (r: string)
    ensures |r| <= |s| && r == s[|s| - |r|..]
    ensures r == [] || !IsWhitespace(r[0])
    ensures forall i :: 0 <= i < |s| - |r| ==> IsWhitespace(s[i])
  {
    if s != [] && IsWhitespace(s[0]) then TrimStart(s[1..]) else s
  }

  /** `trimEnd`: the prefix left after dropping trailing whitespace. */
  function TrimEnd(s: string): (r: string)
    ensures |r| <= |s| && r == s[..|r|]
    ensures r == [] || !IsWhitespace(r[|r| - 1])
    ensures forall i :: |r| <= i < |s| ==> IsWhitespace(s[i])
  {
    if s != [] && IsWhitespace(s[|s| - 1]) then TrimEnd(s[..|s| - 1]) else s
  }

  /** `trim`: `s` without its leading and trailing whitespace. */
  function Trim(s: string): (r: string)
    ensures |r| <= |s|
    ensures r == [] || (!IsWhitespace(r[0]) && !IsWhitespace(r[|r| - 1]))
  {
    TrimEnd(TrimStart(s))
  }

  /** `trim` gives the empty string exactly when every character is whitespace. */
  lemma TrimEmptyIff(s: string)
    ensures Trim(s) == [] <==> forall i :: 0 <= i < |s| ==> IsWhitespace(s[i])
  {
  }

  /** A string that starts and ends with a non-whitespace character is its own trim. */
  lemma TrimKeepsNonBlankEnds(s: string)
    requires s != [] && !IsWhitespace(s[0]) && !IsWhitespace(s[|s| - 1])
    ensures Trim(s) == s
  {
    assert TrimStart(s) == s;
    assert TrimEnd(s) == s;
  }

  /** Trimming twice is trimming once. */
  lemma TrimIdempotent(s: string)
    ensures Trim(Trim(s)) == Trim(s)
  {
    var r := Trim(s);
    assert TrimStart(r) == r;
    assert TrimEnd(r) == r;
  }

  /** The character of a decimal digit. */
  function DigitChar(d: nat): (c: char)
    requires d < 10
    ensures '0' <= c <= '9' && (c - '0') as int == d
  {
    "0123456789"[d]
  }

  predicate IsDecimal(s: string) {
    forall i :: 0 <= i < |s| ==> '0' <= s[i] <= '9'
  }

  /** JavaScript's rendering of a non-negative integer (`"" + n`), in decimal. */
  function NatToDecimal(n: nat): (r: string)
    ensures r != [] && IsDecimal(r)
    ensures r[0] == '0' ==> n == 0
    decreases n
  {
    if n < 10 then [DigitChar(n)] else NatToDecimal(n / 10) + [DigitChar(n % 10)]
  }

  /** The number a string of decimal digits denotes. */
  function DecimalValue(s: string): nat
    requires IsDecimal(s)
  {
    if s == [] then 0 else DecimalValue(s[..|s| - 1]) * 10 + (s[|s| - 1] - '0') as int
  }

  /** Reading back the decimal rendering gives the number. */
  lemma {:induction false} DecimalRoundTrip(n: nat)
    ensures DecimalValue(NatToDecimal(n)) == n
    decreases n
  {
    if n >= 10 {
      DecimalRoundTrip(n / 10);
      var r := NatToDecimal(n);
      assert r[..|r| - 1] == NatToDecimal(n / 10);
    }
  }
}
