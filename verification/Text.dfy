/**
 * The small part of Go's `strings` and `strconv` packages that the gateway
 * clients rely on, over `string == seq<char>`.  Each helper is specified by
 * what it guarantees rather than by its recursion, and the decimal and
 * hexadecimal renderers come with their parsers so that round trips can be
 * stated.
 */
module Text {

  import opened Wrappers

  // ---------------------------------------------------------------------------
  // Prefixes, substrings, splitting
  // ---------------------------------------------------------------------------

  /** strings.HasPrefix */
  predicate HasPrefix(s: string, p: string) {
    |p| <= |s| && s[..|p|] == p
  }

  /** strings.HasSuffix */
  predicate HasSuffix(s: string, p: string) {
    |p| <= |s| && s[|s| - |p|..] == p
  }

  /** strings.Contains: some position of `s` starts with `sub`. */
  predicate Contains(s: string, sub: string)
    decreases |s|
  {
    HasPrefix(s, sub) || (|s| > 0 && Contains(s[1..], sub))
  }

  lemma {:induction false} ContainsAt(s: string, sub: string, i: nat)
    requires i + |sub| <= |s| && s[i..i + |sub|] == sub
    ensures Contains(s, sub)
    decreases i
  {
    if i > 0 {
      assert s[1..][i - 1..i - 1 + |sub|] == sub;
      ContainsAt(s[1..], sub, i - 1);
    }
  }

  /** The number of occurrences of `c` in `s`. */
  function CountChar(s: string, c: char): nat {
    if s == [] then 0 else (if s[0] == c then 1 else 0) + CountChar(s[1..], c)
  }

  /** `c` occurs nowhere exactly when it is counted zero times. */
  lemma {:induction false} CountCharZero(s: string, c: char)
    ensures CountChar(s, c) == 0 <==> c !in s
  {
    if s != [] {
      CountCharZero(s[1..], c);
      assert s == [s[0]] + s[1..];
    }
  }

  /** `strings.SplitN(s, string(c), 2)[0]`: the text before the first `c`. */
  function BeforeFirst(s: string, c: char): (r: string)
    ensures c !in r
    ensures HasPrefix(s, r)
    ensures |r| < |s| ==> s[|r|] == c
  {
    if s == [] || s[0] == c then [] else [s[0]] + BeforeFirst(s[1..], c)
  }

  lemma {:induction false} BeforeFirstOfJoin(s: string, c: char, t: string)
    requires c !in s
    ensures BeforeFirst(s + [c] + t, c) == s
  {
    if s != [] {
      assert (s + [c] + t)[1..] == s[1..] + [c] + t;
      BeforeFirstOfJoin(s[1..], c, t);
    }
  }

  lemma {:induction false} BeforeFirstNoSep(s: string, c: char)
    requires c !in s
    ensures BeforeFirst(s, c) == s
  {
    if s != [] {
      BeforeFirstNoSep(s[1..], c);
    }
  }

  /** strings.Split with a one-character separator. */
  function Split(s: string, c: char): (parts: seq<string>)
    ensures |parts| == CountChar(s, c) + 1
    ensures forall i :: 0 <= i < |parts| ==> c !in parts[i]
  {
    if s == [] then [""]
    else
      var rest := Split(s[1..], c);
      if s[0] == c then [""] + rest else [[s[0]] + rest[0]] + rest[1..]
  }

  /** strings.Join with a one-character separator: the inverse of Split. */
  function Join(parts: seq<string>, c: char): string
    requires |parts| >= 1
  {
    if |parts| == 1 then parts[0] else parts[0] + [c] + Join(parts[1..], c)
  }

  lemma {:induction false} JoinSplit(s: string, c: char)
    ensures Join(Split(s, c), c) == s
  {
    if s != [] {
      JoinSplit(s[1..], c);
      var rest := Split(s[1..], c);
      if s[0] != c {
        if |rest| == 1 {
        } else {
          assert ([s[0]] + rest[0]) + [c] + Join(rest[1..], c)
              == [s[0]] + (rest[0] + [c] + Join(rest[1..], c));
        }
      }
    }
  }

  lemma {:induction false} SplitJoin(parts: seq<string>, c: char)
    requires |parts| >= 1
    requires forall i :: 0 <= i < |parts| ==> c !in parts[i]
    ensures Split(Join(parts, c), c) == parts
    decreases |parts|, |parts[0]|
  {
    if parts[0] == [] {
      if |parts| > 1 {
        assert Join(parts, c) == [c] + Join(parts[1..], c);
        SplitJoin(parts[1..], c);
        assert Join(parts, c)[1..] == Join(parts[1..], c);
      }
    } else {
      var tail := [parts[0][1..]] + parts[1..];
      assert Join(parts, c) == [parts[0][0]] + Join(tail, c) by {
        if |parts| > 1 {
          assert tail[1..] == parts[1..];
          assert parts[0] == [parts[0][0]] + parts[0][1..];
        }
      }
      assert forall i :: 0 <= i < |tail| ==> c !in tail[i];
      SplitJoin(tail, c);
      assert Join(parts, c)[1..] == Join(tail, c);
      assert [parts[0][0]] + parts[0][1..] == parts[0];
      assert [parts[0]] + parts[1..] == parts;
    }
  }

  // ---------------------------------------------------------------------------
  // White space and case
  // ---------------------------------------------------------------------------

  /** Go's unicode.IsSpace: the Latin-1 spaces plus Unicode's White_Space. */
  predicate IsSpace(c: char) {
    c == ' ' || c == '\t' || c == '\n' || c == '\U{000B}' || c == '\U{000C}' || c == '\r'
    || c == '\U{0085}' || c == '\U{00A0}' || c == '\U{1680}'
    || ('\U{2000}' <= c <= '\U{200A}')
    || c == '\U{2028}' || c == '\U{2029}' || c == '\U{202F}' || c == '\U{205F}' || c == '\U{3000}'
  }

  function TrimLeft(s: string): (r: string)
    ensures r == [] || !IsSpace(r[0])
    ensures |r| <= |s| && r == s[|s| - |r|..]
    ensures forall k :: 0 <= k < |s| - |r| ==> IsSpace(s[k])
  {
    if s != [] && IsSpace(s[0]) then
      var t := TrimLeft(s[1..]);
      assert s[1..][|s| - 1 - |t|..] == s[|s| - |t|..];
      t
    else s
  }

  function TrimRight(s: string): (r: string)
    ensures r == [] || !IsSpace(r[|r| - 1])
    ensures HasPrefix(s, r)
    ensures forall k :: |r| <= k < |s| ==> IsSpace(s[k])
  {
    if s != [] && IsSpace(s[|s| - 1]) then TrimRight(s[..|s| - 1]) else s
  }

  /** strings.TrimSpace */
  function TrimSpace(s: string): (r: string)
    ensures r == [] || (!IsSpace(r[0]) && !IsSpace(r[|r| - 1]))
  {
    var l := TrimLeft(s);
    var r := TrimRight(l);
    assert r != [] ==> r[0] == l[0];
    r
  }

  /**
   * strings.TrimSpace cuts white space at both ends and nothing else: with
   * the ensures of TrimSpace (the result starts and ends with non-space)
   * this pins the result down.
   */
  lemma TrimSpaceIsSlice(s: string)
    ensures exists i, j :: 0 <= i <= j <= |s| && TrimSpace(s) == s[i..j]
              && (forall k :: 0 <= k < i ==> IsSpace(s[k])) && (forall k :: j <= k < |s| ==> IsSpace(s[k]))
  {
    SliceBetweenSpaces(s, TrimLeft(s), TrimRight(TrimLeft(s)));
  }

  /** A prefix `r` of a suffix `l` of `s`, with white space cut at both ends, is such a slice. */
  lemma SliceBetweenSpaces(s: string, l: string, r: string)
    requires |l| <= |s| && l == s[|s| - |l|..] && forall k :: 0 <= k < |s| - |l| ==> IsSpace(s[k])
    requires HasPrefix(l, r) && forall k :: |r| <= k < |l| ==> IsSpace(l[k])
    ensures exists i, j :: 0 <= i <= j <= |s| && r == s[i..j]
              && (forall k :: 0 <= k < i ==> IsSpace(s[k])) && (forall k :: j <= k < |s| ==> IsSpace(s[k]))
  {
    var i := |s| - |l|;
    var j := i + |r|;
    assert r == s[i..j];
    forall k | j <= k < |s|
      ensures IsSpace(s[k])
    {
      assert s[k] == l[k - i];
    }
  }

  lemma TrimLeftNoop(s: string)
    requires s == [] || !IsSpace(s[0])
    ensures TrimLeft(s) == s
  {
  }

  lemma TrimRightNoop(s: string)
    requires s == [] || !IsSpace(s[|s| - 1])
    ensures TrimRight(s) == s
  {
  }

  /** Trimming already trimmed text changes nothing. */
  lemma TrimSpaceIdempotent(s: string)
    ensures TrimSpace(TrimSpace(s)) == TrimSpace(s)
  {
    var t := TrimSpace(s);
    TrimLeftNoop(t);
    TrimRightNoop(t);
  }

  /** The characters of `s` that are not white space, in order. */
  function NonSpace(s: string): (r: string)
    ensures |r| <= |s|
  {
    if s == [] then [] else (if IsSpace(s[0]) then [] else [s[0]]) + NonSpace(s[1..])
  }

  lemma {:induction false} NonSpaceAppend(a: string, b: string)
    ensures NonSpace(a + b) == NonSpace(a) + NonSpace(b)
  {
    if a == [] {
      assert a + b == b;
    } else {
      assert (a + b)[0] == a[0];
      assert (a + b)[1..] == a[1..] + b;
      NonSpaceAppend(a[1..], b);
    }
  }

  lemma {:induction false} NonSpaceOfSpaces(s: string)
    requires forall k :: 0 <= k < |s| ==> IsSpace(s[k])
    ensures NonSpace(s) == []
  {
    if s != [] {
      NonSpaceOfSpaces(s[1..]);
    }
  }

  /** Trimming only ever removes white space. */
  lemma NonSpaceTrim(s: string)
    ensures NonSpace(TrimSpace(s)) == NonSpace(s)
  {
    TrimSpaceIsSlice(s);
    var t := TrimSpace(s);
    var i, j :| 0 <= i <= j <= |s| && t == s[i..j]
                && (forall k :: 0 <= k < i ==> IsSpace(s[k])) && (forall k :: j <= k < |s| ==> IsSpace(s[k]));
    NonSpaceOfSlice(s, i, j);
  }

  /** Cutting white space off both ends keeps the non-space characters. */
  lemma NonSpaceOfSlice(s: string, i: int, j: int)
    requires 0 <= i <= j <= |s|
    requires forall k :: 0 <= k < i ==> IsSpace(s[k])
    requires forall k :: j <= k < |s| ==> IsSpace(s[k])
    ensures NonSpace(s[i..j]) == NonSpace(s)
  {
    DropSpacesAfter(s, j);
    var t := s[..j];
    forall k | 0 <= k < i
      ensures IsSpace(t[k])
    {
      assert t[k] == s[k];
    }
    DropSpacesBefore(t, i);
    assert t[i..] == s[i..j];
  }

  lemma DropSpacesBefore(s: string, i: int)
    requires 0 <= i <= |s| && forall k :: 0 <= k < i ==> IsSpace(s[k])
    ensures NonSpace(s) == NonSpace(s[i..])
  {
    SpacesPrefix(s, i);
    SpacesBefore(s[..i], s[i..]);
    assert s == s[..i] + s[i..];
  }

  lemma DropSpacesAfter(s: string, j: int)
    requires 0 <= j <= |s| && forall k :: j <= k < |s| ==> IsSpace(s[k])
    ensures NonSpace(s) == NonSpace(s[..j])
  {
    SpacesSuffix(s, j);
    SpacesAfter(s[..j], s[j..]);
    assert s == s[..j] + s[j..];
  }

  lemma SpacesPrefix(s: string, i: int)
    requires 0 <= i <= |s| && forall k :: 0 <= k < i ==> IsSpace(s[k])
    ensures forall k :: 0 <= k < |s[..i]| ==> IsSpace(s[..i][k])
  {
  }

  lemma SpacesSuffix(s: string, j: int)
    requires 0 <= j <= |s| && forall k :: j <= k < |s| ==> IsSpace(s[k])
    ensures forall k :: 0 <= k < |s[j..]| ==> IsSpace(s[j..][k])
  {
    forall k | 0 <= k < |s[j..]|
      ensures IsSpace(s[j..][k])
    {
      assert s[j..][k] == s[j + k];
    }
  }

  lemma SpacesBefore(a: string, b: string)
    requires forall k :: 0 <= k < |a| ==> IsSpace(a[k])
    ensures NonSpace(a + b) == NonSpace(b)
  {
    NonSpaceAppend(a, b);
    NonSpaceOfSpaces(a);
    assert [] + NonSpace(b) == NonSpace(b);
  }

  lemma SpacesAfter(b: string, c: string)
    requires forall k :: 0 <= k < |c| ==> IsSpace(c[k])
    ensures NonSpace(b + c) == NonSpace(b)
  {
    NonSpaceAppend(b, c);
    NonSpaceOfSpaces(c);
    assert NonSpace(b) + [] == NonSpace(b);
  }

  /** A text that does not start with white space is empty exactly when it has no other characters. */
  lemma NonSpaceEmpty(t: string)
    requires t == [] || !IsSpace(t[0])
    ensures NonSpace(t) == [] <==> t == []
  {
  }

  /** ASCII case folding, as strings.ToLower does on ASCII text. */
  function LowerChar(c: char): (r: char)
    ensures 'A' <= c <= 'Z' ==> r as int == c as int + 32
    ensures !('A' <= c <= 'Z') ==> r == c
  {
    if 'A' <= c <= 'Z' then (c as int + 32) as char else c
  }

  function ToLower(s: string): (r: string)
    ensures |r| == |s|
    ensures forall i :: 0 <= i < |s| ==> r[i] == LowerChar(s[i])
  {
    if s == [] then [] else [LowerChar(s[0])] + ToLower(s[1..])
  }

  // ---------------------------------------------------------------------------
  // Decimal numbers: fmt's %d and its inverse
  // ---------------------------------------------------------------------------

  predicate IsDigit(c: char) {
    '0' <= c <= '9'
  }

  predicate AllDigits(s: string) {
    forall i :: 0 <= i < |s| ==> IsDigit(s[i])
  }

  function DigitChar(d: nat): (c: char)
    requires d < 10
    ensures IsDigit(c)
  {
    ('0' as int + d) as char
  }

  /** The decimal rendering of a natural number, without leading zeros. */
  function NatToDecimal(n: nat): (s: string)
    ensures |s| >= 1 && AllDigits(s)
    ensures s[0] == '0' <==> n == 0
    ensures n == 0 ==> s == "0"
    ensures n < 10 ==> |s| == 1
    ensures n < 100 ==> |s| <= 2
    ensures n < 1000 ==> |s| <= 3
  {
    if n < 10 then [DigitChar(n)] else NatToDecimal(n / 10) + [DigitChar(n % 10)]
  }

  /** fmt.Sprintf("%d", n) */
  function IntToDecimal(n: int): string {
    if n < 0 then "-" + NatToDecimal(-n) else NatToDecimal(n)
  }

  /** The value of a string of decimal digits (a character other than a digit counts as 0). */
  function DecimalValue(s: string): nat {
    if s == [] then 0
    else DecimalValue(s[..|s| - 1]) * 10 + (if IsDigit(s[|s| - 1]) then s[|s| - 1] as int - '0' as int else 0)
  }

  /** Reading back the rendering of `n` gives `n`. */
  lemma {:induction false} DecimalRoundTrip(n: nat)
    ensures DecimalValue(NatToDecimal(n)) == n
  {
    if n >= 10 {
      DecimalRoundTrip(n / 10);
      var s := NatToDecimal(n);
      assert s[..|s| - 1] == NatToDecimal(n / 10);
    }
  }

  // ---------------------------------------------------------------------------
  // Hexadecimal pairs: strconv.ParseInt(p, 16, 64) on a two-character string
  // ---------------------------------------------------------------------------

  predicate IsHexDigit(c: char) {
    IsDigit(c) || 'a' <= c <= 'f' || 'A' <= c <= 'F'
  }

  function HexValue(c: char): (v: nat)
    requires IsHexDigit(c)
    ensures v < 16
  {
    if IsDigit(c) then c as int - '0' as int
    else if 'a' <= c <= 'f' then c as int - 'a' as int + 10
    else c as int - 'A' as int + 10
  }

  /** Upper-case hex digit, as a gateway writes it. */
  function HexDigitChar(v: nat): (c: char)
    requires v < 16
    ensures IsHexDigit(c) && HexValue(c) == v
  {
    if v < 10 then DigitChar(v) else ('A' as int + v - 10) as char
  }

  /** Two upper-case hex digits for a byte. */
  function HexByte(b: nat): (p: string)
    requires b < 256
    ensures |p| == 2 && IsHexDigit(p[0]) && IsHexDigit(p[1])
  {
    [HexDigitChar(b / 16), HexDigitChar(b % 16)]
  }

  /**
   * strconv.ParseInt(p, 16, 64) for a two-character `p`: an optional sign
   * followed by hex digits, nothing else (no "0x" prefix and no underscores
   * in base 16).  None stands for the returned error.
   */
  function ParseHexPair(p: string): (r: Option<int>)
    requires |p| == 2
    ensures r.Some? && IsHexDigit(p[0]) ==> 0 <= r.value < 256
    ensures r.Some? && !IsHexDigit(p[0]) ==> -16 < r.value < 16
  {
    if p[0] == '+' || p[0] == '-' then
      if IsHexDigit(p[1]) then
        var v: int := HexValue(p[1]);
        Some(if p[0] == '-' then -v else v)
      else None
    else if IsHexDigit(p[0]) && IsHexDigit(p[1]) then Some(16 * HexValue(p[0]) + HexValue(p[1]))
    else None
  }

  /** A pair of hex digits is accepted in either case and means the same byte. */
  lemma ParseHexPairDigits(p: string)
    requires |p| == 2 && IsHexDigit(p[0]) && IsHexDigit(p[1])
    ensures ParseHexPair(p) == Some(16 * HexValue(p[0]) + HexValue(p[1]))
    ensures ParseHexPair(ToLower(p)) == ParseHexPair(p)
  {
  }

  /** Rendering a byte in hex and parsing it back gives the byte. */
  lemma HexByteRoundTrip(b: nat)
    requires b < 256
    ensures ParseHexPair(HexByte(b)) == Some(b)
  {
  }
}
