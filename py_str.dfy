/** The operations of Python's built-in `str` that the lead filter uses:
    the whitespace test behind `split()` and `strip()`, `sep.join(parts)`,
    `strip()`, `replace(pat, "")` and `str()` of an integer. */
module PyStr {

  /** A character Python treats as whitespace in `str.split()` and `str.strip()`
      called without arguments: ASCII 9-13 and 28-32, and the Unicode spaces
      U+0085, U+00A0, U+1680, U+2000-U+200A, U+2028, U+2029, U+202F, U+205F, U+3000. */
  predicate IsSpace(c: char)
  {
    || ('\t' <= c <= '\r')
    || ('\U{1C}' <= c <= ' ')
    || c == '\U{85}' || c == '\U{A0}' || c == '\U{1680}'
    || ('\U{2000}' <= c <= '\U{200A}')
    || c == '\U{2028}' || c == '\U{2029}' || c == '\U{202F}' || c == '\U{205F}' || c == '\U{3000}'
  }

  predicate AllSpace(s: string)
  {
    forall i :: 0 <= i < |s| ==> IsSpace(s[i])
  }

  /** Neither end of `s` is whitespace. */
  predicate Unpadded(s: string)
  {
    s == [] || (!IsSpace(s[0]) && !IsSpace(s[|s| - 1]))
  }

  // ---------------------------------------------------------------------------
  // sep.join(parts)

  function TotalLength(parts: seq<string>): nat
  {
    if parts == [] then 0 else |parts[0]| + TotalLength(parts[1..])
  }

  /** Where part `k` of `sep.join(parts)` starts: after every earlier part
      and its separator. */
  function JoinOffset(parts: seq<string>, sep: string, k: nat): nat
    requires k <= |parts|
  {
    if k == 0 then 0 else JoinOffset(parts, sep, k - 1) + |parts[k - 1]| + |sep|
  }

  /** `sep.join(parts)` for a list whose items are all strings. It ends where
      a separator after the last part would start. */
  function Join(parts: seq<string>, sep: string): (r: string)
    ensures parts == [] ==> r == []
    ensures parts != [] ==> |r| + |sep| == JoinOffset(parts, sep, |parts|)
  {
    if |parts| == 0 then ""
    else if |parts| == 1 then parts[0]
    else
      JoinOffsetTail(parts, sep, |parts|);
      parts[0] + sep + Join(parts[1..], sep)
  }

  /** The joined string is as long as all the parts and one separator fewer
      than there are parts. */
  lemma {:induction false} JoinLength(parts: seq<string>, sep: string)
    ensures |Join(parts, sep)| == TotalLength(parts) + if parts == [] then 0 else (|parts| - 1) * |sep|
  {
    if |parts| > 1 {
      JoinLength(parts[1..], sep);
    }
  }

  lemma {:induction false} JoinOffsetTail(parts: seq<string>, sep: string, k: nat)
    requires 0 < k <= |parts|
    ensures JoinOffset(parts, sep, k) == |parts[0]| + |sep| + JoinOffset(parts[1..], sep, k - 1)
  {
    if k > 1 {
      JoinOffsetTail(parts, sep, k - 1);
      assert parts[1..][k - 2] == parts[k - 1];
    }
  }

  lemma JoinUnfold(parts: seq<string>, sep: string)
    requires |parts| > 1
    ensures Join(parts, sep) == (parts[0] + sep) + Join(parts[1..], sep)
  {
  }

  lemma SliceAfter(a: string, b: string, o: nat, n: nat)
    requires o + n <= |b|
    ensures (a + b)[|a| + o..|a| + o + n] == b[o..o + n]
  {
  }

  /** Part `k` sits at its offset. */
  lemma {:induction false} JoinPart(parts: seq<string>, sep: string, k: nat)
    requires k < |parts|
    ensures JoinOffset(parts, sep, k) + |parts[k]| <= |Join(parts, sep)|
    ensures Join(parts, sep)[JoinOffset(parts, sep, k)..JoinOffset(parts, sep, k) + |parts[k]|] == parts[k]
  {
    var r := Join(parts, sep);
    if |parts| == 1 {
      assert r == parts[0];
      assert r[0..|parts[0]|] == parts[0];
    } else {
      var head := parts[0] + sep;
      var j := Join(parts[1..], sep);
      JoinUnfold(parts, sep);
      if k == 0 {
        assert r[0..|parts[0]|] == parts[0];
      } else {
        var o := JoinOffset(parts[1..], sep, k - 1);
        JoinPart(parts[1..], sep, k - 1);
        JoinOffsetTail(parts, sep, k);
        assert parts[1..][k - 1] == parts[k];
        assert j[o..o + |parts[k]|] == parts[k];
        SliceAfter(head, j, o, |parts[k]|);
        assert JoinOffset(parts, sep, k) == |head| + o;
      }
    }
  }

  /** The separator stands just before part `k`, unless it is the first. */
  lemma {:induction false} JoinSeparator(parts: seq<string>, sep: string, k: nat)
    requires 0 < k < |parts|
    ensures |sep| <= JoinOffset(parts, sep, k) <= |Join(parts, sep)|
    ensures Join(parts, sep)[JoinOffset(parts, sep, k) - |sep|..JoinOffset(parts, sep, k)] == sep
  {
    var head := parts[0] + sep;
    var j := Join(parts[1..], sep);
    JoinUnfold(parts, sep);
    JoinOffsetTail(parts, sep, k);
    if k == 1 {
      assert (head + j)[|parts[0]|..|head|] == sep;
    } else {
      JoinSeparator(parts[1..], sep, k - 1);
      var o := JoinOffset(parts[1..], sep, k - 1);
      SliceAfter(head, j, o - |sep|, |sep|);
    }
  }

  /** Part `k` appears in `sep.join(parts)` at its offset. */
  predicate PartAt(parts: seq<string>, sep: string, k: nat)
    requires k < |parts|
  {
    JoinOffset(parts, sep, k) + |parts[k]| <= |Join(parts, sep)|
    && Join(parts, sep)[JoinOffset(parts, sep, k)..JoinOffset(parts, sep, k) + |parts[k]|] == parts[k]
  }

  /** The separator appears in `sep.join(parts)` just before part `k`. */
  predicate SeparatorBefore(parts: seq<string>, sep: string, k: nat)
    requires k < |parts|
  {
    |sep| <= JoinOffset(parts, sep, k) <= |Join(parts, sep)|
    && Join(parts, sep)[JoinOffset(parts, sep, k) - |sep|..JoinOffset(parts, sep, k)] == sep
  }

  /** Every part sits at its offset in the joined string. With
      `JoinSeparators` and the length `Join` ensures, this is all it holds. */
  lemma JoinParts(parts: seq<string>, sep: string)
    ensures forall k :: 0 <= k < |parts| ==> PartAt(parts, sep, k)
  {
    forall k | 0 <= k < |parts|
      ensures PartAt(parts, sep, k)
    {
      JoinPart(parts, sep, k);
    }
  }

  /** The separator stands just before every part but the first. */
  lemma JoinSeparators(parts: seq<string>, sep: string)
    ensures forall k :: 0 < k < |parts| ==> SeparatorBefore(parts, sep, k)
  {
    forall k | 0 < k < |parts|
      ensures SeparatorBefore(parts, sep, k)
    {
      JoinSeparator(parts, sep, k);
    }
  }

  /** Joining builds the string part by part: the last part follows the join
      of the others after one separator. */
  lemma {:induction false} JoinSnoc(parts: seq<string>, last: string, sep: string)
    requires parts != []
    ensures Join(parts + [last], sep) == Join(parts, sep) + sep + last
  {
    if |parts| > 1 {
      JoinSnoc(parts[1..], last, sep);
      assert (parts + [last])[1..] == parts[1..] + [last];
    }
  }

  // ---------------------------------------------------------------------------
  // strip()

  /** Number of whitespace characters `s` starts with. */
  function LeadingSpaces(s: string): (n: nat)
    ensures n <= |s|
    ensures forall i :: 0 <= i < n ==> IsSpace(s[i])
    ensures n < |s| ==> !IsSpace(s[n])
  {
    if s != [] && IsSpace(s[0]) then 1 + LeadingSpaces(s[1..]) else 0
  }

  /** Number of whitespace characters `s` ends with. */
  function TrailingSpaces(s: string): (n: nat)
    ensures n <= |s|
    ensures forall i :: |s| - n <= i < |s| ==> IsSpace(s[i])
    ensures n < |s| ==> !IsSpace(s[|s| - 1 - n])
  {
    if s != [] && IsSpace(s[|s| - 1]) then 1 + TrailingSpaces(s[..|s| - 1]) else 0
  }

  /** `s.strip()`: the result starts and ends with a non-whitespace character. */
  function Strip(s: string): (r: string)
    ensures |r| <= |s|
    ensures Unpadded(r)
  {
    var t := s[LeadingSpaces(s)..];
    t[..|t| - TrailingSpaces(t)]
  }

  /** `strip()` only removes whitespace, and only at the two ends. */
  lemma StripSplit(s: string) returns (lead: string, trail: string)
    ensures s == lead + Strip(s) + trail
    ensures AllSpace(lead) && AllSpace(trail)
  {
    var i := LeadingSpaces(s);
    var t := s[i..];
    var j := |t| - TrailingSpaces(t);
    lead, trail := s[..i], t[j..];
    assert s == s[..i] + t[..j] + t[j..];
  }

  /** A string without whitespace at either end is left as it is; in particular
      `strip()` is idempotent. */
  lemma StripUnpadded(s: string)
    requires Unpadded(s)
    ensures Strip(s) == s
  {
    assert LeadingSpaces(s) == 0;
    assert TrailingSpaces(s) == 0;
  }

  /** `strip()` gives "" exactly for blank strings. */
  lemma StripEmptyIffBlank(s: string)
    ensures Strip(s) == [] <==> AllSpace(s)
  {
    var lead, trail := StripSplit(s);
    if AllSpace(s) {
      var n := LeadingSpaces(s);
      assert n == |s|;
    }
    assert Strip(s) == [] ==> s == lead + trail;
  }

  // ---------------------------------------------------------------------------
  // replace(pat, "")

  /** `s.replace(pat, "")`: occurrences of `pat` are found left to right,
      without overlap, and removed. */
  function RemoveAll(s: string, pat: string): (r: string)
    requires pat != []
    ensures |r| <= |s|
    decreases |s|
  {
    if |s| < |pat| then s
    else if s[..|pat|] == pat then RemoveAll(s[|pat|..], pat)
    else [s[0]] + RemoveAll(s[1..], pat)
  }

  // ---------------------------------------------------------------------------
  // str(n) for an integer n

  function DigitChar(d: nat): (c: char)
    requires d < 10
    ensures '0' <= c <= '9'
  {
    ('0' as int + d) as char
  }

  predicate IsDigit(c: char)
  {
    '0' <= c <= '9'
  }

  /** Decimal digits of `n`, most significant first, with no leading zero. */
  function NatToString(n: nat): (r: string)
    ensures r != []
    ensures forall i :: 0 <= i < |r| ==> IsDigit(r[i])
    ensures |r| > 1 ==> r[0] != '0'
  {
    if n < 10 then [DigitChar(n)] else NatToString(n / 10) + [DigitChar(n % 10)]
  }

  /** `str(i)` of a Python `int`. */
  function IntToString(i: int): (r: string)
    ensures r != []
    ensures (r[0] == '-') <==> (i < 0)
  {
    if i < 0 then "-" + NatToString(-i) else NatToString(i)
  }

  /** The value of a string of decimal digits; the inverse of `NatToString`. */
  function ParseNat(s: string): nat
    requires forall i :: 0 <= i < |s| ==> IsDigit(s[i])
  {
    if s == [] then 0
    else
      assert IsDigit(s[|s| - 1]);
      10 * ParseNat(s[..|s| - 1]) + (s[|s| - 1] as int - '0' as int)
  }

  lemma {:induction false} NatToStringRoundTrip(n: nat)
    ensures ParseNat(NatToString(n)) == n
  {
    if n >= 10 {
      var r := NatToString(n);
      assert r[..|r| - 1] == NatToString(n / 10);
      NatToStringRoundTrip(n / 10);
    }
  }

  /** Reading back the decimal form of an integer gives the integer. */
  lemma IntToStringRoundTrip(i: int)
    ensures var r := IntToString(i);
            if i < 0 then r[1..] == NatToString(-i) && ParseNat(r[1..]) == -i
            else ParseNat(r) == i
  {
    if i < 0 {
      NatToStringRoundTrip(-i);
    } else {
      NatToStringRoundTrip(i);
    }
  }
}
