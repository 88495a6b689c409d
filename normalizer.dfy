/** The text normaliser of the lead filter: the visible text of a page is
    reduced to `" ".join(text.split())` before it is classified
    (ai_scraper.py line 62). */
module Normalizer {
  import opened PyStr

  /** An item of `str.split()`: non-empty and free of whitespace. */
  predicate IsWord(w: string)
  {
    w != [] && forall i :: 0 <= i < |w| ==> !IsSpace(w[i])
  }

  predicate AllWords(ws: seq<string>)
  {
    forall k :: 0 <= k < |ws| ==> IsWord(ws[k])
  }

  /** Length of the run of non-whitespace characters `s` starts with. */
  function WordLength(s: string): (n: nat)
    ensures n <= |s|
    ensures forall i :: 0 <= i < n ==> !IsSpace(s[i])
    ensures n < |s| ==> IsSpace(s[n])
  {
    if s != [] && !IsSpace(s[0]) then 1 + WordLength(s[1..]) else 0
  }

  /** `s.split()`: the maximal runs of non-whitespace characters, in order. */
  function SplitWords(s: string): (ws: seq<string>)
    ensures AllWords(ws)
    decreases |s|
  {
    if s == [] then []
    else if IsSpace(s[0]) then SplitWords(s[1..])
    else
      var n := WordLength(s);
      [s[..n]] + SplitWords(s[n..])
  }

  /** `" ".join(s.split())`: the text in normal shape, with every character
      other than whitespace kept, in order. */
  function Normalize(s: string): (r: string)
    ensures IsNormal(r)
    ensures NonSpace(r) == NonSpace(s)
  {
    JoinWordsNormal(SplitWords(s));
    NonSpaceOfJoin(SplitWords(s));
    ConcatSplit(s);
    Join(SplitWords(s), " ")
  }

  /** The shape of normalised text: every whitespace character is a single
      `' '` standing strictly inside the string between two non-whitespace
      characters. So there is no leading or trailing whitespace, no two spaces
      in a row, and no tab, newline or other whitespace. */
  predicate IsNormal(t: string)
  {
    forall i :: 0 <= i < |t| && IsSpace(t[i]) ==>
      t[i] == ' ' && 0 < i < |t| - 1 && !IsSpace(t[i - 1]) && !IsSpace(t[i + 1])
  }

  /** Characters of `s` other than whitespace, in order. */
  function NonSpace(s: string): string
  {
    if s == [] then [] else (if IsSpace(s[0]) then [] else [s[0]]) + NonSpace(s[1..])
  }

  /** `gaps[0] + ws[0] + gaps[1] + ... + ws[n - 1] + gaps[n]`. */
  function Weave(gaps: seq<string>, ws: seq<string>): string
    requires |gaps| == |ws| + 1
    decreases |ws|
  {
    if ws == [] then gaps[0] else gaps[0] + ws[0] + Weave(gaps[1..], ws[1..])
  }

  function Concat(ws: seq<string>): string
  {
    if ws == [] then [] else ws[0] + Concat(ws[1..])
  }

  // ---------------------------------------------------------------------------
  // The items of the split are the maximal runs

  lemma WeaveSpace(c: char, g: seq<string>, ws: seq<string>)
    requires |g| == |ws| + 1
    ensures Weave([[c] + g[0]] + g[1..], ws) == [c] + Weave(g, ws)
  {
    var gaps := [[c] + g[0]] + g[1..];
    assert gaps[1..] == g[1..];
    if ws != [] {
      assert [c] + g[0] + ws[0] + Weave(g[1..], ws[1..]) == [c] + (g[0] + ws[0] + Weave(g[1..], ws[1..]));
    }
  }

  lemma WeaveWord(w: string, g: seq<string>, ws: seq<string>)
    requires |g| == |ws| + 1
    ensures Weave([[]] + g, [w] + ws) == w + Weave(g, ws)
  {
    var gaps: seq<string> := [[]] + g;
    var words := [w] + ws;
    assert gaps[1..] == g && gaps[0] == [];
    assert words[1..] == ws && words[0] == w;
    assert Weave(gaps, words) == [] + w + Weave(g, ws);
    assert [] + w == w;
  }

  /** The input is whitespace, the first word, whitespace, the second word,
      ..., whitespace: only the gaps at the two ends may be empty, so no word
      is ever cut in two and no whitespace is kept in a word. */
  lemma {:induction false} SplitWeave(s: string) returns (gaps: seq<string>)
    ensures |gaps| == |SplitWords(s)| + 1
    ensures forall k :: 0 <= k < |gaps| ==> AllSpace(gaps[k])
    ensures forall k :: 0 < k < |gaps| - 1 ==> gaps[k] != []
    ensures s == Weave(gaps, SplitWords(s))
    decreases |s|
  {
    if s == [] {
      gaps := [[]];
    } else if IsSpace(s[0]) {
      var g := SplitWeave(s[1..]);
      gaps := [[s[0]] + g[0]] + g[1..];
      WeaveSpace(s[0], g, SplitWords(s[1..]));
      assert s == [s[0]] + s[1..];
      forall k | 0 <= k < |gaps| ensures AllSpace(gaps[k]) {
        if k > 0 {
          assert gaps[k] == g[k];
        }
      }
      forall k | 0 < k < |gaps| - 1 ensures gaps[k] != [] {
        assert gaps[k] == g[k];
      }
    } else {
      var n := WordLength(s);
      var g := SplitWeave(s[n..]);
      var ws := SplitWords(s[n..]);
      gaps := [[]] + g;
      WeaveWord(s[..n], g, ws);
      assert s == s[..n] + s[n..];
      if ws != [] {
        assert IsWord(ws[0]);
        assert s[n..] == g[0] + ws[0] + Weave(g[1..], ws[1..]);
      }
      forall k | 0 <= k < |gaps| ensures AllSpace(gaps[k]) {
        if k > 0 {
          assert gaps[k] == g[k - 1];
        }
      }
      forall k | 0 < k < |gaps| - 1 ensures gaps[k] != [] {
        assert gaps[k] == g[k - 1];
      }
    }
  }

  // ---------------------------------------------------------------------------
  // Normalised text has the normal shape

  lemma NormalIsUnpadded(t: string)
    requires IsNormal(t)
    ensures Unpadded(t)
  {
    if t != [] {
      assert !IsSpace(t[0]);
      assert !IsSpace(t[|t| - 1]);
    }
  }

  /** Two normal pieces joined by one space make a normal string. */
  lemma NormalConcat(a: string, b: string)
    requires IsNormal(a) && IsNormal(b) && a != [] && b != []
    ensures IsNormal(a + " " + b)
  {
    var t := a + " " + b;
    NormalIsUnpadded(a);
    NormalIsUnpadded(b);
    forall i | 0 <= i < |t| && IsSpace(t[i])
      ensures t[i] == ' ' && 0 < i < |t| - 1 && !IsSpace(t[i - 1]) && !IsSpace(t[i + 1])
    {
      if i < |a| {
        assert t[i] == a[i];
        assert t[i - 1] == a[i - 1] && t[i + 1] == a[i + 1];
      } else if i > |a| {
        var j := i - |a| - 1;
        assert t[i] == b[j];
        assert t[i + 1] == b[j + 1];
        assert t[i - 1] == b[j - 1];
      }
    }
  }

  lemma {:induction false} JoinWordsNormal(ws: seq<string>)
    requires AllWords(ws)
    ensures IsNormal(Join(ws, " "))
    ensures ws != [] ==> Join(ws, " ") != []
  {
    if |ws| > 1 {
      JoinWordsNormal(ws[1..]);
      assert IsWord(ws[0]);
      NormalConcat(ws[0], Join(ws[1..], " "));
    } else if |ws| == 1 {
      assert IsWord(ws[0]);
    }
  }

  /** Normalised text has no leading or trailing whitespace and never two
      spaces in a row. */
  lemma NormalizeIsNormal(s: string)
    ensures Unpadded(Normalize(s))
    ensures forall i :: 0 <= i < |Normalize(s)| - 1 ==> !(Normalize(s)[i] == ' ' && Normalize(s)[i + 1] == ' ')
  {
    NormalIsUnpadded(Normalize(s));
  }

  // ---------------------------------------------------------------------------
  // Splitting undoes joining with one space, hence idempotence

  /** A word followed by nothing or by whitespace is the first item of the split. */
  lemma SplitAfterWord(w: string, rest: string)
    requires IsWord(w)
    requires rest == [] || IsSpace(rest[0])
    ensures SplitWords(w + rest) == [w] + SplitWords(rest)
  {
    var s := w + rest;
    assert s[..|w|] == w && s[|w|..] == rest;
  }

  lemma SplitSkipsSpace(c: char, s: string)
    requires IsSpace(c)
    ensures SplitWords([c] + s) == SplitWords(s)
  {
    assert ([c] + s)[1..] == s;
  }

  /** Splitting a space-joined list of words gives the words back. */
  lemma {:induction false} SplitJoin(ws: seq<string>)
    requires AllWords(ws)
    ensures SplitWords(Join(ws, " ")) == ws
  {
    if |ws| == 1 {
      SplitAfterWord(ws[0], []);
      assert ws[0] + [] == ws[0];
    } else if |ws| > 1 {
      var j := Join(ws[1..], " ");
      SplitJoin(ws[1..]);
      assert IsWord(ws[0]);
      assert Join(ws, " ") == ws[0] + (" " + j);
      SplitAfterWord(ws[0], " " + j);
      SplitSkipsSpace(' ', j);
      assert [ws[0]] + ws[1..] == ws;
    }
  }

  /** Normalising keeps the words: each run of whitespace became one space,
      and no word was merged, split or dropped. */
  lemma NormalizeKeepsWords(s: string)
    ensures SplitWords(Normalize(s)) == SplitWords(s)
  {
    SplitJoin(SplitWords(s));
  }

  /** Normalising twice is normalising once. */
  lemma NormalizeIdempotent(s: string)
    ensures Normalize(Normalize(s)) == Normalize(s)
  {
    NormalizeKeepsWords(s);
  }

  // ---------------------------------------------------------------------------
  // The strings normalisation leaves alone are exactly the normal ones

  lemma NormalSuffix(t: string, k: nat)
    requires IsNormal(t) && k < |t| && !IsSpace(t[k])
    ensures IsNormal(t[k..])
  {
    var u := t[k..];
    forall i | 0 <= i < |u| && IsSpace(u[i])
      ensures u[i] == ' ' && 0 < i < |u| - 1 && !IsSpace(u[i - 1]) && !IsSpace(u[i + 1])
    {
      assert u[i] == t[k + i];
      assert t[k + i - 1] == u[i - 1];
      assert t[k + i + 1] == u[i + 1];
    }
  }

  /** A normal string breaks at its first whitespace character into a word,
      one space and a normal remainder. */
  lemma NormalBreak(t: string, n: nat)
    requires IsNormal(t) && n < |t| && IsSpace(t[n])
    requires forall i :: 0 <= i < n ==> !IsSpace(t[i])
    ensures t[n] == ' ' && n + 1 < |t| && !IsSpace(t[n + 1])
    ensures IsNormal(t[n + 1..])
    ensures t == t[..n] + " " + t[n + 1..]
  {
    NormalSuffix(t, n + 1);
  }

  lemma JoinCons(w: string, rest: seq<string>)
    requires rest != []
    ensures Join([w] + rest, " ") == w + " " + Join(rest, " ")
  {
    assert ([w] + rest)[1..] == rest;
  }

  lemma {:induction false} NormalFixed(t: string)
    requires IsNormal(t)
    ensures Normalize(t) == t
    decreases |t|
  {
    if t != [] {
      NormalIsUnpadded(t);
      var n := WordLength(t);
      var w := t[..n];
      assert SplitWords(t) == [w] + SplitWords(t[n..]);
      if n == |t| {
        assert t[n..] == [];
      } else {
        NormalBreak(t, n);
        var u := t[n + 1..];
        NormalFixed(u);
        assert t[n..] == [t[n]] + u;
        SplitSkipsSpace(t[n], u);
        assert SplitWords(u) != [] by {
          assert !IsSpace(u[0]);
        }
        JoinCons(w, SplitWords(u));
      }
    }
  }

  /** Normalisation leaves a string unchanged exactly when it already has the
      normal shape. */
  lemma NormalizeFixedIff(t: string)
    ensures Normalize(t) == t <==> IsNormal(t)
  {
    if IsNormal(t) {
      NormalFixed(t);
    }
  }

  // ---------------------------------------------------------------------------
  // Blank input, and the text that survives

  lemma {:induction false} SplitEmptyIffBlank(s: string)
    ensures SplitWords(s) == [] <==> AllSpace(s)
    decreases |s|
  {
    if s != [] {
      SplitEmptyIffBlank(s[1..]);
      if IsSpace(s[0]) {
        assert AllSpace(s) <==> AllSpace(s[1..]);
      }
    }
  }

  /** Empty or all-whitespace input, and only such input, normalises to "". */
  lemma NormalizeBlank(s: string)
    ensures Normalize(s) == "" <==> AllSpace(s)
  {
    SplitEmptyIffBlank(s);
    JoinWordsNormal(SplitWords(s));
  }

  lemma {:induction false} NonSpaceAppend(a: string, b: string)
    ensures NonSpace(a + b) == NonSpace(a) + NonSpace(b)
  {
    if a == [] {
      assert a + b == b;
    } else {
      assert (a + b)[0] == a[0];
      assert (a + b)[1..] == a[1..] + b;
      NonSpaceAppend(a[1..], b);
    }
  }

  lemma {:induction false} NonSpaceOfWord(w: string)
    requires forall i :: 0 <= i < |w| ==> !IsSpace(w[i])
    ensures NonSpace(w) == w
  {
    if w != [] {
      NonSpaceOfWord(w[1..]);
    }
  }

  lemma {:induction false} NonSpaceOfJoin(ws: seq<string>)
    requires AllWords(ws)
    ensures NonSpace(Join(ws, " ")) == Concat(ws)
  {
    if |ws| == 1 {
      assert IsWord(ws[0]);
      NonSpaceOfWord(ws[0]);
      assert Concat(ws[1..]) == [];
    } else if |ws| > 1 {
      assert IsWord(ws[0]);
      NonSpaceOfWord(ws[0]);
      NonSpaceOfJoin(ws[1..]);
      NonSpaceAppend(ws[0] + " ", Join(ws[1..], " "));
      NonSpaceAppend(ws[0], " ");
    }
  }

  lemma {:induction false} ConcatSplit(s: string)
    ensures Concat(SplitWords(s)) == NonSpace(s)
    decreases |s|
  {
    if s != [] {
      if IsSpace(s[0]) {
        ConcatSplit(s[1..]);
      } else {
        var n := WordLength(s);
        ConcatSplit(s[n..]);
        assert s == s[..n] + s[n..];
        NonSpaceAppend(s[..n], s[n..]);
        NonSpaceOfWord(s[..n]);
      }
    }
  }

  lemma {:induction false} NonSpaceLength(s: string)
    ensures |NonSpace(s)| <= |s|
  {
    if s != [] {
      NonSpaceLength(s[1..]);
    }
  }

  /** Normalised text is never shorter than the input's non-whitespace characters. */
  lemma NormalizeLength(s: string)
    ensures |Normalize(s)| >= |NonSpace(s)|
  {
    NonSpaceLength(Normalize(s));
  }
}
