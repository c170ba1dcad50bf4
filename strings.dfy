/** The pieces of Rust's `str` API that the chat-bot's text handling relies on:
    `char::is_whitespace`, `split_whitespace`, `trim`, `join`, `find`,
    `starts_with`/`strip_prefix` and the UTF-8 byte length that `len()` reports. */
module Strings {
  import opened Wrappers

  /** `char::is_whitespace`: the characters carrying the Unicode White_Space property. */
  predicate IsWhitespace(c: char) {
    || ('\t' <= c <= '\r')
    || c == ' '
    || c == '\U{0085}'
    || c == '\U{00A0}'
    || c == '\U{1680}'
    || ('\U{2000}' <= c <= '\U{200A}')
    || c == '\U{2028}'
    || c == '\U{2029}'
    || c == '\U{202F}'
    || c == '\U{205F}'
    || c == '\U{3000}'
  }

  /** A token of `split_whitespace`: non-empty and free of whitespace. */
  predicate IsWord(w: string) {
    w != [] && forall i :: 0 <= i < |w| ==> !IsWhitespace(w[i])
  }

  predicate AllWords(ws: seq<string>) {
    forall i :: 0 <= i < |ws| ==> IsWord(ws[i])
  }

  predicate AllWhitespace(s: string) {
    forall i :: 0 <= i < |s| ==> IsWhitespace(s[i])
  }

  /** Neither the first nor the last character is whitespace. */
  predicate Trimmed(s: string) {
    s == [] || (!IsWhitespace(s[0]) && !IsWhitespace(s[|s| - 1]))
  }

  function LeadingWhitespace(s: string): (n: nat)
    ensures n <= |s|
    ensures forall i :: 0 <= i < n ==> IsWhitespace(s[i])
    ensures n < |s| ==> !IsWhitespace(s[n])
  {
    if s == [] || !IsWhitespace(s[0]) then 0 else 1 + LeadingWhitespace(s[1..])
  }

  function TrailingWhitespace(s: string): (n: nat)
    ensures n <= |s|
    ensures forall i :: |s| - n <= i < |s| ==> IsWhitespace(s[i])
    ensures n < |s| ==> !IsWhitespace(s[|s| - 1 - n])
  {
    if s == [] || !IsWhitespace(s[|s| - 1]) then 0 else 1 + TrailingWhitespace(s[..|s| - 1])
  }

  /** Length of the leading run of non-whitespace characters. */
  function TokenLength(s: string): (n: nat)
    ensures n <= |s|
    ensures forall i :: 0 <= i < n ==> !IsWhitespace(s[i])
    ensures n < |s| ==> IsWhitespace(s[n])
  {
    if s == [] || IsWhitespace(s[0]) then 0 else 1 + TokenLength(s[1..])
  }

  function TrimStart(s: string): string {
    s[LeadingWhitespace(s)..]
  }

  /** `str::trim`: the input without its leading and trailing whitespace. */
  function Trim(s: string): (r: string)
    ensures Trimmed(r)
    ensures |r| <= |s|
  {
    var n := LeadingWhitespace(s);
    var t := s[n..];
    t[..|t| - TrailingWhitespace(t)]
  }

  /** What `Trim` removes is whitespace, at the two ends. */
  lemma TrimSurroundings(s: string)
    ensures exists a, b :: s == a + Trim(s) + b && AllWhitespace(a) && AllWhitespace(b)
  {
    var n := LeadingWhitespace(s);
    var t := s[n..];
    var m := |t| - TrailingWhitespace(t);
    var a, b := s[..n], t[m..];
    LeadingRunIsWhitespace(s);
    TrailingRunIsWhitespace(t);
    ThreeWay(s, n, m);
    assert Trim(s) == t[..m];
    assert s == a + Trim(s) + b && AllWhitespace(a) && AllWhitespace(b);
  }

  lemma LeadingRunIsWhitespace(s: string)
    ensures AllWhitespace(s[..LeadingWhitespace(s)])
  {
    var n := LeadingWhitespace(s);
    assert forall i :: 0 <= i < n ==> s[..n][i] == s[i];
  }

  lemma TrailingRunIsWhitespace(t: string)
    ensures AllWhitespace(t[|t| - TrailingWhitespace(t)..])
  {
    var m := |t| - TrailingWhitespace(t);
    assert forall i :: 0 <= i < |t| - m ==> t[m..][i] == t[m + i];
  }

  /** A string cut at `n`, and its rest cut again at `m`. */
  lemma ThreeWay(s: string, n: nat, m: nat)
    requires n <= |s| && m <= |s| - n
    ensures s == s[..n] + s[n..][..m] + s[n..][m..]
  {
    SplitAt(s, n);
    SplitAt(s[n..], m);
    AppendAssociative(s[..n], s[n..][..m], s[n..][m..]);
  }

  lemma SplitAt(s: string, k: nat)
    requires k <= |s|
    ensures s == s[..k] + s[k..]
  {
  }

  lemma AppendAssociative(a: string, b: string, c: string)
    ensures a + (b + c) == a + b + c
  {
  }

  /** `str::split_whitespace`: the maximal runs of non-whitespace characters, in order. */
  function Words(s: string): (ws: seq<string>)
    ensures AllWords(ws)
    decreases |s|
  {
    var t := TrimStart(s);
    if t == [] then []
    else
      assert !IsWhitespace(t[0]);
      var n := TokenLength(t);
      [t[..n]] + Words(t[n..])
  }

  /** `[String]::join(sep)`. */
  function JoinWith(xs: seq<string>, sep: string): string {
    if |xs| == 0 then ""
    else if |xs| == 1 then xs[0]
    else xs[0] + sep + JoinWith(xs[1..], sep)
  }

  predicate StartsWith(s: string, prefix: string) {
    |prefix| <= |s| && s[..|prefix|] == prefix
  }

  /** `str::strip_prefix`. */
  function StripPrefix(s: string, prefix: string): (r: Option<string>)
    ensures r.Some? <==> StartsWith(s, prefix)
    ensures r.Some? ==> s == prefix + r.value
  {
    if StartsWith(s, prefix) then Some(s[|prefix|..]) else None
  }

  /** A string that starts with the prefix strips to what follows it. */
  lemma StripPrefixOfConcat(prefix: string, rest: string)
    ensures StripPrefix(prefix + rest, prefix) == Some(rest)
  {
    assert (prefix + rest)[..|prefix|] == prefix;
    assert (prefix + rest)[|prefix|..] == rest;
  }

  predicate OccursAt(s: string, pat: string, i: nat) {
    i + |pat| <= |s| && forall j :: 0 <= j < |pat| ==> s[i + j] == pat[j]
  }

  /** An occurrence is the slice of that length being the pattern. */
  lemma OccursAtSlice(s: string, pat: string, i: nat)
    requires i + |pat| <= |s|
    ensures OccursAt(s, pat, i) <==> s[i..i + |pat|] == pat
  {
  }

  /** An occurrence stays one, shifted, behind a prefix. */
  lemma OccursAfterPrefix(p: string, s: string, pat: string, k: nat)
    requires OccursAt(s, pat, k)
    ensures OccursAt(p + s, pat, |p| + k)
  {
    assert (p + s)[|p| + k..|p| + k + |pat|] == s[k..k + |pat|];
  }

  function FindFrom(s: string, pat: string, from: nat): (r: Option<nat>)
    ensures r.Some? ==> from <= r.value && OccursAt(s, pat, r.value)
    ensures r.Some? ==> forall i :: from <= i < r.value ==> !OccursAt(s, pat, i)
    ensures r.None? ==> forall i :: from <= i ==> !OccursAt(s, pat, i)
    decreases |s| - from
  {
    if from + |pat| > |s| then None
    else if OccursAt(s, pat, from) then Some(from)
    else FindFrom(s, pat, from + 1)
  }

  /** `str::find`: the index of the first occurrence of `pat`, if any. */
  function Find(s: string, pat: string): (r: Option<nat>)
    ensures r.Some? ==> OccursAt(s, pat, r.value)
    ensures r.Some? ==> forall i :: 0 <= i < r.value ==> !OccursAt(s, pat, i)
    ensures r.None? ==> forall i :: 0 <= i ==> !OccursAt(s, pat, i)
  {
    FindFrom(s, pat, 0)
  }

  /** `str::contains`. */
  predicate Contains(s: string, pat: string) {
    Find(s, pat).Some?
  }

  /** Bytes that UTF-8 spends on one character. */
  function Utf8Length(c: char): nat {
    if c as int < 0x80 then 1
    else if c as int < 0x800 then 2
    else if c as int < 0x1_0000 then 3
    else 4
  }

  /** Texts that agree after a common lead agree. */
  lemma AfterCommonLead(lead: string, x: string, y: string)
    requires lead + x == lead + y
    ensures x == y
  {
    assert x == (lead + x)[|lead|..];
    assert y == (lead + y)[|lead|..];
  }

  /** A word followed by a separator that opens with a non-whitespace
      character and then a whitespace character: where the word ends can be
      read off the text. */
  lemma WordThenSeparator(w1: string, r1: string, w2: string, r2: string)
    requires IsWord(w1) && IsWord(w2)
    requires |r1| >= 2 && |r2| >= 2 && r1[0] == r2[0] && !IsWhitespace(r1[0])
    requires IsWhitespace(r1[1]) && IsWhitespace(r2[1])
    requires w1 + r1 == w2 + r2
    ensures w1 == w2 && r1 == r2
  {
    var s := w1 + r1;
    if |w1| < |w2| {
      AppendAt(w1, r1, |w1| + 1);
      AppendAt(w2, r2, |w1| + 1);
      assert false;
    } else if |w2| < |w1| {
      AppendAt(w1, r1, |w2| + 1);
      AppendAt(w2, r2, |w2| + 1);
      assert false;
    } else {
      assert w1 == s[..|w1|] && w2 == (w2 + r2)[..|w2|];
      assert r1 == s[|w1|..] && r2 == (w2 + r2)[|w2|..];
    }
  }

  /** The character at an index of a concatenation. */
  lemma AppendAt(a: string, b: string, i: int)
    ensures 0 <= i < |a| + |b| ==> (a + b)[i] == if i < |a| then a[i] else b[i - |a|]
  {
  }

  /** `str::len`: the UTF-8 byte length. */
  function ByteLength(s: string): (n: nat)
    ensures |s| <= n <= 4 * |s|
  {
    if s == [] then 0 else Utf8Length(s[0]) + ByteLength(s[1..])
  }

  lemma {:induction false} ByteLengthAppend(a: string, b: string)
    ensures ByteLength(a + b) == ByteLength(a) + ByteLength(b)
  {
    if a != [] {
      assert (a + b)[1..] == a[1..] + b;
      ByteLengthAppend(a[1..], b);
    } else {
      assert a + b == b;
    }
  }

  lemma {:induction false} ByteLengthAtLeastLength(s: string)
    ensures |s| <= ByteLength(s)
  {
    if s != [] {
      ByteLengthAtLeastLength(s[1..]);
    }
  }

  lemma {:induction false} JoinAppend(xs: seq<string>, ys: seq<string>, sep: string)
    requires xs != [] && ys != []
    ensures JoinWith(xs + ys, sep) == JoinWith(xs, sep) + sep + JoinWith(ys, sep)
  {
    if |xs| == 1 {
      assert (xs + ys)[1..] == ys;
    } else {
      assert (xs + ys)[1..] == xs[1..] + ys;
      JoinAppend(xs[1..], ys, sep);
    }
  }

  lemma WordsSkipsWhitespace(c: char, s: string)
    requires IsWhitespace(c)
    ensures Words([c] + s) == Words(s)
  {
    assert ([c] + s)[1..] == s;
    assert LeadingWhitespace([c] + s) == 1 + LeadingWhitespace(s);
    assert TrimStart([c] + s) == TrimStart(s);
  }

  lemma WordsOfWordThen(w: string, s: string)
    requires IsWord(w)
    requires s == [] || IsWhitespace(s[0])
    ensures Words(w + s) == [w] + Words(s)
  {
    var t := w + s;
    assert LeadingWhitespace(t) == 0;
    assert TrimStart(t) == t;
    var n := TokenLength(t);
    assert forall i :: 0 <= i < |w| ==> t[i] == w[i];
    assert |w| < |t| ==> t[|w|] == s[0];
    assert n == |w|;
    assert t[..n] == w && t[n..] == s;
  }

  /** `split_whitespace` recovers the words that were joined with single spaces. */
  lemma {:induction false} WordsOfJoin(ws: seq<string>)
    requires AllWords(ws)
    ensures Words(JoinWith(ws, " ")) == ws
  {
    if |ws| == 0 {
    } else if |ws| == 1 {
      WordsOfWordThen(ws[0], "");
      assert ws[0] + "" == ws[0];
    } else {
      var rest := JoinWith(ws[1..], " ");
      assert JoinWith(ws, " ") == ws[0] + ([' '] + rest);
      WordsOfWordThen(ws[0], [' '] + rest);
      WordsSkipsWhitespace(' ', rest);
      WordsOfJoin(ws[1..]);
    }
  }

  /** Words joined with single spaces neither start nor end with whitespace. */
  lemma {:induction false} JoinOfWordsTrimmed(ws: seq<string>)
    requires AllWords(ws)
    ensures Trimmed(JoinWith(ws, " "))
    ensures ws != [] ==> JoinWith(ws, " ") != []
  {
    if |ws| > 1 {
      JoinOfWordsTrimmed(ws[1..]);
      var rest := JoinWith(ws[1..], " ");
      assert JoinWith(ws, " ") == ws[0] + " " + rest;
    } else if |ws| == 1 {
      assert IsWord(ws[0]);
    }
  }

  lemma TrimOfTrimmed(s: string)
    requires Trimmed(s)
    ensures Trim(s) == s
  {
    assert LeadingWhitespace(s) == 0;
    assert TrailingWhitespace(s) == 0;
  }

  /** Trimming removes exactly the whitespace around a trimmed core. */
  lemma TrimOfPadded(a: string, x: string, b: string)
    requires AllWhitespace(a) && AllWhitespace(b) && Trimmed(x) && x != []
    ensures Trim(a + x + b) == x
  {
    var s := a + x + b;
    var n := LeadingWhitespace(s);
    assert s[|a|] == x[0];
    assert n == |a|;
    var t := s[n..];
    assert t == x + b;
    var m := TrailingWhitespace(t);
    assert t[|x| - 1] == x[|x| - 1];
    assert m == |b|;
    assert t[..|t| - m] == x;
  }

  /** Trimming removes exactly the whitespace in front of a trimmed core. */
  lemma TrimOfLeftPadded(a: string, x: string)
    requires AllWhitespace(a) && Trimmed(x) && x != []
    ensures Trim(a + x) == x
  {
    TrimOfPadded(a, x, "");
    assert a + x + "" == a + x;
  }

  /** Whitespace-free, non-empty strings have themselves as their only word. */
  lemma WordsOfWord(w: string)
    requires IsWord(w)
    ensures Words(w) == [w]
  {
    WordsOfWordThen(w, "");
    assert w + "" == w;
  }
}
