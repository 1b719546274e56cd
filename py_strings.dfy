/** The Python string operations the core relies on: `str.startswith` and
    `str.split()` with no separator, which splits on runs of whitespace and
    drops empty parts. */
module PyStrings {

  /** The characters CPython's `str.isspace()` accepts, which `str.split()`
      with no separator splits on. */
  const Whitespace: set<char> := {
    ' ', '\t', '\n', '\r', '\U{000B}', '\U{000C}',
    '\U{001C}', '\U{001D}', '\U{001E}', '\U{001F}', '\U{0085}', '\U{00A0}', '\U{1680}',
    '\U{2000}', '\U{2001}', '\U{2002}', '\U{2003}', '\U{2004}', '\U{2005}',
    '\U{2006}', '\U{2007}', '\U{2008}', '\U{2009}', '\U{200A}',
    '\U{2028}', '\U{2029}', '\U{202F}', '\U{205F}', '\U{3000}'
  }

  predicate IsSpace(c: char) {
    c in Whitespace
  }

  /** The scheme every configured URI must start with. */
  const HttpsPrefix := "https://"

  /** `s.startswith(prefix)`. */
  predicate StartsWith(s: string, prefix: string) {
    |prefix| <= |s| && s[..|prefix|] == prefix
  }

  /** `s[i]` exists and is whitespace. Quantifiers below are stated over
      this predicate so that they fire only where a proof asks about a
      position. */
  predicate SpaceAt(s: string, i: int) {
    0 <= i < |s| && IsSpace(s[i])
  }

  predicate AllSpace(s: string) {
    forall i :: 0 <= i < |s| ==> SpaceAt(s, i)
  }

  /** A part `str.split()` can produce: non-empty, without whitespace. */
  predicate IsWord(w: string) {
    |w| > 0 && forall i :: 0 <= i < |w| ==> !SpaceAt(w, i)
  }

  /** The end of the whitespace run of `s` that starts at `i`. */
  function SkipSpaces(s: string, i: nat): (j: nat)
    requires i <= |s|
    ensures i <= j <= |s|
    ensures forall k :: i <= k < j ==> SpaceAt(s, k)
    ensures !SpaceAt(s, j)
    decreases |s| - i
  {
    if i == |s| || !IsSpace(s[i]) then i else SkipSpaces(s, i + 1)
  }

  /** The end of the whitespace-free run of `s` that starts at `i`. */
  function SkipWord(s: string, i: nat): (j: nat)
    requires i <= |s|
    ensures i <= j <= |s|
    ensures forall k :: i <= k < j ==> !SpaceAt(s, k)
    ensures j < |s| ==> SpaceAt(s, j)
    decreases |s| - i
  {
    if i == |s| || IsSpace(s[i]) then i else SkipWord(s, i + 1)
  }

  /** `s.split()`: the maximal whitespace-free runs of `s`, in order. */
  function Split(s: string): seq<string>
    decreases |s|
  {
    var i := SkipSpaces(s, 0);
    if i == |s| then []
    else
      var j := SkipWord(s, i);
      [s[i..j]] + Split(s[j..])
  }

  /** `gaps[0] + words[0] + gaps[1] + ... + words[n-1] + gaps[n]`. */
  function Join(gaps: seq<string>, words: seq<string>): string
    requires |gaps| == |words| + 1
    decreases |words|
  {
    if words == [] then gaps[0]
    else gaps[0] + words[0] + Join(gaps[1..], words[1..])
  }

  /** `words` laid out between whitespace runs `gaps`; the runs between two
      words are non-empty, the leading and trailing ones may be empty. */
  predicate Layout(gaps: seq<string>, words: seq<string>) {
    && |gaps| == |words| + 1
    && (forall k :: 0 <= k < |gaps| ==> AllSpace(gaps[k]))
    && (forall k :: 0 < k < |words| ==> |gaps[k]| > 0)
    && (forall k :: 0 <= k < |words| ==> IsWord(words[k]))
  }

  /** The whitespace runs around and between the parts of `s.split()`. */
  function Gaps(s: string): seq<string>
    decreases |s|
  {
    var i := SkipSpaces(s, 0);
    if i == |s| then [s]
    else
      var j := SkipWord(s, i);
      [s[..i]] + Gaps(s[j..])
  }

  /** A whitespace run from `i` to `j` that is followed by no whitespace is
      what `SkipSpaces` finds. */
  lemma SkipSpacesTo(s: string, i: nat, j: nat)
    requires i <= j <= |s|
    requires forall k :: i <= k < j ==> SpaceAt(s, k)
    requires !SpaceAt(s, j)
    ensures SkipSpaces(s, i) == j
  {
  }

  /** A whitespace-free run from `i` to `j` that ends the string or is
      followed by whitespace is what `SkipWord` finds. */
  lemma SkipWordTo(s: string, i: nat, j: nat)
    requires i <= j <= |s|
    requires forall k :: i <= k < j ==> !SpaceAt(s, k)
    requires j == |s| || SpaceAt(s, j)
    ensures SkipWord(s, i) == j
  {
  }

  /** One step of `Split` and `Gaps` on a string that has a part. */
  lemma SplitStep(s: string, i: nat, j: nat)
    requires i == SkipSpaces(s, 0) < |s| && j == SkipWord(s, i)
    ensures i < j
    ensures Split(s) == [s[i..j]] + Split(s[j..])
    ensures Gaps(s) == [s[..i]] + Gaps(s[j..])
  {
  }

  /** A layout whose first gap is non-empty (or that is all gap) begins with
      whitespace, if it begins at all. */
  lemma JoinStartsWithSpace(gaps: seq<string>, words: seq<string>)
    requires Layout(gaps, words)
    requires words == [] || |gaps[0]| > 0
    ensures Join(gaps, words) == [] || SpaceAt(Join(gaps, words), 0)
  {
    if words == [] {
      assert Join(gaps, words) == gaps[0];
      assert |gaps[0]| > 0 ==> SpaceAt(gaps[0], 0);
    } else {
      assert SpaceAt(gaps[0], 0);
      assert Join(gaps, words)[0] == gaps[0][0];
    }
  }

  /** A word after a whitespace run, followed by the end or by whitespace,
      is the first part of the split. */
  lemma SplitFirstPart(g: string, w: string, rest: string)
    requires AllSpace(g) && IsWord(w)
    requires rest == [] || SpaceAt(rest, 0)
    ensures Split(g + w + rest) == [w] + Split(rest)
  {
    var s := g + w + rest;
    var i, j := |g|, |g| + |w|;
    forall k | 0 <= k < i ensures SpaceAt(s, k) {
      assert SpaceAt(g, k) && s[k] == g[k];
    }
    assert !SpaceAt(w, 0) && s[i] == w[0];
    SkipSpacesTo(s, 0, i);
    forall k | i <= k < j ensures !SpaceAt(s, k) {
      assert !SpaceAt(w, k - i) && s[k] == w[k - i];
    }
    assert j < |s| ==> s[j] == rest[0];
    SkipWordTo(s, i, j);
    SplitStep(s, i, j);
    assert s[i..j] == w && s[j..] == rest;
  }

  /** `str.split()` recovers the words of every layout: leading, trailing and
      repeated whitespace are dropped. */
  lemma {:induction false} SplitJoin(gaps: seq<string>, words: seq<string>)
    requires Layout(gaps, words)
    ensures Split(Join(gaps, words)) == words
    decreases |words|
  {
    var s := Join(gaps, words);
    if words == [] {
      assert s == gaps[0];
      SkipSpacesTo(s, 0, |s|);
    } else {
      var rest := Join(gaps[1..], words[1..]);
      assert Layout(gaps[1..], words[1..]);
      JoinStartsWithSpace(gaps[1..], words[1..]);
      assert s == gaps[0] + words[0] + rest;
      SplitFirstPart(gaps[0], words[0], rest);
      SplitJoin(gaps[1..], words[1..]);
    }
  }

  lemma Reassemble(s: string, i: nat, j: nat)
    requires i <= j <= |s|
    ensures s[..i] + s[i..j] + s[j..] == s
  {
  }

  lemma {:induction false} GapsJoin(s: string)
    ensures |Gaps(s)| == |Split(s)| + 1
    ensures Join(Gaps(s), Split(s)) == s
    decreases |s|
  {
    var i := SkipSpaces(s, 0);
    if i == |s| {
      assert Split(s) == [] && Gaps(s) == [s];
    } else {
      var j := SkipWord(s, i);
      SplitStep(s, i, j);
      var rest := s[j..];
      GapsJoin(rest);
      var gaps, words := [s[..i]] + Gaps(rest), [s[i..j]] + Split(rest);
      assert gaps[1..] == Gaps(rest);
      assert words[1..] == Split(rest);
      calc {
        Join(gaps, words);
        s[..i] + s[i..j] + Join(Gaps(rest), Split(rest));
        s[..i] + s[i..j] + s[j..];
        { Reassemble(s, i, j); }
        s;
      }
    }
  }

  /** The first gap of a split is whitespace, its first part a word, and
      what follows that part is empty or starts with whitespace. */
  lemma FirstPartShape(s: string, i: nat, j: nat)
    requires i == SkipSpaces(s, 0) < |s| && j == SkipWord(s, i)
    ensures AllSpace(s[..i]) && IsWord(s[i..j])
    ensures s[j..] == [] || SpaceAt(s[j..], 0)
  {
    forall t | 0 <= t < i ensures SpaceAt(s[..i], t) {
      assert SpaceAt(s, t) && s[..i][t] == s[t];
    }
    forall t | 0 <= t < j - i ensures !SpaceAt(s[i..j], t) {
      assert !SpaceAt(s, i + t) && s[i..j][t] == s[i + t];
    }
    assert j < |s| ==> SpaceAt(s, j) && s[j..][0] == s[j];
  }

  /** A string that starts with whitespace has a non-empty first gap. */
  lemma FirstGapNonEmpty(s: string)
    requires SpaceAt(s, 0)
    ensures |Gaps(s)| > 0 && |Gaps(s)[0]| > 0
  {
    var i := SkipSpaces(s, 0);
    if i < |s| {
      SplitStep(s, i, SkipWord(s, i));
    }
  }

  /** Every string is a layout of its own split: `s.split()` loses only
      whitespace, and only whitespace separates consecutive parts. */
  lemma {:induction false} GapsLayout(s: string)
    ensures Layout(Gaps(s), Split(s))
    ensures Join(Gaps(s), Split(s)) == s
    decreases |s|
  {
    GapsJoin(s);
    var i := SkipSpaces(s, 0);
    if i == |s| {
      assert Gaps(s) == [s] && Split(s) == [];
      forall t | 0 <= t < |s| ensures SpaceAt(s, t) {
      }
    } else {
      var j := SkipWord(s, i);
      SplitStep(s, i, j);
      FirstPartShape(s, i, j);
      var rest := s[j..];
      GapsLayout(rest);
      var gaps, words := Gaps(s), Split(s);
      var gs, ws := Gaps(rest), Split(rest);
      assert gaps[0] == s[..i] && words[0] == s[i..j];
      assert forall k :: 1 <= k < |gaps| ==> gaps[k] == gs[k - 1];
      assert forall k :: 1 <= k < |words| ==> words[k] == ws[k - 1];
      if |words| > 1 {
        FirstGapNonEmpty(rest);
      }
    }
  }

  /** `s.split()` is exactly the word sequence of `s`: the only words that
      `s` lays out are those of its split. */
  lemma SplitUnique(s: string, gaps: seq<string>, words: seq<string>)
    requires Layout(gaps, words) && Join(gaps, words) == s
    ensures Split(s) == words
  {
    SplitJoin(gaps, words);
  }

  /** An `Authorization` value with surrounding and repeated whitespace. */
  lemma SplitPaddedBearer()
    ensures Split("  Bearer   t ") == ["Bearer", "t"]
  {
    var gaps, words := ["  ", "   ", " "], ["Bearer", "t"];
    assert Layout(gaps, words);
    assert Join(gaps, words) == "  Bearer   t ";
    SplitJoin(gaps, words);
  }
}
