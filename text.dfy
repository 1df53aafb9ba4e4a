/**
 * The few Python string operations the decision code relies on: `lower`,
 * `upper`, `capitalize`, `strip`, `startswith`, the substring test `in`,
 * `split()` and `split(sep)[1]`. Characters are treated as ASCII: only
 * 'A'..'Z' / 'a'..'z' change case and only ' ', '\t', '\n', '\v', '\f', '\r'
 * count as white space.
 */
module Text {
  import opened Base

  predicate IsSpace(c: char) {
    c == ' ' || '\t' <= c <= '\r'
  }

  function LowerChar(c: char): char {
    if 'A' <= c <= 'Z' then (c as int + 32) as char else c
  }

  function UpperChar(c: char): char {
    if 'a' <= c <= 'z' then (c as int - 32) as char else c
  }

  /** `s.lower()` */
  function Lower(s: string): (r: string)
    ensures |r| == |s|
    ensures forall i :: 0 <= i < |s| ==> r[i] == LowerChar(s[i])
  {
    seq(|s|, i requires 0 <= i < |s| => LowerChar(s[i]))
  }

  /** `s.capitalize()`: first character upper case, the rest lower case. */
  function Capitalize(s: string): (r: string)
    ensures |r| == |s|
    ensures |s| > 0 ==> r[0] == UpperChar(s[0]) && r[1..] == Lower(s[1..])
  {
    if s == [] then [] else [UpperChar(s[0])] + Lower(s[1..])
  }

  lemma LowerAppend(a: string, b: string)
    ensures Lower(a + b) == Lower(a) + Lower(b)
  {
    assert forall i :: 0 <= i < |a + b| ==> Lower(a + b)[i] == (Lower(a) + Lower(b))[i];
  }

  /** A string already in lower case is left alone by `lower()`. */
  predicate IsLower(s: string) {
    forall i :: 0 <= i < |s| ==> !('A' <= s[i] <= 'Z')
  }

  lemma LowerOfLower(s: string)
    requires IsLower(s)
    ensures Lower(s) == s
  {
  }

  /** Lower-casing the capitalised form of a lower-case word gives the word back. */
  lemma LowerCapitalize(s: string)
    requires IsLower(s)
    ensures Lower(Capitalize(s)) == s
  {
    if s != [] {
      LowerOfLower(s[1..]);
      assert forall i :: 0 <= i < |s| ==> Lower(Capitalize(s))[i] == s[i];
    }
  }

  /** `s.startswith(p)` */
  predicate StartsWith(s: string, p: string) {
    |p| <= |s| && s[..|p|] == p
  }

  /** Python's `sub in s`. */
  predicate Contains(s: string, sub: string)
    decreases |s|
  {
    StartsWith(s, sub) || (s != [] && Contains(s[1..], sub))
  }

  /** Whatever surrounds it, a piece of text is found inside `pre + sub + post`. */
  lemma {:induction false} ContainsInfix(pre: string, sub: string, post: string)
    ensures Contains(pre + sub + post, sub)
  {
    if pre == [] {
      assert (pre + sub + post)[..|sub|] == sub;
    } else {
      assert (pre + sub + post)[1..] == pre[1..] + sub + post;
      ContainsInfix(pre[1..], sub, post);
    }
  }

  /** A string too short to hold `sub` does not contain it. */
  lemma TooShort(s: string, sub: string)
    requires |s| < |sub|
    ensures !Contains(s, sub)
    decreases |s|
  {
    if s != [] {
      TooShort(s[1..], sub);
    }
  }

  /** `sub` occurs in `s` only at or after position `k` when it starts at none before `k`. */
  lemma {:induction false} NotContainsFrom(s: string, sub: string, k: nat)
    requires k <= |s|
    requires forall j :: 0 <= j < k ==> !StartsWith(s[j..], sub)
    requires !Contains(s[k..], sub)
    ensures !Contains(s, sub)
    decreases k
  {
    if k > 0 {
      assert forall j :: 0 <= j < k - 1 ==> s[1..][j..] == s[j + 1..];
      assert s[1..][k - 1..] == s[k..];
      NotContainsFrom(s[1..], sub, k - 1);
      assert !StartsWith(s[0..], sub);
      assert s[0..] == s;
    }
  }

  /** A string lacking one of the characters of `sub` does not contain `sub`. */
  lemma {:induction false} MissingCharNotContained(s: string, sub: string, i: nat)
    requires i < |sub|
    requires forall j :: 0 <= j < |s| ==> s[j] != sub[i]
    ensures !Contains(s, sub)
    decreases |s|
  {
    assert !StartsWith(s, sub) by {
      if |sub| <= |s| {
        assert s[..|sub|][i] != sub[i];
      }
    }
    if s != [] {
      MissingCharNotContained(s[1..], sub, i);
    }
  }

  /** Position of the first occurrence of `sub` in `s` (`s.find(sub)`). */
  function IndexOf(s: string, sub: string): (r: Option<nat>)
    decreases |s|
    ensures r.Some? <==> Contains(s, sub)
    ensures r.Some? ==> r.value + |sub| <= |s| && s[r.value..r.value + |sub|] == sub
    ensures r.Some? ==> forall j :: 0 <= j < r.value ==> !StartsWith(s[j..], sub)
  {
    if StartsWith(s, sub) then Some(0)
    else if s == [] then None
    else match IndexOf(s[1..], sub)
      case None => None
      case Some(k) =>
        assert forall j :: 1 <= j <= k ==> s[j..] == s[1..][j - 1..];
        Some(k + 1)
  }

  /**
   * `s.split(sep)[1]` when `sep` occurs in `s`: the text between the first
   * occurrence of `sep` and the next one (or the end of `s`).
   */
  function SecondField(s: string, sep: string): (r: string)
    requires Contains(s, sep) && sep != []
  {
    var i := IndexOf(s, sep).value;
    var rest := s[i + |sep|..];
    match IndexOf(rest, sep)
    case None => rest
    case Some(j) => rest[..j]
  }

  /** Drops leading white space. */
  function TrimLeft(s: string): (r: string)
    ensures |r| <= |s|
  {
    if s != [] && IsSpace(s[0]) then TrimLeft(s[1..]) else s
  }

  /** Drops trailing white space. */
  function TrimRight(s: string): (r: string)
    ensures |r| <= |s|
  {
    if s != [] && IsSpace(s[|s| - 1]) then TrimRight(s[..|s| - 1]) else s
  }

  /** `TrimLeft` drops exactly the leading white space: a suffix remains that starts with a non-space. */
  lemma {:induction false} TrimLeftSpec(s: string)
    ensures var r := TrimLeft(s);
      && r == s[|s| - |r|..]
      && (r != [] ==> !IsSpace(r[0]))
      && (forall i :: 0 <= i < |s| - |r| ==> IsSpace(s[i]))
    decreases |s|
  {
    if s != [] && IsSpace(s[0]) {
      TrimLeftSpec(s[1..]);
      assert forall i :: 1 <= i < |s| ==> s[i] == s[1..][i - 1];
    }
  }

  /** `TrimRight` drops exactly the trailing white space: a prefix remains that ends with a non-space. */
  lemma {:induction false} TrimRightSpec(s: string)
    ensures var r := TrimRight(s);
      && r == s[..|r|]
      && (r != [] ==> !IsSpace(r[|r| - 1]))
      && (forall i :: |r| <= i < |s| ==> IsSpace(s[i]))
    decreases |s|
  {
    if s != [] && IsSpace(s[|s| - 1]) {
      TrimRightSpec(s[..|s| - 1]);
    }
  }

  /** `s.strip()` */
  function Strip(s: string): string {
    TrimRight(TrimLeft(s))
  }

  /** `strip()` leaves a string that starts and ends with a non-space character unchanged. */
  lemma StripClean(s: string)
    requires s != [] && !IsSpace(s[0]) && !IsSpace(s[|s| - 1])
    ensures Strip(s) == s
  {
    assert TrimLeft(s) == s;
  }

  /** `sub` found at position `q` of `s`. */
  lemma ContainsAt(s: string, sub: string, q: nat)
    requires q + |sub| <= |s| && s[q..q + |sub|] == sub
    ensures Contains(s, sub)
  {
    assert s == s[..q] + sub + s[q + |sub|..];
    ContainsInfix(s[..q], sub, s[q + |sub|..]);
  }

  /** A position where `sub` occurs in `s`. */
  lemma {:induction false} Occurs(s: string, sub: string) returns (p: nat)
    requires Contains(s, sub)
    ensures p + |sub| <= |s| && s[p..p + |sub|] == sub
    decreases |s|
  {
    if StartsWith(s, sub) {
      p := 0;
    } else {
      var q := Occurs(s[1..], sub);
      assert s[1..][q..q + |sub|] == s[q + 1..q + 1 + |sub|];
      p := q + 1;
    }
  }

  lemma {:induction false} TrimLeftKeeps(s: string, w: string)
    requires Contains(s, w) && w != [] && !IsSpace(w[0])
    ensures Contains(TrimLeft(s), w)
    decreases |s|
  {
    if s != [] && IsSpace(s[0]) {
      assert !StartsWith(s, w) by {
        if |w| <= |s| {
          assert s[..|w|][0] == s[0];
        }
      }
      TrimLeftKeeps(s[1..], w);
    }
  }

  /** A non-space character is never cut off by `TrimRight`. */
  lemma {:induction false} TrimRightBound(s: string, j: nat)
    requires j < |s| && !IsSpace(s[j])
    ensures j < |TrimRight(s)|
    decreases |s|
  {
    if s != [] && IsSpace(s[|s| - 1]) {
      assert j != |s| - 1;
      TrimRightBound(s[..|s| - 1], j);
    }
  }

  lemma TrimRightKeeps(s: string, w: string)
    requires Contains(s, w) && w != [] && !IsSpace(w[|w| - 1])
    ensures Contains(TrimRight(s), w)
  {
    var p := Occurs(s, w);
    var j := p + |w| - 1;
    assert s[p..p + |w|][|w| - 1] == s[j];
    TrimRightBound(s, j);
    TrimRightSpec(s);
    var r := TrimRight(s);
    assert r[p..p + |w|] == s[p..p + |w|];
    ContainsAt(r, w, p);
  }

  /** An occurrence of a piece of text that neither starts nor ends with white space survives `strip()`. */
  lemma StripKeeps(s: string, w: string)
    requires Contains(s, w) && w != [] && !IsSpace(w[0]) && !IsSpace(w[|w| - 1])
    ensures Contains(Strip(s), w)
  {
    TrimLeftKeeps(s, w);
    TrimRightKeeps(TrimLeft(s), w);
  }

  /** Lower-casing both sides keeps an occurrence. */
  lemma ContainsLower(s: string, w: string)
    requires Contains(s, w)
    ensures Contains(Lower(s), Lower(w))
  {
    var p := Occurs(s, w);
    assert Lower(s)[p..p + |w|] == Lower(w);
    ContainsAt(Lower(s), Lower(w), p);
  }

  /** The longest prefix of `s` free of white space. */
  function WordPrefix(s: string): (w: string)
    ensures |w| <= |s| && w == s[..|w|]
    ensures forall i :: 0 <= i < |w| ==> !IsSpace(w[i])
    ensures |w| < |s| ==> IsSpace(s[|w|])
  {
    if s == [] || IsSpace(s[0]) then [] else [s[0]] + WordPrefix(s[1..])
  }

  /** A word produced by `split()`: non-empty and free of white space. */
  predicate IsWord(w: string) {
    w != [] && forall i :: 0 <= i < |w| ==> !IsSpace(w[i])
  }

  /** `s.split()`: the maximal runs of non-white-space characters, in order. */
  function Words(s: string): (ws: seq<string>)
    decreases |s|
    ensures forall k :: 0 <= k < |ws| ==> IsWord(ws[k])
  {
    var t := TrimLeft(s);
    if t == [] then []
    else
      TrimLeftSpec(s);
      var w := WordPrefix(t);
      [w] + Words(t[|w|..])
  }
}
