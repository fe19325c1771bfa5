/** Trimming, lower-casing and searching, as far as keywords in ASCII can tell. */
module Text {
  /** What counts as white space in Unicode. */
  predicate IsSpace(c: char) {
    || '\t' <= c <= '\r' || c == ' ' || c == '\U{0085}' || c == '\U{00A0}' || c == '\U{1680}'
    || '\U{2000}' <= c <= '\U{200A}'
    || c == '\U{2028}' || c == '\U{2029}' || c == '\U{202F}' || c == '\U{205F}' || c == '\U{3000}'
  }

  function TrimLeft(s: string): (r: string)
    ensures |r| <= |s| && r == s[|s| - |r|..]
    ensures r != [] ==> !IsSpace(r[0])
    ensures forall i :: 0 <= i < |s| - |r| ==> IsSpace(s[i])
  {
    if s != [] && IsSpace(s[0]) then TrimLeft(s[1..]) else s
  }

  function TrimRight(s: string): (r: string)
    ensures |r| <= |s| && r == s[..|r|]
    ensures r != [] ==> !IsSpace(r[|r| - 1])
    ensures forall i :: |r| <= i < |s| ==> IsSpace(s[i])
  {
    if s != [] && IsSpace(s[|s| - 1]) then TrimRight(s[..|s| - 1]) else s
  }

  function Trim(s: string): (r: string)
    ensures r != [] ==> !IsSpace(r[0]) && !IsSpace(r[|r| - 1])
  {
    TrimRight(TrimLeft(s))
  }

  /**
   Besides the ASCII capitals only the dotted capital I and the Kelvin sign have a lower case in
   ASCII; the lower case of any other character is outside it, so it is left as it is.
   */
  function Lower(c: char): char {
    if 'A' <= c <= 'Z' then 'a' + (c - 'A')
    else if c == '\U{0130}' then 'i'
    else if c == '\U{212A}' then 'k'
    else c
  }

  function ToLower(s: string): (r: string)
    ensures |r| == |s| && forall i :: 0 <= i < |s| ==> r[i] == Lower(s[i])
  {
    seq(|s|, i requires 0 <= i < |s| => Lower(s[i]))
  }

  predicate Occurs(keyword: string, s: string) {
    exists i :: 0 <= i <= |s| && keyword <= s[i..]
  }

  /** Some keyword occurs in the trimmed text in lower case. */
  ghost predicate Mentions(text: string, keywords: seq<string>) {
    exists k :: k in keywords && Occurs(k, ToLower(Trim(text)))
  }

  method FindKeyword(text: string, keywords: seq<string>) returns (found: bool)
    ensures found <==> Mentions(text, keywords)
  {
    found := SearchFor(keywords, ToLower(Trim(text)));
  }

  method SearchFor(keywords: seq<string>, normalized: string) returns (found: bool)
    ensures found <==> exists k :: k in keywords && Occurs(k, normalized)
  {
    for i := 0 to |keywords|
      invariant forall j :: 0 <= j < i ==> !Occurs(keywords[j], normalized)
    {
      if Occurs(keywords[i], normalized) {
        assert keywords[i] in keywords;
        return true;
      }
    }
    return false;
  }

  // ------------------------------------------------------------------
  // What trimming and lower-casing leave out of account
  // ------------------------------------------------------------------

  /** The same text, but for the case of ASCII letters. */
  predicate SameButCase(s: string, t: string) {
    |s| == |t| && forall i :: 0 <= i < |s| ==>
      || s[i] == t[i]
      || ('A' <= s[i] <= 'Z' && t[i] as int == s[i] as int + 32)
      || ('A' <= t[i] <= 'Z' && s[i] as int == t[i] as int + 32)
  }

  lemma CaseDoesNotMatter(s: string, t: string)
    requires SameButCase(s, t)
    ensures ToLower(s) == ToLower(t)
  {
  }

  /** Lower-case text stays as it is, so different lower-case words stay different. */
  lemma LowerStays(s: string)
    requires forall i :: 0 <= i < |s| ==> 'a' <= s[i] <= 'z'
    ensures ToLower(s) == s
  {
  }

  lemma {:induction false} SpaceBeforeDoesNotMatter(before: string, s: string)
    requires forall i :: 0 <= i < |before| ==> IsSpace(before[i])
    ensures TrimLeft(before + s) == TrimLeft(s)
  {
    if before == [] {
      assert before + s == s;
    } else {
      assert (before + s)[1..] == before[1..] + s;
      SpaceBeforeDoesNotMatter(before[1..], s);
    }
  }

  lemma {:induction false} SpaceAfterDoesNotMatter(s: string, after: string)
    requires forall i :: 0 <= i < |after| ==> IsSpace(after[i])
    ensures TrimRight(s + after) == TrimRight(s)
    decreases |after|
  {
    if after == [] {
      assert s + after == s;
    } else {
      assert (s + after)[..|s + after| - 1] == s + after[..|after| - 1];
      SpaceAfterDoesNotMatter(s, after[..|after| - 1]);
    }
  }

  /** A word is found again in any case and with any space around it. */
  lemma TrimmedAndLowered(before: string, s: string, after: string, word: string)
    requires forall i :: 0 <= i < |before| ==> IsSpace(before[i])
    requires forall i :: 0 <= i < |after| ==> IsSpace(after[i])
    requires s != [] && !IsSpace(s[0]) && !IsSpace(s[|s| - 1])
    requires SameButCase(s, word) && forall i :: 0 <= i < |word| ==> 'a' <= word[i] <= 'z'
    ensures ToLower(Trim(before + s + after)) == word
  {
    assert before + s + after == before + (s + after);
    SpaceBeforeDoesNotMatter(before, s + after);
    assert TrimLeft(s + after) == s + after;
    SpaceAfterDoesNotMatter(s, after);
    CaseDoesNotMatter(s, word);
    LowerStays(word);
  }
}
