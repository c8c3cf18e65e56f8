/**
 * The tokeniser shared by the two local category suggesters:
 * `re.findall(r"[a-z0-9]+", text.lower())`, and the whole-word test
 * `re.search(r"\b" + re.escape(token) + r"\b", name)` with `\b` taken over
 * the ASCII word characters `[A-Za-z0-9_]`.
 */
module Tokens {
  import opened Text

  predicate IsTokenChar(c: char)
  {
    'a' <= c <= 'z' || '0' <= c <= '9'
  }

  /** A non-empty string made only of `[a-z0-9]`: something `findall` can return. */
  predicate IsWord(t: string)
  {
    t != [] && forall i :: 0 <= i < |t| ==> IsTokenChar(t[i])
  }

  /** The length of the run of token characters that `s` starts with. */
  function RunLength(s: string): (n: nat)
    ensures n <= |s|
    ensures forall i :: 0 <= i < n ==> IsTokenChar(s[i])
    ensures n < |s| ==> !IsTokenChar(s[n])
  {
    if s == [] || !IsTokenChar(s[0]) then 0
    else
      var n := RunLength(s[1..]);
      assert forall i :: 1 <= i < n + 1 ==> s[i] == s[1..][i - 1];
      n + 1
  }

  /** `re.findall(r"[a-z0-9]+", s)`: the maximal runs of token characters, left to right. */
  function Scan(s: string): (r: seq<string>)
    ensures forall k :: 0 <= k < |r| ==> IsWord(r[k])
    decreases |s|
  {
    if s == [] then []
    else if !IsTokenChar(s[0]) then Scan(s[1..])
    else
      var n := RunLength(s);
      [s[..n]] + Scan(s[n..])
  }

  /** `_tokenize(text)`, with `None` passed as the empty string. */
  function Tokenize(text: string): seq<string>
  {
    Scan(Lower(text))
  }

  /** A string of token characters that ends before a separator has the same run length with or without what follows. */
  lemma RunLengthBeforeSeparator(a: string, c: char, b: string)
    requires !IsTokenChar(c)
    ensures RunLength(a + [c] + b) == RunLength(a)
  {
    var x := a + [c] + b;
    var n, m := RunLength(x), RunLength(a);
    assert forall i :: 0 <= i < |a| ==> x[i] == a[i];
    assert x[|a|] == c;
  }

  /** A separator splits the token stream: findall over `a + c + b` is findall over `a`, then over `b`. */
  lemma {:induction false} ScanSplit(a: string, c: char, b: string)
    requires !IsTokenChar(c)
    ensures Scan(a + [c] + b) == Scan(a) + Scan(b)
    decreases |a|
  {
    var x := a + [c] + b;
    if a == [] {
      assert x == [c] + b;
      assert x[1..] == b;
    } else if !IsTokenChar(a[0]) {
      assert x[1..] == a[1..] + [c] + b;
      ScanSplit(a[1..], c, b);
    } else {
      RunLengthBeforeSeparator(a, c, b);
      var n := RunLength(a);
      assert x[..n] == a[..n];
      assert x[n..] == a[n..] + [c] + b;
      ScanSplit(a[n..], c, b);
    }
  }

  /** A single word is found as exactly one token. */
  lemma ScanWord(t: string)
    requires IsWord(t)
    ensures Scan(t) == [t]
  {
    var n := RunLength(t);
    assert IsTokenChar(t[0]);
    assert t[..n] == t;
    assert t[n..] == [];
  }

  /** Words joined by single spaces are tokenised back into the same words. */
  lemma {:induction false} ScanJoin(ts: seq<string>)
    requires forall k :: 0 <= k < |ts| ==> IsWord(ts[k])
    ensures Scan(Join(" ", ts)) == ts
  {
    if |ts| == 1 {
      ScanWord(ts[0]);
    } else if |ts| > 1 {
      ScanJoin(ts[1..]);
      ScanWord(ts[0]);
      ScanSplit(ts[0], ' ', Join(" ", ts[1..]));
      assert Join(" ", ts) == ts[0] + [' '] + Join(" ", ts[1..]);
    }
  }

  /** The parts of a `" ".join(parts)` query are tokenised one by one. */
  function TokenizeAll(parts: seq<string>): seq<string>
  {
    if parts == [] then [] else Tokenize(parts[0]) + TokenizeAll(parts[1..])
  }

  lemma LowerAppend(a: string, b: string)
    ensures Lower(a + b) == Lower(a) + Lower(b)
  {
    assert forall i :: 0 <= i < |a + b| ==> Lower(a + b)[i] == (Lower(a) + Lower(b))[i];
  }

  /**
   * Tokenising a space-joined query yields the tokens of each part in turn:
   * a space never lies inside a token, so no token spans two parts.
   */
  lemma {:induction false} TokenizeJoin(parts: seq<string>)
    ensures Tokenize(Join(" ", parts)) == TokenizeAll(parts)
  {
    if |parts| == 1 {
      assert TokenizeAll(parts[1..]) == [];
    } else if |parts| > 1 {
      var rest := Join(" ", parts[1..]);
      assert Join(" ", parts) == parts[0] + [' '] + rest;
      LowerAppend(parts[0] + [' '], rest);
      LowerAppend(parts[0], [' ']);
      assert Lower([' ']) == [' '];
      ScanSplit(Lower(parts[0]), ' ', Lower(rest));
      TokenizeJoin(parts[1..]);
    }
  }

  /** `findall` output is already lower case, so tokenising the space-joined tokens is a fixed point. */
  lemma TokenizeRoundTrip(text: string)
    ensures Tokenize(Join(" ", Tokenize(text))) == Tokenize(text)
  {
    var ts := Tokenize(text);
    ScanJoin(ts);
    JoinWordsLower(ts);
  }

  lemma {:induction false} JoinWordsLower(ts: seq<string>)
    requires forall k :: 0 <= k < |ts| ==> IsWord(ts[k])
    ensures Lower(Join(" ", ts)) == Join(" ", ts)
  {
    if |ts| == 1 {
      LowerNoCapitals(ts[0]);
    } else if |ts| > 1 {
      JoinWordsLower(ts[1..]);
      LowerNoCapitals(ts[0] + " ");
      LowerAppend(ts[0] + " ", Join(" ", ts[1..]));
    }
  }

  /** ASCII `\w`: `[A-Za-z0-9_]`. */
  predicate IsWordChar(c: char)
  {
    'a' <= c <= 'z' || 'A' <= c <= 'Z' || '0' <= c <= '9' || c == '_'
  }

  /** `t` occurs in `s` at `i` with a word boundary on both sides. */
  predicate WholeWordAt(s: string, t: string, i: int)
  {
    OccursAt(s, t, i)
    && (i == 0 || !IsWordChar(s[i - 1]))
    && (i + |t| == |s| || !IsWordChar(s[i + |t|]))
  }

  /** Whether `re.search(r"\b" + re.escape(t) + r"\b", s)` finds a match at index `k` or later, for a token `t`. */
  function WholeWordFrom(s: string, t: string, k: nat): (r: bool)
    ensures r <==> exists i :: k <= i && WholeWordAt(s, t, i)
    decreases |s| - k
  {
    if k + |t| > |s| then
      assert forall i :: k <= i ==> !WholeWordAt(s, t, i);
      false
    else if WholeWordAt(s, t, k) then true
    else
      var r := WholeWordFrom(s, t, k + 1);
      assert forall i :: k <= i && WholeWordAt(s, t, i) ==> i == k || k + 1 <= i;
      r
  }

  /** The whole-word search for a token `t` in a lower-cased category name. */
  function HasWholeWord(s: string, t: string): (r: bool)
    ensures r <==> exists i :: WholeWordAt(s, t, i)
  {
    assert forall i :: WholeWordAt(s, t, i) ==> 0 <= i;
    WholeWordFrom(s, t, 0)
  }

  /** A whole-word match is in particular a substring match. */
  lemma WholeWordContains(s: string, t: string)
    requires HasWholeWord(s, t)
    ensures Contains(s, t)
  {
    var i :| WholeWordAt(s, t, i);
    assert OccursAt(s, t, i);
  }

  /**
   * The points one query token earns against a lower-cased name: `whole`
   * for a whole-word match, else 1 for a substring match, else nothing.
   */
  function TokenPoints(name: string, t: string, whole: nat): (p: nat)
    requires whole >= 1
    ensures p == 0 <==> !Contains(name, t)
    ensures HasWholeWord(name, t) ==> p == whole
    ensures !HasWholeWord(name, t) && Contains(name, t) ==> p == 1
  {
    if HasWholeWord(name, t) then
      WholeWordContains(name, t);
      whole
    else if Contains(name, t) then 1
    else 0
  }

  /** The score of a name: the points of every query token, repeats included, added up in order. */
  function Score(tokens: seq<string>, name: string, whole: nat): nat
    requires whole >= 1
  {
    if tokens == [] then 0
    else Score(tokens[..|tokens| - 1], name, whole) + TokenPoints(name, tokens[|tokens| - 1], whole)
  }

  /** A name scores at all exactly when some query token is a substring of it. */
  lemma {:induction false} ScorePositive(tokens: seq<string>, name: string, whole: nat)
    requires whole >= 1
    ensures Score(tokens, name, whole) > 0 <==> exists k :: 0 <= k < |tokens| && Contains(name, tokens[k])
  {
    if tokens != [] {
      var init := tokens[..|tokens| - 1];
      ScorePositive(init, name, whole);
      assert forall k :: 0 <= k < |init| ==> init[k] == tokens[k];
    }
  }

  /** No token earns more than `whole` points, so the score is at most `whole` per token. */
  lemma {:induction false} ScoreBound(tokens: seq<string>, name: string, whole: nat)
    requires whole >= 1
    ensures Score(tokens, name, whole) <= whole * |tokens|
  {
    if tokens != [] {
      ScoreBound(tokens[..|tokens| - 1], name, whole);
      assert whole * |tokens| == whole * (|tokens| - 1) + whole;
    }
  }

  /** The score of a query is the sum of the scores of its parts. */
  lemma {:induction false} ScoreAppend(a: seq<string>, b: seq<string>, name: string, whole: nat)
    requires whole >= 1
    ensures Score(a + b, name, whole) == Score(a, name, whole) + Score(b, name, whole)
    decreases |b|
  {
    if b == [] {
      assert a + b == a;
    } else {
      assert (a + b)[..|a + b| - 1] == a + b[..|b| - 1];
      ScoreAppend(a, b[..|b| - 1], name, whole);
    }
  }
}
