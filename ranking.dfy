/**
 * Scoring and ranking of category records, shared by `suggest_category`
 * (3 points per whole-word token) and `suggest_categories_local` (2 points):
 * the leaf-preferring search pool, the scoring loop, the stable sort by
 * (-score, length of name) and Python's `list[:k]`.
 */
module Ranking {
  import opened Text
  import opened Tokens

  /** A normalised category record `{"id", "name", "leaf"}`. */
  datatype Category = Category(id: string, name: string, leaf: bool)

  /** A category that matched the query, with its score. */
  datatype Scored = Scored(category: Category, score: nat)

  /** The sort key `(-score, len(name))`, as a pair compared lexicographically. */
  function Key(x: Scored): (int, int)
  {
    (-(x.score as int), |x.category.name|)
  }

  /** `key(a) < key(b)`: `a` ranks strictly ahead of `b`. */
  predicate Ahead(a: Scored, b: Scored)
  {
    a.score > b.score || (a.score == b.score && |a.category.name| < |b.category.name|)
  }

  /** No element ranks strictly ahead of one before it. */
  predicate Ranked(s: seq<Scored>)
  {
    forall i, j :: 0 <= i < j < |s| ==> !Ahead(s[j], s[i])
  }

  /** The elements of `s` whose sort key is `k`, in their order in `s`. */
  function WithKey(s: seq<Scored>, k: (int, int)): seq<Scored>
  {
    if s == [] then []
    else (if Key(s[0]) == k then [s[0]] else []) + WithKey(s[1..], k)
  }

  /** Puts `x` in front of the first element it ranks strictly ahead of, so behind all its equals. */
  function Insert(x: Scored, s: seq<Scored>): seq<Scored>
  {
    if s == [] then [x]
    else if Ahead(x, s[0]) then [x] + s
    else [s[0]] + Insert(x, s[1..])
  }

  /**
   * `scored.sort(key=lambda x: (-x["score"], len(x["name"])))`: Python's
   * sort is stable, modelled as an insertion sort that inserts each element
   * behind the earlier ones with the same key.
   */
  function RankSort(s: seq<Scored>): seq<Scored>
  {
    if s == [] then [] else Insert(s[|s| - 1], RankSort(s[..|s| - 1]))
  }

  lemma {:induction false} InsertMultiset(x: Scored, s: seq<Scored>)
    ensures multiset(Insert(x, s)) == multiset(s) + multiset{x}
  {
    if s != [] && !Ahead(x, s[0]) {
      InsertMultiset(x, s[1..]);
      assert s == [s[0]] + s[1..];
    }
  }

  /** A head that nothing in a ranked tail ranks ahead of extends it to a ranked list. */
  lemma RankedCons(h: Scored, t: seq<Scored>)
    requires Ranked(t)
    requires forall j :: 0 <= j < |t| ==> !Ahead(t[j], h)
    ensures Ranked([h] + t)
  {
    var u := [h] + t;
    forall i, j | 0 <= i < j < |u| ensures !Ahead(u[j], u[i]) {
      assert u[j] == t[j - 1];
      if i > 0 { assert u[i] == t[i - 1]; }
    }
  }

  lemma {:induction false} InsertRanked(x: Scored, s: seq<Scored>)
    requires Ranked(s)
    ensures Ranked(Insert(x, s))
  {
    if s == [] {
    } else if Ahead(x, s[0]) {
      forall j | 0 <= j < |s| ensures !Ahead(s[j], x) {
        if j > 0 { assert !Ahead(s[j], s[0]); }
      }
      RankedCons(x, s);
    } else {
      var t := Insert(x, s[1..]);
      assert Ranked(s[1..]) by {
        forall i, j | 0 <= i < j < |s| - 1 ensures !Ahead(s[1..][j], s[1..][i]) {
          assert s[1..][j] == s[j + 1] && s[1..][i] == s[i + 1];
        }
      }
      InsertRanked(x, s[1..]);
      InsertMultiset(x, s[1..]);
      forall j | 0 <= j < |t| ensures !Ahead(t[j], s[0]) {
        assert t[j] in multiset(t);
        if t[j] != x {
          assert t[j] in multiset(s[1..]);
          var m :| 0 <= m < |s[1..]| && s[1..][m] == t[j];
          assert s[m + 1] == t[j];
        }
      }
      RankedCons(s[0], t);
    }
  }

  /** The sorted list is ranked and holds exactly the input's elements. */
  lemma {:induction false} RankSortRanked(s: seq<Scored>)
    ensures Ranked(RankSort(s))
    ensures multiset(RankSort(s)) == multiset(s)
  {
    if s != [] {
      var init := s[..|s| - 1];
      RankSortRanked(init);
      InsertRanked(s[|s| - 1], RankSort(init));
      InsertMultiset(s[|s| - 1], RankSort(init));
      assert s == init + [s[|s| - 1]];
    }
  }

  /** Everything behind the head of a ranked list ranks behind anything that ranks ahead of that head. */
  lemma AheadOfHead(x: Scored, s: seq<Scored>)
    requires Ranked(s) && s != [] && Ahead(x, s[0])
    ensures forall j :: 0 <= j < |s| ==> Ahead(x, s[j]) && Key(s[j]) != Key(x)
  {
    forall j | 0 <= j < |s| ensures Ahead(x, s[j]) && Key(s[j]) != Key(x) {
      if j > 0 { assert !Ahead(s[j], s[0]); }
    }
  }

  lemma {:induction false} WithKeyNone(s: seq<Scored>, k: (int, int))
    requires forall j :: 0 <= j < |s| ==> Key(s[j]) != k
    ensures WithKey(s, k) == []
  {
    if s != [] { WithKeyNone(s[1..], k); }
  }

  lemma {:induction false} InsertStable(x: Scored, s: seq<Scored>, k: (int, int))
    requires Ranked(s)
    ensures WithKey(Insert(x, s), k) == WithKey(s, k) + (if Key(x) == k then [x] else [])
  {
    if s == [] {
    } else if Ahead(x, s[0]) {
      AheadOfHead(x, s);
      if Key(x) == k { WithKeyNone(s, k); }
      assert ([x] + s)[1..] == s;
    } else {
      assert Ranked(s[1..]) by {
        assert forall i :: 0 <= i < |s| - 1 ==> s[1..][i] == s[i + 1];
      }
      InsertStable(x, s[1..], k);
      assert ([s[0]] + Insert(x, s[1..]))[1..] == Insert(x, s[1..]);
    }
  }

  lemma WithKeyCons(h: Scored, t: seq<Scored>, k: (int, int))
    ensures WithKey([h] + t, k) == (if Key(h) == k then [h] else []) + WithKey(t, k)
  {
    assert ([h] + t)[0] == h && ([h] + t)[1..] == t;
  }

  lemma {:induction false} WithKeyAppend(a: seq<Scored>, b: seq<Scored>, k: (int, int))
    ensures WithKey(a + b, k) == WithKey(a, k) + WithKey(b, k)
  {
    if a == [] {
      assert a + b == b;
    } else {
      var h, t := a[0], a[1..];
      WithKeyAppend(t, b, k);
      assert a == [h] + t;
      assert a + b == [h] + (t + b);
      WithKeyCons(h, t, k);
      WithKeyCons(h, t + b, k);
    }
  }

  /**
   * The sort is stable: for every sort key, the elements with that key come
   * out in the order they went in.
   */
  lemma {:induction false} RankSortStable(s: seq<Scored>, k: (int, int))
    ensures WithKey(RankSort(s), k) == WithKey(s, k)
  {
    if s != [] {
      var init := s[..|s| - 1];
      var x := s[|s| - 1];
      RankSortStable(init, k);
      RankSortRanked(init);
      assert s == init + [x];
      StableStep(RankSort(init), init, x, k);
    }
  }

  /** Inserting into a ranked list whose key classes match `init`'s gives the key classes of `init + [x]`. */
  lemma StableStep(r: seq<Scored>, init: seq<Scored>, x: Scored, k: (int, int))
    requires Ranked(r) && WithKey(r, k) == WithKey(init, k)
    ensures WithKey(Insert(x, r), k) == WithKey(init + [x], k)
  {
    InsertStable(x, r, k);
    WithKeyAppend(init, [x], k);
    assert WithKey([x], k) == (if Key(x) == k then [x] else []) by {
      assert [x][1..] == [];
    }
  }

  /** Python's `s[:k]` for any integer `k` (a negative `k` drops elements from the end). */
  function Slice<T>(s: seq<T>, k: int): (r: seq<T>)
    ensures |r| <= |s| && r == s[..|r|]
    ensures 0 <= k ==> |r| == (if k < |s| then k else |s|)
    ensures k < 0 ==> |r| == (if |s| + k > 0 then |s| + k else 0)
  {
    if 0 <= k then (if k < |s| then s[..k] else s)
    else if |s| + k > 0 then s[..|s| + k]
    else []
  }

  /** The leaf categories, in order. */
  function Leaves(cs: seq<Category>): (r: seq<Category>)
    ensures forall i :: 0 <= i < |r| ==> r[i].leaf && r[i] in cs
    ensures forall c :: c in cs && c.leaf ==> c in r
  {
    if cs == [] then []
    else (if cs[0].leaf then [cs[0]] else []) + Leaves(cs[1..])
  }

  /** The search pool: the leaf categories if there are any, otherwise every category. */
  function Pool(cs: seq<Category>): seq<Category>
  {
    if Leaves(cs) != [] then Leaves(cs) else cs
  }

  /** The pool keeps every leaf, holds only leaves when there is one, and is empty only for no categories. */
  lemma PoolSpec(cs: seq<Category>)
    ensures forall c :: c in Pool(cs) ==> c in cs
    ensures (exists c :: c in cs && c.leaf) ==> forall c :: c in Pool(cs) ==> c.leaf
    ensures forall c :: c in cs && c.leaf ==> c in Pool(cs)
    ensures Pool(cs) == [] <==> cs == []
  {
    if exists c :: c in cs && c.leaf {
      var c :| c in cs && c.leaf;
      assert c in Leaves(cs);
    }
  }

  /** A category's score against the query tokens: its name is lower-cased first. */
  function ScoreOf(c: Category, tokens: seq<string>, whole: nat): nat
    requires whole >= 1
  {
    Score(tokens, Lower(c.name), whole)
  }

  /** The pool's categories that score at all, each with its score, in pool order. */
  function Matches(pool: seq<Category>, tokens: seq<string>, whole: nat): seq<Scored>
    requires whole >= 1
  {
    if pool == [] then []
    else
      var c := pool[|pool| - 1];
      var s := ScoreOf(c, tokens, whole);
      Matches(pool[..|pool| - 1], tokens, whole) + (if s > 0 then [Scored(c, s)] else [])
  }

  /** Exactly the categories of the pool with a positive score are kept, with their scores. */
  lemma {:induction false} MatchesSpec(pool: seq<Category>, tokens: seq<string>, whole: nat)
    requires whole >= 1
    ensures forall x :: x in Matches(pool, tokens, whole) ==>
              x.category in pool && x.score > 0 && x.score == ScoreOf(x.category, tokens, whole)
    ensures forall c :: c in pool && ScoreOf(c, tokens, whole) > 0 ==>
              Scored(c, ScoreOf(c, tokens, whole)) in Matches(pool, tokens, whole)
  {
    if pool != [] {
      var init := pool[..|pool| - 1];
      MatchesSpec(init, tokens, whole);
      assert pool == init + [pool[|pool| - 1]];
    }
  }

  /**
   * The scoring loop: for each pool category, add up the points of every
   * query token against its lower-cased name, and keep it when the total is
   * positive.
   */
  method ScorePool(pool: seq<Category>, tokens: seq<string>, whole: nat) returns (scored: seq<Scored>)
    requires whole >= 1
    ensures scored == Matches(pool, tokens, whole)
  {
    scored := [];
    var i := 0;
    while i < |pool|
      invariant 0 <= i <= |pool|
      invariant scored == Matches(pool[..i], tokens, whole)
    {
      var nameLower := Lower(pool[i].name);
      var score := 0;
      var j := 0;
      while j < |tokens|
        invariant 0 <= j <= |tokens|
        invariant score == Score(tokens[..j], nameLower, whole)
      {
        var t := tokens[j];
        if HasWholeWord(nameLower, t) {
          score := score + whole;
        } else if Contains(nameLower, t) {
          score := score + 1;
        }
        assert tokens[..j + 1][..j] == tokens[..j];
        j := j + 1;
      }
      assert tokens[..j] == tokens;
      if score > 0 {
        scored := scored + [Scored(pool[i], score)];
      }
      assert pool[..i + 1][..i] == pool[..i];
      i := i + 1;
    }
    assert pool[..i] == pool;
  }

  /**
   * The ranked suggestions: nothing for no categories or no query tokens,
   * else the matching pool categories sorted by (-score, length of name)
   * and cut to `k`.
   */
  function Suggestions(categories: seq<Category>, tokens: seq<string>, whole: nat, k: int): seq<Scored>
    requires whole >= 1
  {
    if categories == [] || tokens == [] then []
    else Slice(RankSort(Matches(Pool(categories), tokens, whole)), k)
  }

  /** A slice of a ranked list is ranked and holds nothing new. */
  lemma SliceRanked(s: seq<Scored>, k: int)
    requires Ranked(s)
    ensures Ranked(Slice(s, k))
    ensures forall x :: x in Slice(s, k) ==> x in s
  {
    var r := Slice(s, k);
    assert forall i :: 0 <= i < |r| ==> r[i] == s[i];
  }

  /** Every suggestion is a scored match of the pool. */
  lemma SuggestionsFromMatches(categories: seq<Category>, tokens: seq<string>, whole: nat, k: int)
    requires whole >= 1
    requires categories != [] && tokens != []
    ensures Ranked(Suggestions(categories, tokens, whole, k))
    ensures forall x :: x in Suggestions(categories, tokens, whole, k) ==> x in Matches(Pool(categories), tokens, whole)
  {
    var m := Matches(Pool(categories), tokens, whole);
    RankSortRanked(m);
    SliceRanked(RankSort(m), k);
    assert forall x :: x in RankSort(m) ==> x in multiset(m);
  }

  /**
   * What a suggestion list promises: each entry is a category with a
   * positive score equal to its real score, a leaf whenever leaves exist,
   * the list is ranked and it holds at most `k` entries.
   */
  lemma SuggestionsSpec(categories: seq<Category>, tokens: seq<string>, whole: nat, k: int)
    requires whole >= 1
    ensures var r := Suggestions(categories, tokens, whole, k);
      && (categories == [] || tokens == [] ==> r == [])
      && (forall x :: x in r ==>
            x.category in categories && x.score >= 1
            && x.score == ScoreOf(x.category, tokens, whole))
      && ((exists c :: c in categories && c.leaf) ==> forall x :: x in r ==> x.category.leaf)
      && Ranked(r)
      && (0 <= k ==> |r| <= k)
  {
    if categories != [] && tokens != [] {
      SuggestionsFromMatches(categories, tokens, whole, k);
      MatchesSpec(Pool(categories), tokens, whole);
      PoolSpec(categories);
    }
  }

  /**
   * With `k >= 1` there is a suggestion exactly when some pool category
   * scores, and the first suggestion ranks at least as high as every match.
   */
  lemma SuggestionsHead(categories: seq<Category>, tokens: seq<string>, whole: nat, k: int)
    requires whole >= 1 && k >= 1
    requires categories != [] && tokens != []
    ensures Suggestions(categories, tokens, whole, k) != [] <==> Matches(Pool(categories), tokens, whole) != []
    ensures Suggestions(categories, tokens, whole, k) != [] ==>
              forall x :: x in Matches(Pool(categories), tokens, whole) ==> !Ahead(x, Suggestions(categories, tokens, whole, k)[0])
  {
    var m := Matches(Pool(categories), tokens, whole);
    var sorted := RankSort(m);
    RankSortRanked(m);
    assert |sorted| == |multiset(sorted)| == |multiset(m)| == |m|;
    forall x | x in m ensures !Ahead(x, sorted[0]) {
      assert x in multiset(sorted);
      var j :| 0 <= j < |sorted| && sorted[j] == x;
      if j > 0 { assert !Ahead(sorted[j], sorted[0]); }
    }
  }

  /** When `k` covers every match, the suggestions are all the matches, reordered. */
  lemma SuggestionsComplete(categories: seq<Category>, tokens: seq<string>, whole: nat, k: int)
    requires whole >= 1
    requires categories != [] && tokens != []
    requires k >= |Matches(Pool(categories), tokens, whole)|
    ensures multiset(Suggestions(categories, tokens, whole, k)) == multiset(Matches(Pool(categories), tokens, whole))
  {
    RankSortRanked(Matches(Pool(categories), tokens, whole));
  }
}
