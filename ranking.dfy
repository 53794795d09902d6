/**
 * Recipe recommendation (`recommend_recipes`): score every distinct recipe
 * against the features of the inventory, keep those scoring above zero, sort
 * them by score from high to low (stably, as Python's `list.sort` does) and
 * keep the first `top_n`.
 */
module Ranking {
  import opened Wrappers
  import opened Text
  import opened Inventory
  import opened Corpus
  import opened Scoring

  /**
   * One recommended recipe: id, title, genre, score, breakdown and its
   * ingredient rows (read back by the menu planner to consume stock).
   */
  datatype Recommendation = Recommendation(
    recipeId: int,
    title: string,
    genre: string,
    score: real,
    details: Option<Details>,
    ingredients: seq<IngredientRow>)

  /** The entry built for a recipe of the catalog. */
  function Entry(e: Engine, r: Recipe, f: Features): Recommendation
    requires f.Wf()
  {
    Recommendation(r.id, r.title, r.genre, RecipeScore(e, r.id, f), RecipeDetails(e, r.id, f), RowsOf(e.ingredients, r.id))
  }

  /** The entries of the recipes, in catalog order. */
  function Entries(e: Engine, recipes: seq<Recipe>, f: Features): seq<Recommendation>
    requires f.Wf()
  {
    seq(|recipes|, k requires 0 <= k < |recipes| => Entry(e, recipes[k], f))
  }

  /** The entries scoring above zero (`if score > 0`), in order. */
  function Positive(s: seq<Recommendation>): seq<Recommendation>
    decreases |s|
  {
    if s == [] then []
    else Positive(s[..|s| - 1]) + (if s[|s| - 1].score > 0.0 then [s[|s| - 1]] else [])
  }

  lemma {:induction false} PositiveSpec(s: seq<Recommendation>)
    ensures forall x :: x in Positive(s) <==> x in s && x.score > 0.0
    ensures |Positive(s)| <= |s|
    decreases |s|
  {
    if s != [] {
      var pre := s[..|s| - 1];
      PositiveSpec(pre);
      assert s == pre + [s[|s| - 1]];
    }
  }

  /** The catalog entries scoring above zero, in catalog order. */
  function Candidates(e: Engine, f: Features): seq<Recommendation>
    requires f.Wf()
  {
    Positive(Entries(e, e.catalog, f))
  }

  /** A candidate is exactly the entry of a catalog recipe that scores above zero. */
  lemma CandidatesSpec(e: Engine, f: Features)
    requires f.Wf()
    ensures forall c :: c in Candidates(e, f) <==>
      c.score > 0.0 && exists k :: 0 <= k < |e.catalog| && c == Entry(e, e.catalog[k], f)
  {
    var entries := Entries(e, e.catalog, f);
    PositiveSpec(entries);
    forall c | c in entries ensures exists k :: 0 <= k < |e.catalog| && c == Entry(e, e.catalog[k], f) {
      var k :| 0 <= k < |entries| && entries[k] == c;
    }
    forall c | exists k :: 0 <= k < |e.catalog| && c == Entry(e, e.catalog[k], f) ensures c in entries {
      var k :| 0 <= k < |e.catalog| && c == Entry(e, e.catalog[k], f);
      assert entries[k] == c;
    }
  }

  // ---------------------------------------------------------------------------
  // Stable sort by descending score

  predicate SortedByScore(s: seq<Recommendation>) {
    forall i, j :: 0 <= i < j < |s| ==> s[i].score >= s[j].score
  }

  /**
   * Inserts `x` into a list sorted from high to low, in front of the first
   * entry whose score is not higher, so that among equal scores `x` (which came
   * first) stays first.
   */
  function InsertByScore(x: Recommendation, s: seq<Recommendation>): seq<Recommendation>
    decreases |s|
  {
    if s == [] || s[0].score <= x.score then [x] + s
    else [s[0]] + InsertByScore(x, s[1..])
  }

  /** `list.sort(key=score, reverse=True)`: stable, highest score first. */
  function SortByScore(s: seq<Recommendation>): seq<Recommendation>
    decreases |s|
  {
    if s == [] then [] else InsertByScore(s[0], SortByScore(s[1..]))
  }

  lemma {:induction false} InsertKeepsOrder(x: Recommendation, s: seq<Recommendation>)
    requires SortedByScore(s)
    ensures SortedByScore(InsertByScore(x, s))
    ensures |InsertByScore(x, s)| == |s| + 1
    ensures InsertByScore(x, s)[0] == x || (s != [] && InsertByScore(x, s)[0] == s[0])
    decreases |s|
  {
    var r := InsertByScore(x, s);
    if s != [] && s[0].score > x.score {
      var t := InsertByScore(x, s[1..]);
      InsertKeepsOrder(x, s[1..]);
      assert r == [s[0]] + t;
      assert t[0].score <= s[0].score by {
        if t[0] != x {
          assert t[0] == s[1];
        }
      }
      forall i, j | 0 <= i < j < |r| ensures r[i].score >= r[j].score {
        if i == 0 {
          assert r[j] == t[j - 1];
          if j > 1 {
            assert t[0].score >= t[j - 1].score;
          }
        } else {
          assert r[i] == t[i - 1] && r[j] == t[j - 1];
        }
      }
    }
  }

  lemma {:induction false} InsertKeepsEntries(x: Recommendation, s: seq<Recommendation>)
    ensures multiset(InsertByScore(x, s)) == multiset([x] + s)
    decreases |s|
  {
    if s != [] && s[0].score > x.score {
      InsertKeepsEntries(x, s[1..]);
      assert InsertByScore(x, s) == [s[0]] + InsertByScore(x, s[1..]);
      assert s == [s[0]] + s[1..];
    }
  }

  /** The sort yields a list ordered from the highest score down, with the same entries. */
  lemma {:induction false} SortByScoreSpec(s: seq<Recommendation>)
    ensures SortedByScore(SortByScore(s))
    ensures multiset(SortByScore(s)) == multiset(s)
    ensures |SortByScore(s)| == |s|
    decreases |s|
  {
    if s != [] {
      SortByScoreSpec(s[1..]);
      InsertKeepsOrder(s[0], SortByScore(s[1..]));
      InsertKeepsEntries(s[0], SortByScore(s[1..]));
      assert s == [s[0]] + s[1..];
    }
  }

  /** The entries of `s` with score `v`, in order. */
  function WithScore(s: seq<Recommendation>, v: real): seq<Recommendation>
    decreases |s|
  {
    if s == [] then [] else (if s[0].score == v then [s[0]] else []) + WithScore(s[1..], v)
  }

  lemma WithScoreCons(y: Recommendation, t: seq<Recommendation>, v: real)
    ensures WithScore([y] + t, v) == (if y.score == v then [y] else []) + WithScore(t, v)
  {
    assert ([y] + t)[1..] == t;
  }

  lemma {:induction false} InsertKeepsTies(x: Recommendation, s: seq<Recommendation>, v: real)
    ensures WithScore(InsertByScore(x, s), v) == (if x.score == v then [x] else []) + WithScore(s, v)
    decreases |s|
  {
    var cx := if x.score == v then [x] else [];
    if s != [] && s[0].score > x.score {
      var t := InsertByScore(x, s[1..]);
      InsertKeepsTies(x, s[1..], v);
      WithScoreCons(s[0], t, v);
      var c0 := if s[0].score == v then [s[0]] else [];
      assert c0 == [] || cx == [];
      calc {
        WithScore(InsertByScore(x, s), v);
        WithScore([s[0]] + t, v);
        c0 + (cx + WithScore(s[1..], v));
        cx + (c0 + WithScore(s[1..], v));
        cx + WithScore(s, v);
      }
    } else {
      WithScoreCons(x, s, v);
    }
  }

  /** Stability: entries with equal scores keep their relative order. */
  lemma {:induction false} SortKeepsTies(s: seq<Recommendation>, v: real)
    ensures WithScore(SortByScore(s), v) == WithScore(s, v)
    decreases |s|
  {
    if s != [] {
      SortKeepsTies(s[1..], v);
      InsertKeepsTies(s[0], SortByScore(s[1..]), v);
    }
  }

  /** Python's `s[:n]`, including a negative `n` counted from the end. */
  function Take(s: seq<Recommendation>, n: int): (r: seq<Recommendation>)
    ensures r <= s
    ensures n >= 0 ==> |r| == if n <= |s| then n else |s|
    ensures n < 0 ==> |r| == if |s| + n >= 0 then |s| + n else 0
  {
    if n >= 0 then (if n <= |s| then s[..n] else s)
    else if |s| + n >= 0 then s[..|s| + n]
    else []
  }

  /** `recommend_recipes(inventory, top_n)`. */
  function RecommendSpec(e: Engine, items: seq<InvItem>, topN: int): seq<Recommendation> {
    var f := Extract(items);
    ExtractWf(items);
    if f.scores == map[] then []
    else Take(SortByScore(Candidates(e, f)), topN)
  }

  /** `recommend_recipes`: extract the features, score the catalog, sort and cut. */
  method Recommend(e: Engine, items: seq<InvItem>, topN: int) returns (r: seq<Recommendation>)
    ensures r == RecommendSpec(e, items, topN)
  {
    var f := ExtractInventoryFeatures(items);
    if f.scores == map[] {
      return [];
    }
    var scored := ScoreCatalog(e, f);
    r := Take(SortByScore(scored), topN);
  }

  /** The loop over the distinct recipe ids, keeping the recipes that score above zero. */
  method ScoreCatalog(e: Engine, f: Features) returns (scored: seq<Recommendation>)
    requires f.Wf()
    ensures scored == Candidates(e, f)
  {
    ghost var entries := Entries(e, e.catalog, f);
    scored := [];
    var i := 0;
    while i < |e.catalog|
      invariant 0 <= i <= |e.catalog|
      invariant scored == Positive(entries[..i])
    {
      var recipe := e.catalog[i];
      var score, details := ScoreRecipe(e, recipe.id, f);
      var entry := Recommendation(recipe.id, recipe.title, recipe.genre, score, details, RowsOf(e.ingredients, recipe.id));
      assert entry == entries[i];
      ghost var next := entries[..i + 1];
      assert next[..i] == entries[..i] && next[i] == entry;
      if score > 0.0 {
        scored := scored + [entry];
      }
      i := i + 1;
    }
    assert entries[..i] == entries;
  }

  /**
   * What a recommendation list is: nothing when no inventory row is usable;
   * otherwise entries of catalog recipes scoring above zero, best first, at
   * most `top_n` of them when `top_n` is not negative, and no candidate left
   * out that scores higher than one kept.
   */
  lemma RecommendSpecFacts(e: Engine, items: seq<InvItem>, topN: int)
    ensures Extract(items).Wf()
    ensures (forall j :: 0 <= j < |items| ==> !IsValid(items[j])) ==> RecommendSpec(e, items, topN) == []
    ensures SortedByScore(RecommendSpec(e, items, topN))
    ensures forall x :: x in RecommendSpec(e, items, topN) ==>
      x.score > 0.0 && exists k :: 0 <= k < |e.catalog| && x == Entry(e, e.catalog[k], Extract(items))
    ensures topN >= 0 ==> |RecommendSpec(e, items, topN)| <= topN
    ensures Extract(items).scores != map[] ==>
      var all := Candidates(e, Extract(items));
      var r := RecommendSpec(e, items, topN);
      && (topN >= 0 ==> |r| == if topN <= |all| then topN else |all|)
      && forall c, x :: c in all && c !in r && x in r ==> c.score <= x.score
  {
    var f := Extract(items);
    ExtractWf(items);
    NoScoresIffNoValidRow(items);
    if f.scores != map[] {
      var all := Candidates(e, f);
      var sorted := SortByScore(all);
      var r := RecommendSpec(e, items, topN);
      SortByScoreSpec(all);
      CandidatesSpec(e, f);
      assert r <= sorted;
      forall i, j | 0 <= i < j < |r| ensures r[i].score >= r[j].score {
        assert r[i] == sorted[i] && r[j] == sorted[j];
      }
      forall x | x in r
        ensures x.score > 0.0 && exists k :: 0 <= k < |e.catalog| && x == Entry(e, e.catalog[k], f)
      {
        assert x in multiset(sorted);
        assert x in all;
      }
      forall c, x | c in all && c !in r && x in r ensures c.score <= x.score {
        assert c in multiset(sorted);
        var m :| 0 <= m < |sorted| && sorted[m] == c;
        var p :| 0 <= p < |r| && r[p] == x;
        assert m >= |r| by {
          assert r == sorted[..|r|];
        }
        assert sorted[p] == x;
      }
    }
  }
}
