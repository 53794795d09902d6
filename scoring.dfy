/**
 * Recipe scoring (`calculate_recipe_score_with_ml`): vector similarity,
 * expiry-weighted matching of essential and optional ingredients against the
 * inventory scores, the essential match rate, and the weighted final score.
 */
module Scoring {
  import opened Wrappers
  import opened Text
  import opened Inventory
  import opened Corpus

  /** The inventory entry a search settled on. */
  datatype Hit = Hit(name: string, score: real)

  /** A matched ingredient: recipe-side name, inventory name, inventory score. */
  datatype Match = Match(name: string, inventoryName: string, score: real)

  /** The score breakdown returned next to the score. */
  datatype Details = Details(
    similarity: real,
    expiryScore: real,
    matchRate: real,
    matchedEssential: seq<Match>,
    matchedOptional: seq<Match>,
    totalIngredients: nat,
    matchedCount: nat)

  // ---------------------------------------------------------------------------
  // Essential matching: exact name first, otherwise the best substring match

  /**
   * The essential search loop from position `i` of the score map's key order,
   * with the best hit so far: an exact name ends the search, a substring match
   * replaces the hit only when none exists yet or its score is strictly higher.
   */
  function EssentialSearch(ing: string, keys: seq<string>, scores: map<string, real>, i: nat, best: Option<Hit>): Option<Hit>
    requires i <= |keys|
    requires forall k :: k in keys ==> k in scores
    decreases |keys| - i
  {
    if i == |keys| then best
    else
      var name := keys[i];
      if ing == name then Some(Hit(name, scores[name]))
      else if NamesMatch(ing, name) && (best.None? || scores[name] > best.value.score) then
        EssentialSearch(ing, keys, scores, i + 1, Some(Hit(name, scores[name])))
      else EssentialSearch(ing, keys, scores, i + 1, best)
  }

  function EssentialMatch(ing: string, f: Features): Option<Hit>
    requires f.Wf()
  {
    EssentialSearch(ing, f.keys, f.scores, 0, None)
  }

  /** The inner loop over `ingredient_scores` for one essential ingredient. */
  method FindEssentialMatch(ing: string, f: Features) returns (best: Option<Hit>)
    requires f.Wf()
    ensures best == EssentialMatch(ing, f)
  {
    best := None;
    var i := 0;
    while i < |f.keys|
      invariant 0 <= i <= |f.keys|
      invariant EssentialSearch(ing, f.keys, f.scores, i, best) == EssentialMatch(ing, f)
    {
      var name := f.keys[i];
      var score := f.scores[name];
      if ing == name {
        best := Some(Hit(name, score));
        break;
      } else if Contains(name, ing) || Contains(ing, name) {
        if best.None? || score > best.value.score {
          best := Some(Hit(name, score));
        }
      }
      i := i + 1;
    }
  }

  /**
   * `best` is the hit the search keeps after the keys before `i`: a matching
   * key at some position p < i, scoring at least every matching key before i
   * and strictly more than every matching key before p.
   */
  ghost predicate BestSoFar(ing: string, keys: seq<string>, scores: map<string, real>, i: int, best: Option<Hit>)
    requires 0 <= i <= |keys|
    requires forall k :: k in keys ==> k in scores
  {
    && (best.None? ==> forall j :: 0 <= j < i ==> !NamesMatch(ing, keys[j]))
    && (best.Some? ==>
         exists p :: 0 <= p < i && keys[p] == best.value.name && NamesMatch(ing, keys[p])
           && best.value.score == scores[keys[p]]
           && (forall j :: 0 <= j < i && NamesMatch(ing, keys[j]) ==> scores[keys[j]] <= best.value.score)
           && (forall j :: 0 <= j < p && NamesMatch(ing, keys[j]) ==> scores[keys[j]] < best.value.score))
  }

  /** A key that does not beat the current hit leaves `BestSoFar` true one step further. */
  lemma KeepBest(ing: string, keys: seq<string>, scores: map<string, real>, i: nat, best: Option<Hit>)
    requires i < |keys|
    requires forall k :: k in keys ==> k in scores
    requires BestSoFar(ing, keys, scores, i, best)
    requires !(NamesMatch(ing, keys[i]) && (best.None? || scores[keys[i]] > best.value.score))
    ensures BestSoFar(ing, keys, scores, i + 1, best)
  {
    if best.Some? {
      var p :| 0 <= p < i && keys[p] == best.value.name && NamesMatch(ing, keys[p])
        && best.value.score == scores[keys[p]]
        && (forall j :: 0 <= j < i && NamesMatch(ing, keys[j]) ==> scores[keys[j]] <= best.value.score)
        && (forall j :: 0 <= j < p && NamesMatch(ing, keys[j]) ==> scores[keys[j]] < best.value.score);
      assert 0 <= p < i + 1;
    }
  }

  /** A matching key that beats the current hit (or the first match) becomes the new hit. */
  lemma TakeBest(ing: string, keys: seq<string>, scores: map<string, real>, i: nat, best: Option<Hit>)
    requires i < |keys|
    requires forall k :: k in keys ==> k in scores
    requires BestSoFar(ing, keys, scores, i, best)
    requires NamesMatch(ing, keys[i]) && (best.None? || scores[keys[i]] > best.value.score)
    ensures BestSoFar(ing, keys, scores, i + 1, Some(Hit(keys[i], scores[keys[i]])))
  {
    var next := Some(Hit(keys[i], scores[keys[i]]));
    forall j | 0 <= j < i && NamesMatch(ing, keys[j]) ensures scores[keys[j]] < next.value.score {
      assert best.Some?;
    }
    assert keys[i] == next.value.name;
  }

  lemma {:induction false} SearchKeepsBest(ing: string, keys: seq<string>, scores: map<string, real>, i: nat, best: Option<Hit>)
    requires i <= |keys|
    requires forall k :: k in keys ==> k in scores
    requires ing !in keys
    requires BestSoFar(ing, keys, scores, i, best)
    ensures BestSoFar(ing, keys, scores, |keys|, EssentialSearch(ing, keys, scores, i, best))
    decreases |keys| - i
  {
    if i < |keys| {
      var name := keys[i];
      assert ing != name;
      var next := best;
      if NamesMatch(ing, name) && (best.None? || scores[name] > best.value.score) {
        TakeBest(ing, keys, scores, i, best);
        next := Some(Hit(name, scores[name]));
      } else {
        KeepBest(ing, keys, scores, i, best);
      }
      assert EssentialSearch(ing, keys, scores, i, best) == EssentialSearch(ing, keys, scores, i + 1, next);
      SearchKeepsBest(ing, keys, scores, i + 1, next);
    } else {
      assert EssentialSearch(ing, keys, scores, i, best) == best;
    }
  }

  lemma {:induction false} SearchStopsAtExact(ing: string, keys: seq<string>, scores: map<string, real>, i: nat, p: nat, best: Option<Hit>)
    requires i <= p < |keys|
    requires forall k :: k in keys ==> k in scores
    requires keys[p] == ing
    requires forall j :: 0 <= j < |keys| && j != p ==> keys[j] != ing
    ensures EssentialSearch(ing, keys, scores, i, best) == Some(Hit(ing, scores[ing]))
    decreases |keys| - i
  {
    if i < p {
      var name := keys[i];
      SearchStopsAtExact(ing, keys, scores, i + 1, p, if NamesMatch(ing, name) && (best.None? || scores[name] > best.value.score)
        then Some(Hit(name, scores[name])) else best);
    }
  }

  /**
   * The essential search takes an exact name when there is one. Otherwise it
   * finds a match exactly when some inventory name contains the ingredient or
   * is contained in it, and the match is the first among the highest-scoring
   * such names.
   */
  lemma EssentialMatchIsBest(ing: string, f: Features)
    requires f.Wf()
    ensures ing in f.scores ==> EssentialMatch(ing, f) == Some(Hit(ing, f.scores[ing]))
    ensures ing !in f.scores ==>
      (EssentialMatch(ing, f).None? <==> forall j :: 0 <= j < |f.keys| ==> !NamesMatch(ing, f.keys[j]))
    ensures ing !in f.scores && EssentialMatch(ing, f).Some? ==>
      var h := EssentialMatch(ing, f).value;
      exists p :: 0 <= p < |f.keys| && f.keys[p] == h.name && NamesMatch(ing, h.name) && h.score == f.scores[h.name]
        && (forall j :: 0 <= j < |f.keys| && NamesMatch(ing, f.keys[j]) ==> f.scores[f.keys[j]] <= h.score)
        && (forall j :: 0 <= j < p && NamesMatch(ing, f.keys[j]) ==> f.scores[f.keys[j]] < h.score)
  {
    if ing in f.scores {
      var p :| 0 <= p < |f.keys| && f.keys[p] == ing;
      SearchStopsAtExact(ing, f.keys, f.scores, 0, p, None);
    } else {
      SearchKeepsBest(ing, f.keys, f.scores, 0, None);
    }
  }

  // ---------------------------------------------------------------------------
  // Optional matching: the first match in key order

  function OptionalSearch(ing: string, keys: seq<string>, scores: map<string, real>, i: nat): Option<Hit>
    requires i <= |keys|
    requires forall k :: k in keys ==> k in scores
    decreases |keys| - i
  {
    if i == |keys| then None
    else if NamesMatch(ing, keys[i]) then Some(Hit(keys[i], scores[keys[i]]))
    else OptionalSearch(ing, keys, scores, i + 1)
  }

  function OptionalMatch(ing: string, f: Features): Option<Hit>
    requires f.Wf()
  {
    OptionalSearch(ing, f.keys, f.scores, 0)
  }

  /** The inner loop over `ingredient_scores` for one optional ingredient. */
  method FindOptionalMatch(ing: string, f: Features) returns (hit: Option<Hit>)
    requires f.Wf()
    ensures hit == OptionalMatch(ing, f)
  {
    hit := None;
    var i := 0;
    while i < |f.keys|
      invariant 0 <= i <= |f.keys|
      invariant OptionalSearch(ing, f.keys, f.scores, i) == OptionalMatch(ing, f)
    {
      var name := f.keys[i];
      if ing == name || Contains(name, ing) || Contains(ing, name) {
        hit := Some(Hit(name, f.scores[name]));
        break;
      }
      i := i + 1;
    }
  }

  lemma {:induction false} OptionalSearchIsFirst(ing: string, keys: seq<string>, scores: map<string, real>, i: nat)
    requires i <= |keys|
    requires forall k :: k in keys ==> k in scores
    ensures OptionalSearch(ing, keys, scores, i).None? <==> forall j :: i <= j < |keys| ==> !NamesMatch(ing, keys[j])
    ensures OptionalSearch(ing, keys, scores, i).Some? ==>
      exists p :: i <= p < |keys| && OptionalSearch(ing, keys, scores, i) == Some(Hit(keys[p], scores[keys[p]]))
        && NamesMatch(ing, keys[p]) && forall j :: i <= j < p ==> !NamesMatch(ing, keys[j])
    decreases |keys| - i
  {
    if i < |keys| && !NamesMatch(ing, keys[i]) {
      OptionalSearchIsFirst(ing, keys, scores, i + 1);
    }
  }

  /** The optional search takes the first matching name in key order, or none if nothing matches. */
  lemma OptionalMatchIsFirst(ing: string, f: Features)
    requires f.Wf()
    ensures OptionalMatch(ing, f).None? <==> forall j :: 0 <= j < |f.keys| ==> !NamesMatch(ing, f.keys[j])
    ensures OptionalMatch(ing, f).Some? ==>
      exists p :: 0 <= p < |f.keys| && OptionalMatch(ing, f) == Some(Hit(f.keys[p], f.scores[f.keys[p]]))
        && NamesMatch(ing, f.keys[p]) && forall j :: 0 <= j < p ==> !NamesMatch(ing, f.keys[j])
  {
    OptionalSearchIsFirst(ing, f.keys, f.scores, 0);
  }

  // ---------------------------------------------------------------------------
  // The two ingredient loops

  /** The matched list and the expiry-score contribution of one ingredient loop. */
  datatype Tally = Tally(matched: seq<Match>, expiry: real)

  /** A hit counts only when it names a non-empty inventory entry (`if matched and best_match`). */
  predicate Counts(hit: Option<Hit>) {
    hit.Some? && hit.value.name != ""
  }

  /** The essential loop: a hit adds twice its score, a miss subtracts 50. */
  function EssentialTally(names: seq<string>, f: Features): Tally
    requires f.Wf()
    decreases |names|
  {
    if names == [] then Tally([], 0.0)
    else
      var t := EssentialTally(names[..|names| - 1], f);
      var n := names[|names| - 1];
      var hit := EssentialMatch(n, f);
      if Counts(hit) then Tally(t.matched + [Match(n, hit.value.name, hit.value.score)], t.expiry + hit.value.score * 2.0)
      else Tally(t.matched, t.expiry - 50.0)
  }

  /** The optional loop: a hit adds half its score, a miss changes nothing. */
  function OptionalTally(names: seq<string>, f: Features): Tally
    requires f.Wf()
    decreases |names|
  {
    if names == [] then Tally([], 0.0)
    else
      var t := OptionalTally(names[..|names| - 1], f);
      var n := names[|names| - 1];
      var hit := OptionalMatch(n, f);
      if hit.Some? then Tally(t.matched + [Match(n, hit.value.name, hit.value.score)], t.expiry + hit.value.score * 0.5)
      else t
  }

  function SumScores(ms: seq<Match>): real
    decreases |ms|
  {
    if ms == [] then 0.0 else SumScores(ms[..|ms| - 1]) + ms[|ms| - 1].score
  }

  /**
   * The essential loop adds up to exactly twice the matched scores minus 50
   * per unmatched ingredient, with at most one match per ingredient.
   */
  lemma {:induction false} EssentialTallyClosedForm(names: seq<string>, f: Features)
    requires f.Wf()
    ensures |EssentialTally(names, f).matched| <= |names|
    ensures EssentialTally(names, f).expiry
      == 2.0 * SumScores(EssentialTally(names, f).matched) - 50.0 * (|names| - |EssentialTally(names, f).matched|) as real
    decreases |names|
  {
    if names != [] {
      var pre := names[..|names| - 1];
      EssentialTallyClosedForm(pre, f);
      var t := EssentialTally(pre, f);
      var u := EssentialTally(names, f);
      if Counts(EssentialMatch(names[|names| - 1], f)) {
        assert u.matched[..|u.matched| - 1] == t.matched;
      }
    }
  }

  /** The optional loop adds up to exactly half the matched scores. */
  lemma {:induction false} OptionalTallyClosedForm(names: seq<string>, f: Features)
    requires f.Wf()
    ensures |OptionalTally(names, f).matched| <= |names|
    ensures OptionalTally(names, f).expiry == 0.5 * SumScores(OptionalTally(names, f).matched)
    decreases |names|
  {
    if names != [] {
      var pre := names[..|names| - 1];
      OptionalTallyClosedForm(pre, f);
      var t := OptionalTally(pre, f);
      var u := OptionalTally(names, f);
      if OptionalMatch(names[|names| - 1], f).Some? {
        assert u.matched[..|u.matched| - 1] == t.matched;
      }
    }
  }

  // ---------------------------------------------------------------------------
  // Partition, rate and final score

  /** The rows whose flag is exactly the given boolean, in order. */
  function RowsFlagged(rows: seq<IngredientRow>, flag: bool): (r: seq<IngredientRow>)
    ensures forall k :: 0 <= k < |r| ==> r[k].essential == Some(flag)
    decreases |rows|
  {
    if rows == [] then []
    else
      var last := rows[|rows| - 1];
      RowsFlagged(rows[..|rows| - 1], flag) + (if last.essential == Some(flag) then [last] else [])
  }

  /** Essential rows: flagged True, or every row when the column is absent. */
  function EssentialRows(rows: seq<IngredientRow>, hasColumn: bool): seq<IngredientRow> {
    if hasColumn then RowsFlagged(rows, true) else rows
  }

  /** Optional rows: flagged False, or none when the column is absent. */
  function OptionalRows(rows: seq<IngredientRow>, hasColumn: bool): seq<IngredientRow> {
    if hasColumn then RowsFlagged(rows, false) else []
  }

  function NormalizedNames(rows: seq<IngredientRow>): seq<string>
  {
    seq(|rows|, k requires 0 <= k < |rows| => Normalize(rows[k].name))
  }

  function CountUnflagged(rows: seq<IngredientRow>): nat
    decreases |rows|
  {
    if rows == [] then 0
    else CountUnflagged(rows[..|rows| - 1]) + (if rows[|rows| - 1].essential.None? then 1 else 0)
  }

  /**
   * Without the column every row is essential; with it, each row is essential,
   * optional, or (flag neither True nor False) neither.
   */
  lemma {:induction false} PartitionCounts(rows: seq<IngredientRow>, hasColumn: bool)
    ensures !hasColumn ==> EssentialRows(rows, hasColumn) == rows && OptionalRows(rows, hasColumn) == []
    ensures hasColumn ==>
      |EssentialRows(rows, hasColumn)| + |OptionalRows(rows, hasColumn)| + CountUnflagged(rows) == |rows|
    decreases |rows|
  {
    if rows != [] && hasColumn {
      var pre := rows[..|rows| - 1];
      var last := rows[|rows| - 1];
      PartitionCounts(pre, hasColumn);
      assert |RowsFlagged(rows, true)| == |RowsFlagged(pre, true)| + (if last.essential == Some(true) then 1 else 0);
      assert |RowsFlagged(rows, false)| == |RowsFlagged(pre, false)| + (if last.essential == Some(false) then 1 else 0);
      assert CountUnflagged(rows) == CountUnflagged(pre) + (if last.essential.None? then 1 else 0);
      if last.essential.Some? {
        var b := last.essential.value;
        assert last.essential == Some(b);
        assert b || !b;
      }
    } else if rows == [] {
      assert RowsFlagged(rows, true) == [] && RowsFlagged(rows, false) == [];
    }
  }

  /** `len(matched_essential) / max(len(essential_ingredients), 1)`. */
  function MatchRate(matched: nat, essential: nat): real {
    matched as real / (if essential >= 1 then essential else 1) as real
  }

  lemma MatchRateBounds(matched: nat, essential: nat)
    requires matched <= essential
    ensures 0.0 <= MatchRate(matched, essential) <= 1.0
    ensures MatchRate(matched, essential) == 0.0 <==> matched == 0
    ensures MatchRate(matched, essential) == 1.0 <==> matched == essential >= 1
  {
  }

  /**
   * The weighted score (similarity 40%, expiry 50%, rate 10%, on a 0-100
   * scale), multiplied once more by the rate.
   */
  function FinalScore(similarity: real, expiry: real, rate: real): real {
    (similarity * 100.0 * 0.4 + expiry * 0.5 + rate * 100.0 * 0.1) * rate
  }

  lemma WeightedTimesRate(similarity: real, expiry: real, rate: real, weighted: real)
    requires weighted == similarity * 100.0 * 0.4 + expiry * 0.5 + rate * 100.0 * 0.1
    ensures weighted * rate == FinalScore(similarity, expiry, rate)
  {
  }

  /** The score a breakdown stands for; 0 with the empty breakdown. */
  function ScoreOf(details: Option<Details>): real {
    if details.None? then 0.0
    else FinalScore(details.value.similarity, details.value.expiryScore, details.value.matchRate)
  }

  /** Cosine similarity with the recipe's fitted vector, 0 for an id that was not fitted. */
  function SimilarityOf(e: Engine, id: int, f: Features): (r: real)
    ensures 0.0 <= r <= 1.0
    ensures id !in e.idToIndex ==> r == 0.0
  {
    if id in e.idToIndex then e.similarity(e.idToIndex[id], f.Text()) else 0.0
  }

  /** The breakdown for one recipe; `None` (the empty `{}`) when it has no ingredient rows. */
  function RecipeDetails(e: Engine, id: int, f: Features): Option<Details>
    requires f.Wf()
  {
    var rows := RowsOf(e.ingredients, id);
    if rows == [] then None
    else Some(RowsDetails(rows, e.hasEssentialColumn, SimilarityOf(e, id, f), f))
  }

  /** The score of one recipe against the extracted inventory features. */
  function RecipeScore(e: Engine, id: int, f: Features): real
    requires f.Wf()
  {
    ScoreOf(RecipeDetails(e, id, f))
  }

  /** The breakdown of a recipe with at least one ingredient row, given its similarity. */
  function RowsDetails(rows: seq<IngredientRow>, hasColumn: bool, sim: real, f: Features): Details
    requires f.Wf()
  {
    var essential := EssentialRows(rows, hasColumn);
    var ess := EssentialTally(NormalizedNames(essential), f);
    var opt := OptionalTally(NormalizedNames(OptionalRows(rows, hasColumn)), f);
    Details(sim, ess.expiry + opt.expiry, MatchRate(|ess.matched|, |essential|),
      ess.matched, opt.matched, |rows|, |ess.matched| + |opt.matched|)
  }

  /**
   * What the breakdown of a recipe says: no breakdown exactly when the recipe
   * has no ingredient rows; otherwise similarity and rate lie in [0, 1], at
   * most one match per essential ingredient, the counts add up, and the
   * expiry score is twice the matched essential scores, minus 50 per
   * unmatched essential ingredient, plus half the matched optional scores.
   */
  lemma RecipeDetailsFacts(e: Engine, id: int, f: Features)
    requires f.Wf()
    ensures RecipeDetails(e, id, f).None? <==> RowsOf(e.ingredients, id) == []
    ensures RecipeDetails(e, id, f).Some? ==>
      var d := RecipeDetails(e, id, f).value;
      var rows := RowsOf(e.ingredients, id);
      var essential := EssentialRows(rows, e.hasEssentialColumn);
      && 0.0 <= d.similarity <= 1.0
      && 0.0 <= d.matchRate <= 1.0
      && |d.matchedEssential| <= |essential|
      && |d.matchedOptional| <= |OptionalRows(rows, e.hasEssentialColumn)|
      && d.totalIngredients == |rows|
      && d.matchedCount == |d.matchedEssential| + |d.matchedOptional|
      && (d.matchRate == 0.0 <==> d.matchedEssential == [])
      && (d.matchRate == 1.0 <==> |d.matchedEssential| == |essential| >= 1)
      && d.expiryScore
        == 2.0 * SumScores(d.matchedEssential) - 50.0 * (|essential| - |d.matchedEssential|) as real
          + 0.5 * SumScores(d.matchedOptional)
  {
    var rows := RowsOf(e.ingredients, id);
    if rows != [] {
      var essential := EssentialRows(rows, e.hasEssentialColumn);
      var optional := OptionalRows(rows, e.hasEssentialColumn);
      EssentialTallyClosedForm(NormalizedNames(essential), f);
      OptionalTallyClosedForm(NormalizedNames(optional), f);
      var ess := EssentialTally(NormalizedNames(essential), f);
      MatchRateBounds(|ess.matched|, |essential|);
    }
  }

  /**
   * A recipe none of whose essential ingredients matched scores exactly 0 —
   * including a recipe with no essential rows at all, whose rate is 0.
   * So a non-zero score needs at least one matched essential ingredient.
   */
  lemma RecipeScoreNeedsEssentialMatch(e: Engine, id: int, f: Features)
    requires f.Wf()
    ensures RecipeDetails(e, id, f).None? ==> RecipeScore(e, id, f) == 0.0
    ensures EssentialRows(RowsOf(e.ingredients, id), e.hasEssentialColumn) == [] ==> RecipeScore(e, id, f) == 0.0
    ensures RecipeScore(e, id, f) != 0.0 ==>
      RecipeDetails(e, id, f).Some? && RecipeDetails(e, id, f).value.matchedEssential != []
  {
    RecipeDetailsFacts(e, id, f);
    var details := RecipeDetails(e, id, f);
    if details.Some? && details.value.matchedEssential == [] {
      var d := details.value;
      assert d.matchRate == 0.0;
      assert FinalScore(d.similarity, d.expiryScore, 0.0) == 0.0;
    }
  }

  /** The essential-ingredient loop. */
  method MatchEssentials(essential: seq<IngredientRow>, f: Features) returns (matched: seq<Match>, expiry: real)
    requires f.Wf()
    ensures Tally(matched, expiry) == EssentialTally(NormalizedNames(essential), f)
  {
    ghost var names := NormalizedNames(essential);
    matched, expiry := [], 0.0;
    var i := 0;
    while i < |essential|
      invariant 0 <= i <= |essential| == |names|
      invariant Tally(matched, expiry) == EssentialTally(names[..i], f)
    {
      assert names[..i + 1][..i] == names[..i];
      var name := Normalize(essential[i].name);
      assert names[i] == name;
      var best := FindEssentialMatch(name, f);
      if best.Some? && best.value.name != "" {
        matched := matched + [Match(name, best.value.name, best.value.score)];
        expiry := expiry + best.value.score * 2.0;
      } else {
        expiry := expiry - 50.0;
      }
      i := i + 1;
    }
    assert names[..i] == names;
  }

  /** The optional-ingredient loop, continuing the expiry score of the essential loop. */
  method MatchOptionals(optional: seq<IngredientRow>, f: Features, expiry0: real) returns (matched: seq<Match>, expiry: real)
    requires f.Wf()
    ensures matched == OptionalTally(NormalizedNames(optional), f).matched
    ensures expiry == expiry0 + OptionalTally(NormalizedNames(optional), f).expiry
  {
    ghost var names := NormalizedNames(optional);
    matched, expiry := [], expiry0;
    var j := 0;
    while j < |optional|
      invariant 0 <= j <= |optional| == |names|
      invariant matched == OptionalTally(names[..j], f).matched
      invariant expiry == expiry0 + OptionalTally(names[..j], f).expiry
    {
      assert names[..j + 1][..j] == names[..j];
      var name := Normalize(optional[j].name);
      assert names[j] == name;
      var hit := FindOptionalMatch(name, f);
      if hit.Some? {
        matched := matched + [Match(name, hit.value.name, hit.value.score)];
        expiry := expiry + hit.value.score * 0.5;
      }
      j := j + 1;
    }
    assert names[..j] == names;
  }

  /** The rate and the final score, once both loops have run. */
  method Summarize(similarity: real, expiry: real, matchedEssential: seq<Match>, matchedOptional: seq<Match>, essentialCount: nat, total: nat)
    returns (score: real, details: Details)
    ensures details == Details(similarity, expiry, MatchRate(|matchedEssential|, essentialCount),
      matchedEssential, matchedOptional, total, |matchedEssential| + |matchedOptional|)
    ensures score == ScoreOf(Some(details))
  {
    var rate := |matchedEssential| as real / (if essentialCount >= 1 then essentialCount else 1) as real;
    score := similarity * 100.0 * 0.4 + expiry * 0.5 + rate * 100.0 * 0.1;
    WeightedTimesRate(similarity, expiry, rate, score);
    score := score * rate;
    details := Details(similarity, expiry, rate, matchedEssential, matchedOptional, total, |matchedEssential| + |matchedOptional|);
  }

  /** `calculate_recipe_score_with_ml`: the two ingredient loops, then the rate and the final score. */
  method ScoreRecipe(e: Engine, id: int, f: Features) returns (score: real, details: Option<Details>)
    requires f.Wf()
    ensures details == RecipeDetails(e, id, f)
    ensures score == ScoreOf(details) == RecipeScore(e, id, f)
  {
    var rows := RowsOf(e.ingredients, id);
    if rows == [] {
      return 0.0, None;
    }
    var similarity := SimilarityOf(e, id, f);
    var d;
    score, d := ScoreRows(rows, e.hasEssentialColumn, similarity, f);
    details := Some(d);
  }

  /** The body of `calculate_recipe_score_with_ml` past the empty-recipe check. */
  method ScoreRows(rows: seq<IngredientRow>, hasColumn: bool, similarity: real, f: Features) returns (score: real, details: Details)
    requires f.Wf()
    ensures details == RowsDetails(rows, hasColumn, similarity, f)
    ensures score == ScoreOf(Some(details))
  {
    var essential := EssentialRows(rows, hasColumn);
    var optional := OptionalRows(rows, hasColumn);
    var matchedEssential, expiry := MatchEssentials(essential, f);
    var matchedOptional;
    matchedOptional, expiry := MatchOptionals(optional, f, expiry);
    score, details := Summarize(similarity, expiry, matchedEssential, matchedOptional, |essential|, |rows|);
  }
}
