# FridgeMate recipe recommender, modelled in Dafny

This project models the recommendation engine of FridgeMateAI, the class
`MLRecipeRecommender`. Given the food in a fridge (name, quantity, days until
expiry), the engine:

- turns the stock into urgency features (`extract_inventory_features`);
- scores every recipe of the corpus against those features. Essential
  ingredients take their best match, optional ones take their first match,
  and the score is weighted by the essential match rate
  (`calculate_recipe_score_with_ml`);
- ranks the recipes with a positive score (`recommend_recipes`);
- plans several days of menus (`recommend_daily_menu`). The planner picks a
  main dish and a side dish by genre and never repeats a recipe. After each
  day, for every ingredient of the cooked dishes, it finds the first stock
  item whose name matches the ingredient. It lowers that item by one unit if
  its quantity is positive. An ingredient that matches no item, or whose
  first match is at or below zero, takes nothing. Then the planner drops the
  items that ran out.

The modules follow the structure of the program:

| module | file | models |
|---|---|---|
| `Wrappers` | wrappers.dfy | `Option` |
| `Text` | text.dfy | `strip()`, `lower()`, the substring test `in`, `' '.join`, `normalize_ingredient_name` |
| `Inventory` | inventory.dfy | `extract_inventory_features` |
| `Corpus` | corpus.dfy | the recipe corpus, and the pure part of `_build_feature_vectors` |
| `Scoring` | scoring.dfy | `calculate_recipe_score_with_ml` |
| `Ranking` | ranking.dfy | `recommend_recipes` |
| `Planner` | planner.dfy | `recommend_daily_menu` |

Every `for` loop of the source is a method with a `while` loop, proved equal
to a recursive specification function. The two list comprehensions, at
`ml_recipe_recommender.py:381` and `:453`, are the recursive functions
`Planner.Unused` and `Planner.DropEmpty`, which the day's step uses
directly. The properties the program promises are then proved as lemmas
about those functions. The
dictionary `ingredient_scores` is modelled as a `map` together with the
sequence of its keys in insertion order. The order matters because the
matching loops walk the dictionary in that order. The planner's copy of the
inventory is a local sequence, and its `used_recipe_ids` is a local set. The
whole plan is specified by `Planner.PlanFrom`. That function is generic over
the daily recommender, so the multi-day lemmas hold for any recommender.

Three behaviours of the code are worth stating:

- A recipe whose ingredient rows include no essential row gets a match rate
  of `0 / max(0, 1) = 0` (`ml_recipe_recommender.py:259`). The final score is
  multiplied by that rate (`:270`), so the recipe scores exactly 0.
- When the `Is_Essential` column is missing, every ingredient row counts as
  essential.
- A row whose flag is neither `True` nor `False` is neither essential nor
  optional. It still counts in `total_ingredients`.

## Model

| member | source | states |
|---|---|---|
| Text.Strip | ml_recipe_recommender.py:157 | `strip()`: the string without its leading and trailing white space |
| Text.LowerStr | ml_recipe_recommender.py:157 | `lower()`: the string with each upper-case letter lower-cased, length kept |
| Text.Normalize | ml_recipe_recommender.py:153-157 | a missing name becomes ""; any other name comes out stripped and lower-cased (no surrounding white space, no upper-case letter) |
| Text.NormalizeStr | ml_recipe_recommender.py:106 | `str(x).strip().lower()` gives a normalised string no longer than its input |
| Text.NormalizeIdempotent | ml_recipe_recommender.py:153-157 | normalising twice is the same as normalising once |
| Text.StripIsSlice | ml_recipe_recommender.py:157 | `strip()` removes white space only: the result is a contiguous slice of the input with nothing but white space before and after it |
| Text.StripTrimmed | ml_recipe_recommender.py:106 | `strip()` leaves no white space at either end |
| Text.Contains | ml_recipe_recommender.py:226 | the substring test `needle in hay`, scanning `hay` from the left |
| Text.NamesMatch | ml_recipe_recommender.py:249 | two names match when they are equal or either one contains the other |
| Text.ContainsIffOccurs | ml_recipe_recommender.py:226 | the substring test `a in b` holds exactly when `a` occurs in `b` at some position |
| Text.EmptyContained | ml_recipe_recommender.py:226 | the empty string is contained in every string |
| Text.EmptyNameMatchesAll | ml_recipe_recommender.py:155-156 | a missing ingredient name normalises to "", and "" matches every inventory name |
| Text.Join | ml_recipe_recommender.py:150 | `' '.join`: the words separated by single spaces |
| Text.JoinLength | ml_recipe_recommender.py:150 | the joined string is as long as all the words together plus one space between each pair of neighbours |
| Text.JoinContainsWord | ml_recipe_recommender.py:150 | every word occurs in the joined string |
| Inventory.UrgencyBase | ml_recipe_recommender.py:118-130 | the base score by days until expiry: 200 when expired, 150 within a day, 120 within 3 days, 80 within 7 days, 30 beyond |
| Inventory.ItemScore | ml_recipe_recommender.py:118-132 | a usable row's score: its urgency base times `1 + min(quantity / 10, 1)` |
| Inventory.UrgencyBuckets | ml_recipe_recommender.py:118-130 | the urgency base is one of 200, 150, 120, 80 and 30; it never increases as the expiry moves further away; a row counts as expiring exactly when its base is at least 120 |
| Inventory.ItemScoreIsProduct | ml_recipe_recommender.py:132 | a row's score is its urgency base times `1 + min(q/10, 1)` |
| Inventory.ItemScoreBounds | ml_recipe_recommender.py:132 | for a positive quantity the score lies in (base, 2·base], and it is exactly 2·base from quantity 10 on |
| Inventory.Accumulate | ml_recipe_recommender.py:105-140 | one loop iteration: a skipped row changes nothing; a usable row keeps the larger of its name's old score and its own, appends a new name to the key order, appends its name to the list, adds its quantity and counts it when due within 3 days |
| Inventory.Extract | ml_recipe_recommender.py:92-151 | the features after the loop: the rows processed in order, starting from empty features |
| Inventory.UrgencyScore | ml_recipe_recommender.py:117-132 | the method's if-chain computes the bucketed, quantity-scaled score and the expiring flag |
| Inventory.ValidRows | ml_recipe_recommender.py:110-111 | the rows that survive the skip test all have a non-empty name, a positive quantity and an expiry, and every input row that has them survives |
| Inventory.ExtractInventoryFeatures | ml_recipe_recommender.py:92-151 | the loop computes the extraction function, and the resulting dictionary is well formed |
| Inventory.AddRow | ml_recipe_recommender.py:117-140 | the loop body for a usable row performs exactly one extraction step |
| Inventory.ExtractWf | ml_recipe_recommender.py:134-139 | the key order lists every dictionary name exactly once, and "" is never a key |
| Inventory.ExtractSkipsInvalid | ml_recipe_recommender.py:110-111 | rows with an empty name, a quantity ≤ 0 or no expiry contribute nothing to any feature |
| Inventory.AccumulateScores | ml_recipe_recommender.py:134-137 | one step never lowers a score, changes only the row's own name, and leaves that name at the maximum of its old score and the row's score |
| Inventory.ExtractKeepsMaximum | ml_recipe_recommender.py:134-137 | every valid row's score is at most its name's entry, and every entry equals the score of some valid row with that name |
| Inventory.NoScoresIffNoValidRow | ml_recipe_recommender.py:110-111 | the score dictionary is empty exactly when no row is valid |
| Inventory.ExtractNames | ml_recipe_recommender.py:139 | `ingredient_list` holds one name per valid row, in row order |
| Inventory.ExtractCounts | ml_recipe_recommender.py:120-126 | `expiring_count` counts the valid rows due within 3 days, expired ones included, and `total_quantity` sums the quantities of the valid rows |
| Corpus.FirstOccurrences | ml_recipe_recommender.py:75 | `unique()`: a row is kept when its id was not seen before |
| Corpus.FirstOccurrencesSpec | ml_recipe_recommender.py:75 | `unique()` keeps distinct ids, keeps every id of the corpus, and keeps each id's first row |
| Corpus.FirstOccurrencesPrefix | ml_recipe_recommender.py:75 | `unique()` keeps the order of first appearance: the distinct ids of any prefix of the table are a prefix of the distinct ids of the whole table |
| Corpus.RowsOf | ml_recipe_recommender.py:170-172 | every selected ingredient row belongs to the recipe |
| Corpus.AsText | ml_recipe_recommender.py:78 | `astype(str)` renders a missing name as "nan" and keeps any other name |
| Corpus.Doc | ml_recipe_recommender.py:76-79 | a recipe's document is its ingredient texts joined by single spaces, in table order |
| Corpus.HasToken | ml_recipe_recommender.py:83-84 | the default token pattern `(?u)\b\w\w+\b` finds a token exactly when two word characters stand side by side |
| Corpus.HasVocabulary | ml_recipe_recommender.py:83-84 | the fit has a vocabulary when some document has a token |
| Corpus.BuildDocs | ml_recipe_recommender.py:74-82 | one space-joined ingredient document per distinct recipe, in corpus order |
| Corpus.BuildIndexMaps | ml_recipe_recommender.py:86-90 | recipe id i-th in corpus order maps to index i, and back |
| Corpus.IndexMapsInverse | ml_recipe_recommender.py:87-90 | the id-to-index and index-to-id maps are mutual inverses |
| Corpus.BuildIndex | ml_recipe_recommender.py:71-90 | the fit fails exactly when no document has a token, an empty corpus included; otherwise the engine holds the distinct recipes in corpus order, one document each, and inverse index maps |
| Corpus.ShortNamesNoVocabulary | ml_recipe_recommender.py:83-84 | the fit fails when every ingredient name is present and at most one character long, and when there are no ingredient rows |
| Corpus.TwoLetterNameGivesVocabulary | ml_recipe_recommender.py:83-84 | the fit succeeds when a recipe of the corpus has an ingredient whose name starts with two word characters |
| Scoring.EssentialSearch | ml_recipe_recommender.py:216-231 | the inner loop from a position: an exact name ends the search with its score; a containment match replaces the best hit only when there is none yet or its score is strictly higher |
| Scoring.EssentialMatch | ml_recipe_recommender.py:216-231 | the essential search over the dictionary in insertion order, starting with no hit |
| Scoring.FindEssentialMatch | ml_recipe_recommender.py:216-231 | the loop over the dictionary computes the essential search |
| Scoring.SearchKeepsBest | ml_recipe_recommender.py:226-230 | without an exact match, the search ends with the earliest highest-scoring substring match |
| Scoring.SearchStopsAtExact | ml_recipe_recommender.py:221-225 | an exact name match is taken with its own score, whatever was found before |
| Scoring.EssentialMatchIsBest | ml_recipe_recommender.py:211-231 | an exact match wins; otherwise there is no match exactly when no name matches in either direction, and a match has the highest score of all matching names and beats every earlier one strictly |
| Scoring.OptionalSearch | ml_recipe_recommender.py:248-256 | the first key from a position on that matches the ingredient in either direction, with its score |
| Scoring.OptionalMatch | ml_recipe_recommender.py:248-256 | the optional search over the dictionary in insertion order |
| Scoring.FindOptionalMatch | ml_recipe_recommender.py:248-256 | the loop over the dictionary computes the optional search |
| Scoring.OptionalSearchIsFirst | ml_recipe_recommender.py:248-256 | the search returns the first matching key from a position on, and nothing exactly when no key matches |
| Scoring.OptionalMatchIsFirst | ml_recipe_recommender.py:248-256 | an optional ingredient takes the first matching name in dictionary order, with its score; no match exactly when no name matches |
| Scoring.EssentialTally | ml_recipe_recommender.py:210-240 | the essential rows in order: a hit with a non-empty name is recorded and adds twice its score; any other outcome subtracts 50 |
| Scoring.OptionalTally | ml_recipe_recommender.py:242-256 | the optional rows in order: a hit is recorded and adds half its score; a miss changes nothing |
| Scoring.EssentialTallyClosedForm | ml_recipe_recommender.py:232-240 | at most one hit per essential row; the expiry total is twice the matched scores minus 50 per miss |
| Scoring.OptionalTallyClosedForm | ml_recipe_recommender.py:249-256 | at most one hit per optional row; the expiry total is half the matched scores, and a miss costs nothing |
| Scoring.RowsFlagged | ml_recipe_recommender.py:199-205 | a flag filter keeps only rows with exactly that flag |
| Scoring.EssentialRows | ml_recipe_recommender.py:199-207 | with the flag column, the rows flagged True; without it, every row |
| Scoring.OptionalRows | ml_recipe_recommender.py:199-208 | with the flag column, the rows flagged False; without it, no row |
| Scoring.PartitionCounts | ml_recipe_recommender.py:199-208 | without the flag column every row is essential and none optional; with it, the essential rows, the optional rows and the unflagged rows add up to all rows |
| Scoring.MatchRate | ml_recipe_recommender.py:259 | `matched / max(essential, 1)` |
| Scoring.MatchRateBounds | ml_recipe_recommender.py:259 | the rate lies in [0, 1]; it is 0 exactly when nothing matched and 1 exactly when every essential row matched and there was at least one |
| Scoring.FinalScore | ml_recipe_recommender.py:263-270 | 40 % of the similarity on a 0-100 scale, plus half the expiry score, plus 10 % of the rate on a 0-100 scale, all multiplied once more by the rate |
| Scoring.SimilarityOf | ml_recipe_recommender.py:181-191 | the similarity is in [0, 1]; a recipe outside the index gets 0 |
| Scoring.RecipeDetails | ml_recipe_recommender.py:170-281 | no details (`{}`) for a recipe without ingredient rows; otherwise the similarity, the expiry total of both tallies, the rate, both match lists and the two counts |
| Scoring.RecipeScore | ml_recipe_recommender.py:170-281 | 0 for a recipe without ingredient rows; otherwise the final score of its details |
| Scoring.RecipeDetailsFacts | ml_recipe_recommender.py:170-281 | no details exactly for a recipe without rows. Otherwise: similarity and rate in [0, 1]; at most one hit per row; the totals count all rows and all hits; rate 0 exactly without essential hits; rate 1 exactly when every essential row hit; the expiry total in closed form |
| Scoring.RecipeScoreNeedsEssentialMatch | ml_recipe_recommender.py:174-175 | a recipe without rows, or without essential rows, scores 0; a non-zero score needs at least one essential hit |
| Scoring.MatchEssentials | ml_recipe_recommender.py:210-240 | the essential loop computes the hit list and the expiry total of the tally |
| Scoring.MatchOptionals | ml_recipe_recommender.py:242-256 | the optional loop computes the tally's hit list and adds its expiry total to the running one |
| Scoring.Summarize | ml_recipe_recommender.py:258-281 | the rate, the details record and the final score as the score of those details |
| Scoring.ScoreRows | ml_recipe_recommender.py:193-281 | the details are those of the recipe's rows, and the score is the score of those details |
| Scoring.ScoreRecipe | ml_recipe_recommender.py:159-281 | `(0.0, {})` for a recipe without rows; otherwise the recipe's details with the score of those details |
| Ranking.Positive | ml_recipe_recommender.py:306 | the entries with a score above 0, in order |
| Ranking.Candidates | ml_recipe_recommender.py:301-349 | the positive-score entries of the corpus recipes, in corpus order |
| Ranking.PositiveSpec | ml_recipe_recommender.py:306 | the filter keeps exactly the entries with a score above 0 |
| Ranking.CandidatesSpec | ml_recipe_recommender.py:303-349 | a candidate is exactly the entry of some corpus recipe whose score is positive |
| Ranking.InsertByScore | ml_recipe_recommender.py:352 | an entry goes in front of the first entry whose score is not higher |
| Ranking.SortByScore | ml_recipe_recommender.py:352 | the stable descending sort, as insertion of each entry into the sorted rest |
| Ranking.InsertKeepsOrder | ml_recipe_recommender.py:352 | inserting into a list sorted by descending score keeps it sorted and adds one element |
| Ranking.InsertKeepsEntries | ml_recipe_recommender.py:352 | insertion neither loses nor duplicates an entry |
| Ranking.SortByScoreSpec | ml_recipe_recommender.py:352 | the sort is in non-increasing score order and is a permutation of its input |
| Ranking.InsertKeepsTies | ml_recipe_recommender.py:352 | insertion puts the new entry ahead of the entries with the same score |
| Ranking.SortKeepsTies | ml_recipe_recommender.py:352 | the sort is stable: entries with equal scores keep their corpus order |
| Ranking.Take | ml_recipe_recommender.py:354 | the slice `[:top_n]` is a prefix, of length `min(top_n, n)`, or `n + top_n` clamped at 0 for a negative `top_n` |
| Ranking.RecommendSpec | ml_recipe_recommender.py:283-354 | `[]` when the score dictionary is empty; otherwise the sorted candidates cut to `top_n` |
| Ranking.ScoreCatalog | ml_recipe_recommender.py:301-349 | the loop over the corpus collects exactly the positive-score entries, in corpus order |
| Ranking.Recommend | ml_recipe_recommender.py:283-354 | the method computes the ranking function |
| Ranking.RecommendSpecFacts | ml_recipe_recommender.py:295-354 | [] when no stock row is usable; otherwise sorted, every entry a positive-score recipe of the corpus, exactly `min(top_n, n)` entries for `top_n` ≥ 0, and nothing left out scores higher than anything kept |
| Planner.Unused | ml_recipe_recommender.py:381 | the recommendations whose id is not used yet, in order |
| Planner.UnusedSpec | ml_recipe_recommender.py:381 | the candidates are exactly the recommendations whose id is not used yet; there are none exactly when every recommended id is used |
| Planner.IsMainGenre | ml_recipe_recommender.py:395-396 | the stripped genre starts with 主 or is "Main" |
| Planner.IsSideGenre | ml_recipe_recommender.py:403-404 | the stripped genre starts with 副 or is "Side" |
| Planner.GenresDisjoint | ml_recipe_recommender.py:395-403 | no genre passes both the main-dish test and the side-dish test |
| Planner.FirstFit | ml_recipe_recommender.py:394-415 | the first candidate from a position on that fits the slot (main, side or any genre) and is not used |
| Planner.FirstFitSpec | ml_recipe_recommender.py:393-414 | a selection loop picks the earliest candidate that fits the slot and is unused, and picks nothing exactly when there is none |
| Planner.PickFirst | ml_recipe_recommender.py:393-398 | the loop with its `break` computes that first fit |
| Planner.MatchFrom | ml_recipe_recommender.py:436-438 | the first stock item whose normalised name matches the ingredient in either direction, or none when no item matches |
| Planner.UseIngredient | ml_recipe_recommender.py:437-448 | the first matching stock item loses one unit when its quantity is positive; the search stops at that item either way |
| Planner.UseIngredientSpec | ml_recipe_recommender.py:436-448 | only the first matching item can change, by exactly −1 when its quantity was positive and not at all otherwise; length, names and expiry days are kept |
| Planner.EmptyIngredientTakesFirstItem | ml_recipe_recommender.py:431-438 | a missing ingredient name takes from the first stock item |
| Planner.ConsumeIngredient | ml_recipe_recommender.py:436-448 | the inner loop computes the single-ingredient consumption |
| Planner.UseRows | ml_recipe_recommender.py:430-448 | a dish's ingredient rows are used one after the other, each by its normalised name |
| Planner.UseDishes | ml_recipe_recommender.py:428-448 | the day's dishes are cooked one after the other, main dish first |
| Planner.UseRowsKeepsShape | ml_recipe_recommender.py:427-448 | cooking never changes the stock's length, names or expiry days, never raises a quantity, and lowers no item by more than one unit per ingredient row |
| Planner.ConsumeDish | ml_recipe_recommender.py:430-448 | the loop over a dish's ingredients computes its consumption |
| Planner.ConsumeDishes | ml_recipe_recommender.py:427-448 | the loop over the dishes computes the day's consumption, main dish first |
| Planner.DropEmpty | ml_recipe_recommender.py:453 | the stock items with a positive quantity, in order |
| Planner.DropEmptySpec | ml_recipe_recommender.py:453 | the filter keeps exactly the items with a positive quantity |
| Planner.DayWith | ml_recipe_recommender.py:380-453 | one day given its recommendations: main dish, side dish, fallback, skip, then cooking and dropping empty items |
| Planner.DayStep | ml_recipe_recommender.py:376-453 | one day with the recommendations `recommend_recipes(stock, 50)` |
| Planner.DayPicks | ml_recipe_recommender.py:376-419 | a planned day's dishes are unused recommendations of that day and are marked used; a side dish has a side genre and differs from the main dish; the used set only grows |
| Planner.DayPrefersMainGenre | ml_recipe_recommender.py:392-415 | whenever an unused main-genre candidate exists, the day is planned with the first one as its main dish; when none exists and the day is planned, its main dish is the first candidate not used after the side pick |
| Planner.DaySkipStalls | ml_recipe_recommender.py:409-419 | a skipped day keeps the stock and leaves no unused candidate, since its side dish stays used |
| Planner.DayWithoutCandidates | ml_recipe_recommender.py:381-419 | with no unused candidate the day is skipped and nothing changes |
| Planner.DayLeavesPositiveStock | ml_recipe_recommender.py:453 | after a planned day every remaining item has a positive quantity |
| Planner.PlanFrom | ml_recipe_recommender.py:371-455 | the menus, stock and used ids after days 1 to n, starting from a copy of the stock and no used id |
| Planner.PlanSpec | ml_recipe_recommender.py:356-455 | `recommend_daily_menu`: the menus after `days` days, none for `days` at most 0 |
| Planner.PlanDay | ml_recipe_recommender.py:376-453 | one iteration of the day loop computes the day function on the day's recommendations |
| Planner.PlanNextDay | ml_recipe_recommender.py:375-453 | one iteration advances the plan from n − 1 days to n days |
| Planner.PlanDays | ml_recipe_recommender.py:375-455 | the day loop computes the plan after n days |
| Planner.PlanMenu | ml_recipe_recommender.py:356-455 | the method computes the menus of `recommend_daily_menu`, none for `days` ≤ 0 |
| Planner.PlanFacts | ml_recipe_recommender.py:371-455 | at most `days` menus, numbered 1, 2, 3, … without gaps; once a day is skipped no unused candidate is left; no recipe is served twice; every served recipe is marked used |
| Planner.PlanDayAppends | ml_recipe_recommender.py:420-425 | appending a planned day keeps the served ids distinct and used |
| Planner.PlanStalls | ml_recipe_recommender.py:375-419 | when the day's recommender offers nothing for the initial stock, every day is skipped and neither the stock nor the used ids change |
| Planner.PlanWithoutUsableStock | ml_recipe_recommender.py:297-298 | a stock without a usable row gives an empty plan |

## Left out

- The TF-IDF fit and transform and the cosine similarity (sklearn) are left out. The fitted model is an opaque function from a row index and an inventory text to a value in [0, 1].
- Excel loading and the DataFrame clean-up in the constructor and `_preprocess_data` are left out. The corpus is given as already-parsed sequences of recipe and ingredient rows.
- `date.today()` and date parsing are left out. Each stock item carries its whole number of days until expiry, or `None` for a missing or unparsable date.
- Floating-point rounding, NaN and infinities are left out: numbers are exact reals. A NaN ingredient name is `None`. A NaN `Is_Essential` flag is `None`.
- Non-numeric quantities are left out: a quantity is a real number. In the program, a string quantity on a row with a non-empty name raises `TypeError` at the comparison `quantity <= 0` (`ml_recipe_recommender.py:110`). On a row with an empty name the `or` stops before that comparison, so the row stays in the planner's copy of the stock. An ingredient whose search reaches that row matches it, since the empty name is contained in every name (`:439`). `float()` then turns a numeric string into a number, and for any other string it fails and the error is ignored (`:442-447`). A string quantity still in place at the end of a planned day makes the filter `quantity > 0` at `:453` raise `TypeError`. None of these paths is modelled.
- Corpus.BuildIndex: the word characters of the token pattern are modelled for ASCII, Latin-1, Japanese kana and iteration marks, CJK ideographs, Hangul syllables and full-width and half-width forms. Word characters of other scripts are not, so for those the model may predict a failed fit where the program succeeds.
- Lower-casing folds ASCII, Latin-1 and full-width Latin capitals only. Other Unicode case mappings are not modelled.
- A recommendation carries its id, title, genre, score, details and ingredient rows. The timing, servings, calorie, method and step fields are plain copies of corpus data and are left out.
- `copy.deepcopy` is not modelled as an operation. Sequences are values in Dafny, so the caller's stock can never be changed by the planner.
- The planner's order of updates is modelled as a sequence of values. In-place mutation of the item dictionaries is not modelled. The model assumes that the stock list holds distinct item objects. A list that held the same dictionary twice would see one decrement show up at both positions, and the model does not capture that aliasing.
- The Flask application, the database scripts, the ORM declaration and the smoke-test scripts are outside this model.
