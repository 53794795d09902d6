/**
 * The multi-day menu planner (`recommend_daily_menu`): each day recommends up
 * to 50 recipes for the current stock, drops recipes already served, picks a
 * main dish and a side dish by genre (any unused candidate as a fallback main),
 * then, for each ingredient of the chosen dishes, lowers the first matching
 * stock item by one unit when its quantity is positive, and drops the stock
 * items that ran out.
 */
module Planner {
  import opened Wrappers
  import opened Text
  import opened Inventory
  import opened Corpus
  import opened Scoring
  import opened Ranking

  /** How many recommendations the planner asks for each day. */
  const CandidatePool := 50

  /** One planned day: the main dish is always present, the side dish may not be. */
  datatype DailyMenu = DailyMenu(day: int, main: Recommendation, side: Option<Recommendation>)

  // ---------------------------------------------------------------------------
  // Candidates and picks

  /** `[r for r in recommendations if r['recipe_id'] not in used_recipe_ids]`. */
  function Unused(recs: seq<Recommendation>, used: set<int>): seq<Recommendation>
    decreases |recs|
  {
    if recs == [] then []
    else
      var last := recs[|recs| - 1];
      Unused(recs[..|recs| - 1], used) + (if last.recipeId !in used then [last] else [])
  }

  lemma {:induction false} UnusedSpec(recs: seq<Recommendation>, used: set<int>)
    ensures forall r :: r in Unused(recs, used) <==> r in recs && r.recipeId !in used
    ensures Unused(recs, used) == [] <==> forall k :: 0 <= k < |recs| ==> recs[k].recipeId in used
    decreases |recs|
  {
    if recs != [] {
      var init := recs[..|recs| - 1];
      UnusedSpec(init, used);
      assert recs == init + [recs[|recs| - 1]];
      assert forall k :: 0 <= k < |init| ==> init[k] == recs[k];
    }
  }

  /** The genre tests, on the genre with surrounding white space removed. */
  predicate IsMainGenre(genre: string) {
    var g := Strip(genre);
    (|g| > 0 && g[0] == '\U{4E3B}') || g == "Main"
  }

  predicate IsSideGenre(genre: string) {
    var g := Strip(genre);
    (|g| > 0 && g[0] == '\U{526F}') || g == "Side"
  }

  lemma GenresDisjoint(genre: string)
    ensures !(IsMainGenre(genre) && IsSideGenre(genre))
  {
  }

  /** Which of the three selection loops is running. */
  datatype Slot = MainSlot | SideSlot | AnySlot

  predicate Fits(slot: Slot, r: Recommendation) {
    match slot
    case MainSlot => IsMainGenre(r.genre)
    case SideSlot => IsSideGenre(r.genre)
    case AnySlot => true
  }

  predicate Eligible(slot: Slot, r: Recommendation, used: set<int>) {
    Fits(slot, r) && r.recipeId !in used
  }

  /** The first candidate from position `i` on that fits the slot and is not used yet. */
  function FirstFit(cands: seq<Recommendation>, used: set<int>, slot: Slot, i: nat): Option<Recommendation>
    requires i <= |cands|
    decreases |cands| - i
  {
    if i == |cands| then None
    else if Eligible(slot, cands[i], used) then Some(cands[i])
    else FirstFit(cands, used, slot, i + 1)
  }

  /** The pick is the first eligible candidate, and there is none exactly when nothing is eligible. */
  lemma {:induction false} FirstFitSpec(cands: seq<Recommendation>, used: set<int>, slot: Slot, i: nat)
    requires i <= |cands|
    ensures FirstFit(cands, used, slot, i).None? <==> forall k :: i <= k < |cands| ==> !Eligible(slot, cands[k], used)
    ensures FirstFit(cands, used, slot, i).Some? ==>
      exists p :: i <= p < |cands| && FirstFit(cands, used, slot, i) == Some(cands[p])
        && Eligible(slot, cands[p], used) && forall k :: i <= k < p ==> !Eligible(slot, cands[k], used)
    decreases |cands| - i
  {
    if i < |cands| && !Eligible(slot, cands[i], used) {
      FirstFitSpec(cands, used, slot, i + 1);
    }
  }

  /** One of the `for r in candidates: ... break` loops. */
  method PickFirst(cands: seq<Recommendation>, used: set<int>, slot: Slot) returns (pick: Option<Recommendation>)
    ensures pick == FirstFit(cands, used, slot, 0)
  {
    pick := None;
    var i := 0;
    while i < |cands|
      invariant 0 <= i <= |cands|
      invariant FirstFit(cands, used, slot, i) == FirstFit(cands, used, slot, 0)
    {
      var r := cands[i];
      if Fits(slot, r) && r.recipeId !in used {
        pick := Some(r);
        break;
      }
      i := i + 1;
    }
  }

  // ---------------------------------------------------------------------------
  // Stock consumption

  /** The first stock item from position `i` on whose normalised name matches the ingredient. */
  function MatchFrom(inv: seq<InvItem>, ing: string, i: nat): (r: Option<nat>)
    requires i <= |inv|
    ensures r.Some? ==>
      && i <= r.value < |inv| && NamesMatch(ing, RowName(inv[r.value]))
      && forall k :: i <= k < r.value ==> !NamesMatch(ing, RowName(inv[k]))
    ensures r.None? ==> forall k :: i <= k < |inv| ==> !NamesMatch(ing, RowName(inv[k]))
    decreases |inv| - i
  {
    if i == |inv| then None
    else if NamesMatch(ing, RowName(inv[i])) then Some(i)
    else MatchFrom(inv, ing, i + 1)
  }

  /**
   * One ingredient of a cooked dish: the first matching stock item loses one
   * unit if its quantity is positive; the search stops at that item either way.
   */
  function UseIngredient(inv: seq<InvItem>, ing: string): seq<InvItem> {
    var m := MatchFrom(inv, ing, 0);
    if m.None? then inv
    else if inv[m.value].quantity > 0.0 then inv[m.value := inv[m.value].(quantity := inv[m.value].quantity - 1.0)]
    else inv
  }

  /**
   * Only the first stock item matching the ingredient can change, and only by
   * losing exactly one unit when its quantity was positive; names, expiry
   * days and the order of the stock never change.
   */
  lemma UseIngredientSpec(inv: seq<InvItem>, ing: string)
    ensures |UseIngredient(inv, ing)| == |inv|
    ensures forall k :: 0 <= k < |inv| ==>
      UseIngredient(inv, ing)[k].name == inv[k].name && UseIngredient(inv, ing)[k].days == inv[k].days
    ensures (forall k :: 0 <= k < |inv| ==> !NamesMatch(ing, RowName(inv[k]))) ==> UseIngredient(inv, ing) == inv
    ensures forall j ::
      (0 <= j < |inv| && NamesMatch(ing, RowName(inv[j])) && forall k :: 0 <= k < j ==> !NamesMatch(ing, RowName(inv[k]))) ==>
        && UseIngredient(inv, ing)[j].quantity == (if inv[j].quantity > 0.0 then inv[j].quantity - 1.0 else inv[j].quantity)
        && forall k :: 0 <= k < |inv| && k != j ==> UseIngredient(inv, ing)[k] == inv[k]
  {
    var m := MatchFrom(inv, ing, 0);
    forall j | 0 <= j < |inv| && NamesMatch(ing, RowName(inv[j])) && (forall k :: 0 <= k < j ==> !NamesMatch(ing, RowName(inv[k])))
      ensures m == Some(j)
    {
    }
  }

  /** An ingredient whose name is missing normalises to "" and takes from the first stock item. */
  lemma EmptyIngredientTakesFirstItem(inv: seq<InvItem>)
    requires inv != []
    ensures UseIngredient(inv, Normalize(None))[0].quantity
      == if inv[0].quantity > 0.0 then inv[0].quantity - 1.0 else inv[0].quantity
  {
    EmptyNameMatchesAll(RowName(inv[0]));
    assert MatchFrom(inv, Normalize(None), 0) == Some(0);
  }

  /** The inner loop over the stock for one ingredient. */
  method ConsumeIngredient(inv: seq<InvItem>, ing: string) returns (r: seq<InvItem>)
    ensures r == UseIngredient(inv, ing)
  {
    r := inv;
    var j := 0;
    while j < |r|
      invariant 0 <= j <= |r| && r == inv
      invariant MatchFrom(inv, ing, j) == MatchFrom(inv, ing, 0)
    {
      if NamesMatch(ing, NormalizeStr(r[j].name)) {
        if r[j].quantity > 0.0 {
          r := r[j := r[j].(quantity := r[j].quantity - 1.0)];
        }
        break;
      }
      j := j + 1;
    }
  }

  /** All ingredient rows of a dish, one after the other. */
  function UseRows(inv: seq<InvItem>, rows: seq<IngredientRow>): seq<InvItem>
    decreases |rows|
  {
    if rows == [] then inv
    else UseIngredient(UseRows(inv, rows[..|rows| - 1]), Normalize(rows[|rows| - 1].name))
  }

  /** The dishes of a day, main dish first. */
  function UseDishes(inv: seq<InvItem>, dishes: seq<Recommendation>): seq<InvItem>
    decreases |dishes|
  {
    if dishes == [] then inv
    else UseRows(UseDishes(inv, dishes[..|dishes| - 1]), dishes[|dishes| - 1].ingredients)
  }

  /**
   * Consuming keeps the stock's length, names and expiry days, never raises a
   * quantity, and takes at most one unit per ingredient from any item.
   */
  lemma {:induction false} UseRowsKeepsShape(inv: seq<InvItem>, rows: seq<IngredientRow>)
    ensures |UseRows(inv, rows)| == |inv|
    ensures forall k :: 0 <= k < |inv| ==>
      UseRows(inv, rows)[k].name == inv[k].name && UseRows(inv, rows)[k].days == inv[k].days
    ensures forall k :: 0 <= k < |inv| ==> UseRows(inv, rows)[k].quantity <= inv[k].quantity
    ensures forall k :: 0 <= k < |inv| ==> inv[k].quantity - UseRows(inv, rows)[k].quantity <= |rows| as real
    decreases |rows|
  {
    if rows != [] {
      var pre := UseRows(inv, rows[..|rows| - 1]);
      UseRowsKeepsShape(inv, rows[..|rows| - 1]);
      var ing := Normalize(rows[|rows| - 1].name);
      UseIngredientSpec(pre, ing);
      var m := MatchFrom(pre, ing, 0);
      if m.Some? {
        assert forall k :: 0 <= k < m.value ==> !NamesMatch(ing, RowName(pre[k]));
      }
      forall k | 0 <= k < |inv| ensures pre[k].quantity - UseRows(inv, rows)[k].quantity <= 1.0 {
        if m.Some? && k == m.value {
        } else if m.Some? {
          assert UseRows(inv, rows)[k] == pre[k];
        }
      }
    }
  }

  /** The loop over the ingredient rows of one dish. */
  method ConsumeDish(inv: seq<InvItem>, rows: seq<IngredientRow>) returns (r: seq<InvItem>)
    ensures r == UseRows(inv, rows)
  {
    r := inv;
    var k := 0;
    while k < |rows|
      invariant 0 <= k <= |rows|
      invariant r == UseRows(inv, rows[..k])
    {
      assert rows[..k + 1][..k] == rows[..k];
      var ingName := Normalize(rows[k].name);
      r := ConsumeIngredient(r, ingName);
      k := k + 1;
    }
    assert rows[..k] == rows;
  }

  /** The loop over the dishes to cook. */
  method ConsumeDishes(inv: seq<InvItem>, dishes: seq<Recommendation>) returns (r: seq<InvItem>)
    ensures r == UseDishes(inv, dishes)
  {
    r := inv;
    var d := 0;
    while d < |dishes|
      invariant 0 <= d <= |dishes|
      invariant r == UseDishes(inv, dishes[..d])
    {
      assert dishes[..d + 1][..d] == dishes[..d];
      r := ConsumeDish(r, dishes[d].ingredients);
      d := d + 1;
    }
    assert dishes[..d] == dishes;
  }

  /** `[item for item in current_inventory if item.get('quantity', 0) > 0]`. */
  function DropEmpty(inv: seq<InvItem>): seq<InvItem>
    decreases |inv|
  {
    if inv == [] then []
    else
      var last := inv[|inv| - 1];
      DropEmpty(inv[..|inv| - 1]) + (if last.quantity > 0.0 then [last] else [])
  }

  lemma {:induction false} DropEmptySpec(inv: seq<InvItem>)
    ensures forall x :: x in DropEmpty(inv) <==> x in inv && x.quantity > 0.0
    ensures |DropEmpty(inv)| <= |inv|
    decreases |inv|
  {
    if inv != [] {
      DropEmptySpec(inv[..|inv| - 1]);
      assert inv == inv[..|inv| - 1] + [inv[|inv| - 1]];
    }
  }

  // ---------------------------------------------------------------------------
  // One day

  /** The used ids after a pick. */
  function Add(used: set<int>, pick: Option<Recommendation>): set<int> {
    if pick.Some? then used + {pick.value.recipeId} else used
  }

  function Dishes(main: Recommendation, side: Option<Recommendation>): seq<Recommendation> {
    [main] + (if side.Some? then [side.value] else [])
  }

  /** What one day leaves behind: its menu (none for a skipped day), the stock and the used ids. */
  datatype DayOutcome = DayOutcome(menu: Option<DailyMenu>, inventory: seq<InvItem>, used: set<int>)

  /** One day, given the day's recommendations. */
  function DayWith(recs: seq<Recommendation>, inv: seq<InvItem>, used: set<int>, day: int): DayOutcome {
    var cands := Unused(recs, used);
    var main := FirstFit(cands, used, MainSlot, 0);
    var used1 := Add(used, main);
    var side := FirstFit(cands, used1, SideSlot, 0);
    var used2 := Add(used1, side);
    var fallback := if main.None? && cands != [] then FirstFit(cands, used2, AnySlot, 0) else None;
    var chosen := if main.Some? then main else fallback;
    var used3 := Add(used2, fallback);
    if chosen.None? then DayOutcome(None, inv, used3)
    else DayOutcome(Some(DailyMenu(day, chosen.value, side)), DropEmpty(UseDishes(inv, Dishes(chosen.value, side))), used3)
  }

  /** One day of `recommend_daily_menu`. */
  function DayStep(e: Engine, inv: seq<InvItem>, used: set<int>, day: int): DayOutcome {
    DayWith(RecommendSpec(e, inv, CandidatePool), inv, used, day)
  }

  /** The dishes of a planned day are distinct unused candidates of that day; the used set only grows. */
  lemma DayPicks(recs: seq<Recommendation>, inv: seq<InvItem>, used: set<int>, day: int)
    ensures used <= DayWith(recs, inv, used, day).used
    ensures DayWith(recs, inv, used, day).menu.Some? ==>
      var m := DayWith(recs, inv, used, day).menu.value;
      var after := DayWith(recs, inv, used, day).used;
      && m.day == day
      && m.main in recs && m.main.recipeId !in used && m.main.recipeId in after
      && (m.side.Some? ==>
        && m.side.value in recs && m.side.value.recipeId !in used && m.side.value.recipeId in after
        && IsSideGenre(m.side.value.genre) && m.side.value.recipeId != m.main.recipeId)
  {
    var cands := Unused(recs, used);
    UnusedSpec(recs, used);
    var main := FirstFit(cands, used, MainSlot, 0);
    FirstFitSpec(cands, used, MainSlot, 0);
    var used1 := Add(used, main);
    var side := FirstFit(cands, used1, SideSlot, 0);
    FirstFitSpec(cands, used1, SideSlot, 0);
    var used2 := Add(used1, side);
    if main.None? && cands != [] {
      FirstFitSpec(cands, used2, AnySlot, 0);
    }
  }

  /**
   * The main dish is the first unused main-genre candidate whenever there is
   * one; otherwise it is the first candidate still unused after the side pick
   * (the fallback, which may not take the side dish just chosen).
   */
  lemma DayPrefersMainGenre(recs: seq<Recommendation>, inv: seq<InvItem>, used: set<int>, day: int)
    ensures var cands := Unused(recs, used);
      (exists k :: 0 <= k < |cands| && IsMainGenre(cands[k].genre)) ==>
        && DayWith(recs, inv, used, day).menu.Some?
        && FirstFit(cands, used, MainSlot, 0).Some?
        && DayWith(recs, inv, used, day).menu.value.main == FirstFit(cands, used, MainSlot, 0).value
    ensures var cands := Unused(recs, used);
      var afterSide := Add(used, FirstFit(cands, used, SideSlot, 0));
      ((forall k :: 0 <= k < |cands| ==> !IsMainGenre(cands[k].genre)) && DayWith(recs, inv, used, day).menu.Some?) ==>
        && FirstFit(cands, afterSide, AnySlot, 0).Some?
        && DayWith(recs, inv, used, day).menu.value.main == FirstFit(cands, afterSide, AnySlot, 0).value
  {
    var cands := Unused(recs, used);
    UnusedSpec(recs, used);
    FirstFitSpec(cands, used, MainSlot, 0);
    if exists k :: 0 <= k < |cands| && IsMainGenre(cands[k].genre) {
      var k :| 0 <= k < |cands| && IsMainGenre(cands[k].genre);
      assert cands[k] in cands;
      assert Eligible(MainSlot, cands[k], used);
    }
  }

  /**
   * A skipped day leaves the stock as it was and no unused candidate behind:
   * every candidate of that day was the side dish it still marked as used.
   */
  lemma DaySkipStalls(recs: seq<Recommendation>, inv: seq<InvItem>, used: set<int>, day: int)
    ensures DayWith(recs, inv, used, day).menu.None? ==>
      DayWith(recs, inv, used, day).inventory == inv && Unused(recs, DayWith(recs, inv, used, day).used) == []
  {
    var o := DayWith(recs, inv, used, day);
    if o.menu.None? {
      var cands := Unused(recs, used);
      UnusedSpec(recs, used);
      UnusedSpec(recs, o.used);
      var main := FirstFit(cands, used, MainSlot, 0);
      var used1 := Add(used, main);
      var side := FirstFit(cands, used1, SideSlot, 0);
      var used2 := Add(used1, side);
      assert main.None?;
      if cands != [] {
        FirstFitSpec(cands, used2, AnySlot, 0);
        assert o.used == used2;
        forall j | 0 <= j < |recs| ensures recs[j].recipeId in o.used {
          if recs[j].recipeId !in used {
            assert recs[j] in cands;
            var k :| 0 <= k < |cands| && cands[k] == recs[j];
            assert !Eligible(AnySlot, cands[k], used2);
          }
        }
      }
    }
  }

  /** With no unused candidate the day is skipped and changes nothing. */
  lemma DayWithoutCandidates(recs: seq<Recommendation>, inv: seq<InvItem>, used: set<int>, day: int)
    requires Unused(recs, used) == []
    ensures DayWith(recs, inv, used, day) == DayOutcome(None, inv, used)
  {
    assert FirstFit([], used, MainSlot, 0) == None;
  }

  /** After a planned day every stock item has a positive quantity. */
  lemma DayLeavesPositiveStock(recs: seq<Recommendation>, inv: seq<InvItem>, used: set<int>, day: int)
    ensures DayWith(recs, inv, used, day).menu.Some? ==>
      forall x :: x in DayWith(recs, inv, used, day).inventory ==> x.quantity > 0.0
  {
    var o := DayWith(recs, inv, used, day);
    if o.menu.Some? {
      var m := o.menu.value;
      DropEmptySpec(UseDishes(inv, Dishes(m.main, m.side)));
    }
  }

  /** The method form of one day: recommend, filter, three picks, consumption, clean-up. */
  method PlanDay(e: Engine, inv: seq<InvItem>, used: set<int>, day: int)
    returns (menu: Option<DailyMenu>, inv': seq<InvItem>, used': set<int>)
    ensures DayOutcome(menu, inv', used') == DayStep(e, inv, used, day)
  {
    var recs := Recommend(e, inv, CandidatePool);
    var cands := Unused(recs, used);
    used' := used;
    var main := PickFirst(cands, used', MainSlot);
    if main.Some? {
      used' := used' + {main.value.recipeId};
    }
    var side := PickFirst(cands, used', SideSlot);
    if side.Some? {
      used' := used' + {side.value.recipeId};
    }
    if main.None? && cands != [] {
      main := PickFirst(cands, used', AnySlot);
      if main.Some? {
        used' := used' + {main.value.recipeId};
      }
    }
    if main.None? {
      return None, inv, used';
    }
    menu := Some(DailyMenu(day, main.value, side));
    var dishes := [main.value];
    if side.Some? {
      dishes := dishes + [side.value];
    }
    inv' := ConsumeDishes(inv, dishes);
    inv' := DropEmpty(inv');
  }

  // ---------------------------------------------------------------------------
  // The whole plan

  /** The planner's state after some days: the menus so far, the stock and the used ids. */
  datatype PlanState = PlanState(menus: seq<DailyMenu>, inventory: seq<InvItem>, used: set<int>)

  /** The recommender the planner consults each day. */
  function DailyRecommender(e: Engine): seq<InvItem> -> seq<Recommendation> {
    inv => RecommendSpec(e, inv, CandidatePool)
  }

  /** The state after days 1..n with a given daily recommender, starting from a copy of the stock. */
  function PlanFrom(recsOf: seq<InvItem> -> seq<Recommendation>, items: seq<InvItem>, n: nat): PlanState
    decreases n
  {
    if n == 0 then PlanState([], items, {})
    else
      var s := PlanFrom(recsOf, items, n - 1);
      var o := DayWith(recsOf(s.inventory), s.inventory, s.used, n);
      PlanState(s.menus + (if o.menu.Some? then [o.menu.value] else []), o.inventory, o.used)
  }

  /** `recommend_daily_menu(inventory, days)`. */
  function PlanSpec(e: Engine, items: seq<InvItem>, days: int): seq<DailyMenu> {
    PlanFrom(DailyRecommender(e), items, if days > 0 then days else 0).menus
  }

  /** `recsOf` is the planner's daily recommender. */
  ghost predicate Recommends(e: Engine, recsOf: seq<InvItem> -> seq<Recommendation>) {
    forall inv {:trigger RecommendSpec(e, inv, CandidatePool)} :: recsOf(inv) == RecommendSpec(e, inv, CandidatePool)
  }

  /** One iteration of the loop over the days. */
  method PlanNextDay(e: Engine, items: seq<InvItem>, day: nat, s: PlanState, ghost recsOf: seq<InvItem> -> seq<Recommendation>)
    returns (t: PlanState)
    requires Recommends(e, recsOf)
    requires day >= 1 && s == PlanFrom(recsOf, items, day - 1)
    ensures t == PlanFrom(recsOf, items, day)
  {
    var menu, inv, used := PlanDay(e, s.inventory, s.used, day);
    var menus := s.menus;
    if menu.Some? {
      menus := menus + [menu.value];
    }
    t := PlanState(menus, inv, used);
  }

  /** The loop over days 1..n. */
  method PlanDays(e: Engine, items: seq<InvItem>, n: nat, ghost recsOf: seq<InvItem> -> seq<Recommendation>)
    returns (state: PlanState)
    requires Recommends(e, recsOf)
    ensures state == PlanFrom(recsOf, items, n)
  {
    state := PlanState([], items, {});
    var day := 0;
    while day < n
      invariant day <= n
      invariant state == PlanFrom(recsOf, items, day)
    {
      state := PlanNextDay(e, items, day + 1, state, recsOf);
      day := day + 1;
    }
  }

  method PlanMenu(e: Engine, items: seq<InvItem>, days: int) returns (menus: seq<DailyMenu>)
    ensures menus == PlanSpec(e, items, days)
  {
    var state := PlanDays(e, items, if days > 0 then days else 0, DailyRecommender(e));
    menus := state.menus;
  }

  /** The recipe ids served by a list of menus, main dish before side dish, day by day. */
  function DishIds(menus: seq<DailyMenu>): seq<int>
    decreases |menus|
  {
    if menus == [] then []
    else
      var m := menus[|menus| - 1];
      DishIds(menus[..|menus| - 1]) + [m.main.recipeId] + (if m.side.Some? then [m.side.value.recipeId] else [])
  }

  predicate Distinct(ids: seq<int>) {
    forall i, j :: 0 <= i < j < |ids| ==> ids[i] != ids[j]
  }

  /**
   * After n days, whatever the daily recommender: at most n menus, numbered
   * 1, 2, 3, ... without gaps (once a day is skipped no unused candidate is
   * left, so every later day is skipped too), no recipe served twice, and
   * every served recipe marked as used.
   */
  lemma {:induction false} PlanFacts(recsOf: seq<InvItem> -> seq<Recommendation>, items: seq<InvItem>, n: nat)
    ensures var s := PlanFrom(recsOf, items, n);
      && |s.menus| <= n
      && (forall i :: 0 <= i < |s.menus| ==> s.menus[i].day == i + 1)
      && (|s.menus| < n ==> Unused(recsOf(s.inventory), s.used) == [])
      && Distinct(DishIds(s.menus))
      && (forall id :: id in DishIds(s.menus) ==> id in s.used)
    decreases n
  {
    if n > 0 {
      var s := PlanFrom(recsOf, items, n - 1);
      PlanFacts(recsOf, items, n - 1);
      var recs := recsOf(s.inventory);
      var o := DayWith(recs, s.inventory, s.used, n);
      var t := PlanFrom(recsOf, items, n);
      if |s.menus| < n - 1 {
        DayWithoutCandidates(recs, s.inventory, s.used, n);
        assert t == s;
      } else if o.menu.None? {
        DaySkipStalls(recs, s.inventory, s.used, n);
        assert t == PlanState(s.menus, s.inventory, o.used);
      } else {
        PlanDayAppends(recs, s, n);
      }
    }
  }

  /** A planned day appends its menu and keeps the served ids distinct and used. */
  lemma PlanDayAppends(recs: seq<Recommendation>, s: PlanState, n: nat)
    requires Distinct(DishIds(s.menus)) && forall id :: id in DishIds(s.menus) ==> id in s.used
    requires DayWith(recs, s.inventory, s.used, n).menu.Some?
    ensures var o := DayWith(recs, s.inventory, s.used, n);
      var menus := s.menus + [o.menu.value];
      Distinct(DishIds(menus)) && forall id :: id in DishIds(menus) ==> id in o.used
  {
    var o := DayWith(recs, s.inventory, s.used, n);
    var m := o.menu.value;
    DayPicks(recs, s.inventory, s.used, n);
    var menus := s.menus + [m];
    assert menus[..|menus| - 1] == s.menus;
    var added := [m.main.recipeId] + (if m.side.Some? then [m.side.value.recipeId] else []);
    var ids := DishIds(menus);
    assert ids == DishIds(s.menus) + added;
    forall i, j | 0 <= i < j < |ids| ensures ids[i] != ids[j] {
      if j >= |DishIds(s.menus)| && i < |DishIds(s.menus)| {
        assert ids[i] in DishIds(s.menus);
      }
    }
  }

  /** A recommender with nothing to offer for the initial stock leaves the plan empty and the stock untouched. */
  lemma {:induction false} PlanStalls(recsOf: seq<InvItem> -> seq<Recommendation>, items: seq<InvItem>, n: nat)
    requires recsOf(items) == []
    ensures PlanFrom(recsOf, items, n) == PlanState([], items, {})
    decreases n
  {
    if n > 0 {
      PlanStalls(recsOf, items, n - 1);
      DayWithoutCandidates([], items, {}, n);
    }
  }

  /** An inventory without a single usable row gives an empty plan. */
  lemma PlanWithoutUsableStock(e: Engine, items: seq<InvItem>, days: int)
    requires forall j :: 0 <= j < |items| ==> !IsValid(items[j])
    ensures PlanSpec(e, items, days) == []
  {
    RecommendSpecFacts(e, items, CandidatePool);
    PlanStalls(DailyRecommender(e), items, if days > 0 then days else 0);
  }
}
