/**
 * Inventory feature extraction (`extract_inventory_features`): each usable
 * inventory row becomes an urgency score, and rows that share a normalised
 * name keep the highest score.
 */
module Inventory {
  import opened Wrappers
  import opened Text

  /**
   * One inventory row. `days` is the number of days from today to the expiry
   * date; `None` stands for a missing or unparsable date.
   */
  datatype InvItem = InvItem(name: string, quantity: real, days: Option<int>)

  function Min(a: real, b: real): real { if a <= b then a else b }
  function Max(a: real, b: real): real { if a >= b then a else b }

  /** The urgency of an item by days until expiry, before quantity scaling. */
  function UrgencyBase(days: int): real {
    if days < 0 then 200.0
    else if days <= 1 then 150.0
    else if days <= 3 then 120.0
    else if days <= 7 then 80.0
    else 30.0
  }

  /** Rows that raise the expiring count: expired or due within three days. */
  predicate IsExpiring(days: int) {
    days <= 3
  }

  /** The quantity factor `1 + min(quantity / 10, 1)`. */
  function QuantityFactor(quantity: real): real {
    1.0 + Min(quantity / 10.0, 1.0)
  }

  /**
   * The urgency base times the quantity factor, written bucket by bucket so
   * that every product has a constant side (`ItemScoreIsProduct`).
   */
  function ItemScore(quantity: real, days: int): real {
    var factor := QuantityFactor(quantity);
    if days < 0 then 200.0 * factor
    else if days <= 1 then 150.0 * factor
    else if days <= 3 then 120.0 * factor
    else if days <= 7 then 80.0 * factor
    else 30.0 * factor
  }

  lemma ItemScoreIsProduct(quantity: real, days: int)
    ensures ItemScore(quantity, days) == UrgencyBase(days) * QuantityFactor(quantity)
  {
  }

  lemma BucketTimesFactor(days: int, base: real, quantity: real)
    requires base == UrgencyBase(days)
    ensures base * QuantityFactor(quantity) == ItemScore(quantity, days)
  {
    ItemScoreIsProduct(quantity, days);
  }

  /** For a positive quantity the score lies in (base, 2 * base], reaching 2 * base from quantity 10. */
  lemma ItemScoreBounds(quantity: real, days: int)
    ensures quantity > 0.0 ==> UrgencyBase(days) < ItemScore(quantity, days) <= 2.0 * UrgencyBase(days)
    ensures quantity >= 10.0 ==> ItemScore(quantity, days) == 2.0 * UrgencyBase(days)
  {
  }

  /** The base score is one of the five buckets, and a sooner expiry never scores lower. */
  lemma UrgencyBuckets(d1: int, d2: int)
    requires d1 <= d2
    ensures UrgencyBase(d2) <= UrgencyBase(d1)
    ensures UrgencyBase(d1) in {200.0, 150.0, 120.0, 80.0, 30.0}
    ensures IsExpiring(d1) <==> UrgencyBase(d1) >= 120.0
  {
  }

  /** The normalised name under which a row is recorded. */
  function RowName(item: InvItem): string {
    NormalizeStr(item.name)
  }

  /** A row the extractor uses: non-empty name, positive quantity, a parsed date. */
  predicate IsValid(item: InvItem) {
    RowName(item) != "" && item.quantity > 0.0 && item.days.Some?
  }

  function RowScore(item: InvItem): real
    requires item.days.Some?
  {
    ItemScore(item.quantity, item.days.value)
  }

  /**
   * The extracted features. `scores` is `ingredient_scores`; `keys` is the
   * order in which its names were first inserted, the order in which the
   * scorer iterates over it; `names` is `ingredient_list`.
   */
  datatype Features = Features(
    scores: map<string, real>,
    keys: seq<string>,
    names: seq<string>,
    totalQuantity: real,
    expiringCount: nat)
  {
    /** `ingredient_text`: the names joined by single spaces. */
    function Text(): string {
      Join(names)
    }

    /** `keys` lists the names of `scores` once each, and no name is empty. */
    ghost predicate Wf() {
      && (forall i, j :: 0 <= i < j < |keys| ==> keys[i] != keys[j])
      && (forall k :: k in scores <==> k in keys)
      && "" !in scores
    }
  }

  const NoFeatures := Features(map[], [], [], 0.0, 0)

  /** One iteration of the extraction loop. */
  function Accumulate(f: Features, item: InvItem): Features {
    if !IsValid(item) then f
    else
      var name := RowName(item);
      var s := RowScore(item);
      Features(
        if name in f.scores then f.scores[name := Max(f.scores[name], s)] else f.scores[name := s],
        if name in f.scores then f.keys else f.keys + [name],
        f.names + [name],
        f.totalQuantity + item.quantity,
        if IsExpiring(item.days.value) then f.expiringCount + 1 else f.expiringCount)
  }

  /** The features of a list of rows, processed in order. */
  function Extract(items: seq<InvItem>): Features
    decreases |items|
  {
    if items == [] then NoFeatures
    else Accumulate(Extract(items[..|items| - 1]), items[|items| - 1])
  }

  /** The valid rows, in their original order. */
  function ValidRows(items: seq<InvItem>): (r: seq<InvItem>)
    ensures forall k :: 0 <= k < |r| ==> IsValid(r[k])
    ensures forall x :: x in r <==> x in items && IsValid(x)
    decreases |items|
  {
    if items == [] then []
    else
      assert items == items[..|items| - 1] + [items[|items| - 1]];
      ValidRows(items[..|items| - 1]) + (if IsValid(items[|items| - 1]) then [items[|items| - 1]] else [])
  }

  /**
   * The body of the extraction loop for a usable row: the bucket chain, which
   * also says whether the row counts as expiring, then the quantity scaling.
   */
  method UrgencyScore(quantity: real, days: int) returns (score: real, expiring: bool)
    ensures score == ItemScore(quantity, days) && expiring == IsExpiring(days)
  {
    if days < 0 {
      score, expiring := 200.0, true;
    } else if days <= 1 {
      score, expiring := 150.0, true;
    } else if days <= 3 {
      score, expiring := 120.0, true;
    } else if days <= 7 {
      score, expiring := 80.0, false;
    } else {
      score, expiring := 30.0, false;
    }
    BucketTimesFactor(days, score, quantity);
    score := score * QuantityFactor(quantity);
  }

  /**
   * `extract_inventory_features`: one pass over the rows, skipping unusable
   * ones, scoring the others by expiry bucket and quantity.
   */
  method ExtractInventoryFeatures(items: seq<InvItem>) returns (f: Features)
    ensures f == Extract(items)
    ensures f.Wf()
  {
    f := NoFeatures;
    var i := 0;
    while i < |items|
      invariant 0 <= i <= |items|
      invariant f == Extract(items[..i])
    {
      var item := items[i];
      assert items[..i + 1] == items[..i] + [item];
      ExtractSnoc(items[..i], item);
      var name := NormalizeStr(item.name);
      if name != "" && item.quantity > 0.0 && item.days.Some? {
        f := AddRow(f, item);
      }
      i := i + 1;
    }
    assert items[..i] == items;
    ExtractWf(items);
  }

  /** The loop body for a usable row: score it, keep the maximum per name, count it. */
  method AddRow(f: Features, item: InvItem) returns (g: Features)
    requires IsValid(item)
    ensures g == Accumulate(f, item)
  {
    var name := NormalizeStr(item.name);
    var score, soon := UrgencyScore(item.quantity, item.days.value);
    var scores, keys := f.scores, f.keys;
    if name in scores {
      scores := scores[name := Max(scores[name], score)];
    } else {
      scores := scores[name := score];
      keys := keys + [name];
    }
    g := Features(scores, keys, f.names + [name], f.totalQuantity + item.quantity,
      if soon then f.expiringCount + 1 else f.expiringCount);
  }

  lemma {:induction false} ExtractWf(items: seq<InvItem>)
    ensures Extract(items).Wf()
    decreases |items|
  {
    if items != [] {
      ExtractWf(items[..|items| - 1]);
    }
  }

  lemma ExtractSnoc(items: seq<InvItem>, x: InvItem)
    ensures Extract(items + [x]) == Accumulate(Extract(items), x)
  {
    assert (items + [x])[..|items|] == items;
  }

  /** Rows with an empty name, a quantity <= 0 or no date change nothing. */
  lemma {:induction false} ExtractSkipsInvalid(items: seq<InvItem>)
    ensures Extract(items) == Extract(ValidRows(items))
    decreases |items|
  {
    if items != [] {
      var pre := items[..|items| - 1];
      var last := items[|items| - 1];
      assert items == pre + [last];
      ExtractSkipsInvalid(pre);
      ExtractSnoc(pre, last);
      if IsValid(last) {
        assert ValidRows(items) == ValidRows(pre) + [last];
        ExtractSnoc(ValidRows(pre), last);
      } else {
        assert ValidRows(items) == ValidRows(pre);
      }
    }
  }

  /** How one row changes the score map: only its own name, and only upwards. */
  lemma AccumulateScores(f: Features, item: InvItem)
    ensures forall n :: n in f.scores ==> n in Accumulate(f, item).scores && f.scores[n] <= Accumulate(f, item).scores[n]
    ensures forall n :: n in Accumulate(f, item).scores && !(IsValid(item) && n == RowName(item)) ==>
      n in f.scores && Accumulate(f, item).scores[n] == f.scores[n]
    ensures IsValid(item) ==>
      && RowName(item) in Accumulate(f, item).scores
      && RowScore(item) <= Accumulate(f, item).scores[RowName(item)]
      && (|| Accumulate(f, item).scores[RowName(item)] == RowScore(item)
          || (RowName(item) in f.scores && Accumulate(f, item).scores[RowName(item)] == f.scores[RowName(item)]))
  {
  }

  /**
   * The score recorded for a name is the maximum, not the sum, of the scores
   * of the valid rows with that name; names come only from valid rows.
   */
  lemma {:induction false} ExtractKeepsMaximum(items: seq<InvItem>)
    ensures forall j :: 0 <= j < |items| && IsValid(items[j]) ==>
      RowName(items[j]) in Extract(items).scores && RowScore(items[j]) <= Extract(items).scores[RowName(items[j])]
    ensures forall n :: n in Extract(items).scores ==>
      exists j :: 0 <= j < |items| && IsValid(items[j]) && RowName(items[j]) == n
        && RowScore(items[j]) == Extract(items).scores[n]
    decreases |items|
  {
    if items != [] {
      var pre := items[..|items| - 1];
      var last := items[|items| - 1];
      assert items == pre + [last];
      ExtractKeepsMaximum(pre);
      ExtractSnoc(pre, last);
      var f := Extract(pre);
      var g := Extract(items);
      assert g == Accumulate(f, last);
      AccumulateScores(f, last);
      forall j | 0 <= j < |items| && IsValid(items[j])
        ensures RowName(items[j]) in g.scores && RowScore(items[j]) <= g.scores[RowName(items[j])]
      {
        if j < |pre| {
          assert items[j] == pre[j];
          var n := RowName(pre[j]);
          assert n in f.scores && RowScore(pre[j]) <= f.scores[n];
        }
      }
      forall n | n in g.scores
        ensures exists j ::
          0 <= j < |items| && IsValid(items[j]) && RowName(items[j]) == n && RowScore(items[j]) == g.scores[n]
      {
        if IsValid(last) && n == RowName(last) && g.scores[n] == RowScore(last) {
          assert items[|items| - 1] == last;
        } else {
          assert n in f.scores && g.scores[n] == f.scores[n];
          var j :| 0 <= j < |pre| && IsValid(pre[j]) && RowName(pre[j]) == n && RowScore(pre[j]) == f.scores[n];
          assert items[j] == pre[j];
        }
      }
    }
  }

  /** No valid row, no features: the caller's "no usable inventory" case. */
  lemma NoScoresIffNoValidRow(items: seq<InvItem>)
    ensures Extract(items).scores == map[] <==> forall j :: 0 <= j < |items| ==> !IsValid(items[j])
  {
    ExtractKeepsMaximum(items);
    if Extract(items).scores != map[] {
      var n :| n in Extract(items).scores;
    }
  }

  /** `ingredient_list` has one entry per valid row, in order. */
  lemma {:induction false} ExtractNames(items: seq<InvItem>)
    ensures |Extract(items).names| == |ValidRows(items)|
    ensures forall k :: 0 <= k < |ValidRows(items)| ==> Extract(items).names[k] == RowName(ValidRows(items)[k])
    decreases |items|
  {
    if items != [] {
      ExtractNames(items[..|items| - 1]);
    }
  }

  /** The number of valid rows that are expired or due within three days. */
  function CountExpiring(valid: seq<InvItem>): nat
    requires forall k :: 0 <= k < |valid| ==> valid[k].days.Some?
  {
    if valid == [] then 0
    else (if IsExpiring(valid[0].days.value) then 1 else 0) + CountExpiring(valid[1..])
  }

  /** The quantities of the given rows, added up. */
  function SumQuantity(rows: seq<InvItem>): real {
    if rows == [] then 0.0 else rows[0].quantity + SumQuantity(rows[1..])
  }

  lemma {:induction false} CountExpiringSnoc(valid: seq<InvItem>, x: InvItem)
    requires forall k :: 0 <= k < |valid| ==> valid[k].days.Some?
    requires x.days.Some?
    ensures CountExpiring(valid + [x]) == CountExpiring(valid) + (if IsExpiring(x.days.value) then 1 else 0)
    decreases |valid|
  {
    if valid != [] {
      assert (valid + [x])[1..] == valid[1..] + [x];
      CountExpiringSnoc(valid[1..], x);
    }
  }

  lemma {:induction false} SumQuantitySnoc(rows: seq<InvItem>, x: InvItem)
    ensures SumQuantity(rows + [x]) == SumQuantity(rows) + x.quantity
    decreases |rows|
  {
    if rows != [] {
      assert (rows + [x])[1..] == rows[1..] + [x];
      SumQuantitySnoc(rows[1..], x);
    }
  }

  /**
   * `expiring_count` counts the valid rows due within three days, expired
   * ones included; `total_quantity` adds up the quantities of valid rows only.
   */
  lemma {:induction false} ExtractCounts(items: seq<InvItem>)
    ensures Extract(items).expiringCount == CountExpiring(ValidRows(items))
    ensures Extract(items).totalQuantity == SumQuantity(ValidRows(items))
    decreases |items|
  {
    if items != [] {
      var pre := items[..|items| - 1];
      var last := items[|items| - 1];
      ExtractCounts(pre);
      assert items == pre + [last];
      ExtractSnoc(pre, last);
      if IsValid(last) {
        assert ValidRows(items) == ValidRows(pre) + [last];
        CountExpiringSnoc(ValidRows(pre), last);
        SumQuantitySnoc(ValidRows(pre), last);
      } else {
        assert ValidRows(items) == ValidRows(pre);
      }
    }
  }
}
