/**
 * The recipe corpus and the engine handle built from it once
 * (`_build_feature_vectors`): the distinct recipe ids in corpus order, one
 * space-joined ingredient document per recipe, and the id <-> row-index maps.
 * The TF-IDF fit and the cosine similarity are represented by an opaque
 * `Similarity` function with values in [0, 1].
 */
module Corpus {
  import opened Wrappers
  import opened Text

  /** A recipe row; of its metadata only the title and the genre are carried. */
  datatype Recipe = Recipe(id: int, title: string, genre: string)

  /**
   * An ingredient row. `name` is `None` for a missing value (NaN);
   * `essential` is `None` for a flag that equals neither True nor False.
   */
  datatype IngredientRow = IngredientRow(recipeId: int, name: Option<string>, essential: Option<bool>)

  /**
   * The cosine similarity between the fitted vector of the recipe at a row
   * index and the projection of an inventory text, in [0, 1].
   */
  type Similarity = f: (nat, string) -> real | forall i, t :: 0.0 <= f(i, t) <= 1.0
    witness (i: nat, t: string) => 0.0

  /**
   * The engine handle: the recipes with distinct ids in corpus order
   * (`recipes_df['Recipe_ID'].unique()`, each with its first row), all
   * ingredient rows, whether the `Is_Essential` column exists, the documents,
   * the two index maps and the fitted similarity.
   */
  datatype Engine = Engine(
    catalog: seq<Recipe>,
    ingredients: seq<IngredientRow>,
    hasEssentialColumn: bool,
    docs: seq<string>,
    idToIndex: map<int, nat>,
    indexToId: map<nat, int>,
    similarity: Similarity)

  function IdsOf(rs: seq<Recipe>): seq<int>
  {
    seq(|rs|, k requires 0 <= k < |rs| => rs[k].id)
  }

  /** The first row of each recipe id, in order of first appearance. */
  function FirstOccurrences(rs: seq<Recipe>): seq<Recipe>
    decreases |rs|
  {
    if rs == [] then []
    else
      var p := FirstOccurrences(rs[..|rs| - 1]);
      var x := rs[|rs| - 1];
      if x.id in IdsOf(p) then p else p + [x]
  }

  /** Recipe `rs[j]` is the first row carrying its id. */
  predicate FirstWithId(rs: seq<Recipe>, j: int) {
    0 <= j < |rs| && forall i :: 0 <= i < j ==> rs[i].id != rs[j].id
  }

  /**
   * `unique()` keeps each id once, loses none, and pairs it with the first
   * row that carries it.
   */
  lemma {:induction false} FirstOccurrencesSpec(rs: seq<Recipe>)
    ensures forall i, j :: 0 <= i < j < |FirstOccurrences(rs)| ==> FirstOccurrences(rs)[i].id != FirstOccurrences(rs)[j].id
    ensures forall j :: 0 <= j < |rs| ==> rs[j].id in IdsOf(FirstOccurrences(rs))
    ensures forall k :: 0 <= k < |FirstOccurrences(rs)| ==>
      exists j :: FirstWithId(rs, j) && rs[j] == FirstOccurrences(rs)[k]
    decreases |rs|
  {
    if rs != [] {
      var pre := rs[..|rs| - 1];
      var x := rs[|rs| - 1];
      FirstOccurrencesSpec(pre);
      var p := FirstOccurrences(pre);
      var r := FirstOccurrences(rs);
      assert r == p || r == p + [x];
      forall j | 0 <= j < |rs| ensures rs[j].id in IdsOf(r) {
        if j < |pre| {
          assert rs[j] == pre[j];
          assert pre[j].id in IdsOf(p);
          var m :| 0 <= m < |p| && IdsOf(p)[m] == pre[j].id;
          assert r[m] == p[m] && IdsOf(r)[m] == r[m].id;
        } else if x.id !in IdsOf(p) {
          assert r[|r| - 1] == x && IdsOf(r)[|r| - 1] == x.id;
        }
      }
      forall k | 0 <= k < |r| ensures exists j :: FirstWithId(rs, j) && rs[j] == r[k] {
        if k < |p| {
          assert r[k] == p[k];
          var j :| FirstWithId(pre, j) && pre[j] == p[k];
          assert rs[j] == pre[j];
          assert FirstWithId(rs, j);
        } else {
          assert r[k] == x;
          forall i | 0 <= i < |rs| - 1 ensures rs[i].id != x.id {
            assert rs[i] == pre[i];
          }
          assert FirstWithId(rs, |rs| - 1);
        }
      }
      assert r == FirstOccurrences(rs);
    } else {
      assert FirstOccurrences(rs) == [];
    }
  }

  /**
   * The order of first appearance is kept: the distinct recipes of any
   * prefix of the table come first, in the same order.
   */
  lemma {:induction false} FirstOccurrencesPrefix(rs: seq<Recipe>, n: nat)
    requires n <= |rs|
    ensures FirstOccurrences(rs[..n]) <= FirstOccurrences(rs)
    decreases |rs|
  {
    if n < |rs| {
      var pre := rs[..|rs| - 1];
      assert rs[..n] == pre[..n];
      FirstOccurrencesPrefix(pre, n);
    } else {
      assert rs[..n] == rs;
    }
  }

  /** The ingredient rows of one recipe, in table order. */
  function RowsOf(ingredients: seq<IngredientRow>, id: int): (r: seq<IngredientRow>)
    ensures forall k :: 0 <= k < |r| ==> r[k].recipeId == id && r[k] in ingredients
    ensures forall row :: row in ingredients && row.recipeId == id ==> row in r
    decreases |ingredients|
  {
    if ingredients == [] then []
    else
      var last := ingredients[|ingredients| - 1];
      RowsOf(ingredients[..|ingredients| - 1], id) + (if last.recipeId == id then [last] else [])
  }

  /** `astype(str)`: a missing name is rendered as "nan". */
  function AsText(name: Option<string>): string {
    match name
    case None => "nan"
    case Some(s) => s
  }

  function Texts(rows: seq<IngredientRow>): seq<string>
  {
    seq(|rows|, k requires 0 <= k < |rows| => AsText(rows[k].name))
  }

  /** The TF-IDF document of a recipe: its ingredient names joined by spaces. */
  function Doc(ingredients: seq<IngredientRow>, id: int): string {
    Join(Texts(RowsOf(ingredients, id)))
  }

  /** The documents of the catalog's recipes, in catalog order. */
  function Docs(ingredients: seq<IngredientRow>, catalog: seq<Recipe>): seq<string> {
    seq(|catalog|, k requires 0 <= k < |catalog| => Doc(ingredients, catalog[k].id))
  }

  /**
   * A character matched by `\w` in a Unicode pattern: letters, digits and
   * numerals of the scripts below, and the underscore.
   */
  predicate IsWordChar(c: char) {
    var n := c as int;
    || n == 0x5F
    || (0x30 <= n <= 0x39) || (0x41 <= n <= 0x5A) || (0x61 <= n <= 0x7A)
    || n == 0xAA || n == 0xB2 || n == 0xB3 || n == 0xB5 || n == 0xB9 || n == 0xBA || (0xBC <= n <= 0xBE)
    || (0xC0 <= n <= 0xFF && n != 0xD7 && n != 0xF7)
    || (0x3005 <= n <= 0x3007) || (0x3041 <= n <= 0x3096) || (0x309D <= n <= 0x309F)
    || (0x30A1 <= n <= 0x30FA) || (0x30FC <= n <= 0x30FF)
    || (0x3400 <= n <= 0x4DBF) || (0x4E00 <= n <= 0x9FFF) || (0xAC00 <= n <= 0xD7A3)
    || (0xFF10 <= n <= 0xFF19) || (0xFF21 <= n <= 0xFF3A) || (0xFF41 <= n <= 0xFF5A) || (0xFF66 <= n <= 0xFF9F)
  }

  /**
   * The default token pattern `(?u)\b\w\w+\b` finds a token in a document
   * exactly when two word characters stand next to each other (a maximal
   * run of at least two of them).
   */
  predicate HasToken(doc: string) {
    exists i :: 0 <= i < |doc| - 1 && IsWordChar(doc[i]) && IsWordChar(doc[i + 1])
  }

  /** Fitting the vectorizer succeeds only when some document has a token. */
  predicate HasVocabulary(docs: seq<string>) {
    exists k :: 0 <= k < |docs| && HasToken(docs[k])
  }

  /** The two index maps are consistent with the catalog order. */
  ghost predicate IndexedInOrder(catalog: seq<Recipe>, idToIndex: map<int, nat>, indexToId: map<nat, int>) {
    && (forall id :: id in idToIndex <==> id in IdsOf(catalog))
    && (forall k :: 0 <= k < |catalog| ==> catalog[k].id in idToIndex && idToIndex[catalog[k].id] == k)
    && (forall k: nat :: k in indexToId <==> k < |catalog|)
    && (forall k :: 0 <= k < |catalog| ==> indexToId[k] == catalog[k].id)
  }

  /**
   * Building the index: one document per distinct id; the fit fails (the
   * vectorizer's empty-vocabulary error) when no document has a token, which
   * includes an empty corpus; otherwise the two index maps are built.
   */
  method BuildIndex(recipes: seq<Recipe>, ingredients: seq<IngredientRow>, hasEssentialColumn: bool, similarity: Similarity)
    returns (r: Option<Engine>)
    ensures r.None? <==> !HasVocabulary(Docs(ingredients, FirstOccurrences(recipes)))
    ensures recipes == [] ==> r.None?
    ensures r.Some? ==>
      && r.value.catalog == FirstOccurrences(recipes)
      && r.value.ingredients == ingredients
      && r.value.hasEssentialColumn == hasEssentialColumn
      && r.value.docs == Docs(ingredients, r.value.catalog)
      && IndexedInOrder(r.value.catalog, r.value.idToIndex, r.value.indexToId)
  {
    var catalog := FirstOccurrences(recipes);
    FirstOccurrencesSpec(recipes);
    var docs := BuildDocs(catalog, ingredients);
    assert docs == Docs(ingredients, catalog);
    if !HasVocabulary(docs) {
      return None;
    }
    var toIndex, toId := BuildIndexMaps(catalog);
    r := Some(Engine(catalog, ingredients, hasEssentialColumn, docs, toIndex, toId, similarity));
  }

  /** Joining words of at most one character never puts two of them side by side. */
  lemma {:induction false} JoinShortWords(words: seq<string>)
    requires forall k :: 0 <= k < |words| ==> |words[k]| <= 1
    ensures !HasToken(Join(words))
    decreases |words|
  {
    if |words| > 1 {
      var pre := words[..|words| - 1];
      var w := words[|words| - 1];
      JoinShortWords(pre);
      var j := Join(pre);
      var s := Join(words);
      assert s == j + " " + w;
      forall i | 0 <= i < |s| - 1 ensures !(IsWordChar(s[i]) && IsWordChar(s[i + 1])) {
        if i + 1 < |j| {
          assert s[i] == j[i] && s[i + 1] == j[i + 1];
        } else if i + 1 == |j| {
          assert s[i + 1] == ' ';
        } else {
          assert s[i] == ' ';
        }
      }
    }
  }

  /**
   * The fit fails when every ingredient name is present and at most one
   * character long; with no ingredient rows at all it fails too.
   */
  lemma ShortNamesNoVocabulary(ingredients: seq<IngredientRow>, catalog: seq<Recipe>)
    requires forall row :: row in ingredients ==> row.name.Some? && |row.name.value| <= 1
    ensures !HasVocabulary(Docs(ingredients, catalog))
  {
    forall k | 0 <= k < |catalog| ensures !HasToken(Docs(ingredients, catalog)[k]) {
      var rows := RowsOf(ingredients, catalog[k].id);
      assert forall m :: 0 <= m < |rows| ==> rows[m] in ingredients;
      JoinShortWords(Texts(rows));
    }
  }

  /**
   * The fit succeeds as soon as one recipe of the catalog has an ingredient
   * whose name starts with two word characters.
   */
  lemma TwoLetterNameGivesVocabulary(ingredients: seq<IngredientRow>, catalog: seq<Recipe>, k: nat, row: IngredientRow)
    requires k < |catalog| && row in ingredients && row.recipeId == catalog[k].id
    requires row.name.Some? && |row.name.value| >= 2 && IsWordChar(row.name.value[0]) && IsWordChar(row.name.value[1])
    ensures HasVocabulary(Docs(ingredients, catalog))
  {
    var rows := RowsOf(ingredients, catalog[k].id);
    assert row in rows;
    var m :| 0 <= m < |rows| && rows[m] == row;
    var texts := Texts(rows);
    assert texts[m] == row.name.value;
    JoinContainsWord(texts, m);
    var doc := Join(texts);
    var off :| OccursAt(doc, texts[m], off);
    assert doc[off] == doc[off..off + |texts[m]|][0] == texts[m][0];
    assert doc[off + 1] == doc[off..off + |texts[m]|][1] == texts[m][1];
    assert HasToken(doc);
    assert Docs(ingredients, catalog)[k] == doc;
  }

  /** One document per recipe, in catalog order. */
  method BuildDocs(catalog: seq<Recipe>, ingredients: seq<IngredientRow>) returns (docs: seq<string>)
    ensures docs == Docs(ingredients, catalog)
  {
    docs := [];
    var k := 0;
    while k < |catalog|
      invariant 0 <= k <= |catalog|
      invariant |docs| == k && forall m :: 0 <= m < k ==> docs[m] == Doc(ingredients, catalog[m].id)
    {
      docs := docs + [Doc(ingredients, catalog[k].id)];
      k := k + 1;
    }
  }

  /** `recipe_id_to_index` by enumeration, and `index_to_recipe_id` alongside it. */
  method BuildIndexMaps(catalog: seq<Recipe>) returns (toIndex: map<int, nat>, toId: map<nat, int>)
    requires forall i, j :: 0 <= i < j < |catalog| ==> catalog[i].id != catalog[j].id
    ensures IndexedInOrder(catalog, toIndex, toId)
  {
    ghost var ids := IdsOf(catalog);
    toIndex, toId := map[], map[];
    var k := 0;
    while k < |catalog|
      invariant 0 <= k <= |catalog|
      invariant forall id :: id in toIndex <==> id in ids[..k]
      invariant forall m :: 0 <= m < k ==> ids[m] == catalog[m].id && toIndex[catalog[m].id] == m
      invariant forall m: nat :: m in toId <==> m < k
      invariant forall m :: 0 <= m < k ==> toId[m] == catalog[m].id
    {
      var rid := catalog[k].id;
      toIndex := toIndex[rid := k];
      toId := toId[k := rid];
      assert ids[..k + 1] == ids[..k] + [rid];
      k := k + 1;
    }
    assert ids[..k] == ids;
  }

  /** The two maps are inverse to each other over the distinct ids. */
  lemma IndexMapsInverse(catalog: seq<Recipe>, idToIndex: map<int, nat>, indexToId: map<nat, int>)
    requires IndexedInOrder(catalog, idToIndex, indexToId)
    ensures forall id :: id in idToIndex ==> idToIndex[id] in indexToId && indexToId[idToIndex[id]] == id
    ensures forall k :: k in indexToId ==> indexToId[k] in idToIndex && idToIndex[indexToId[k]] == k
  {
    forall id | id in idToIndex ensures idToIndex[id] in indexToId && indexToId[idToIndex[id]] == id {
      var m :| 0 <= m < |catalog| && IdsOf(catalog)[m] == id;
      assert idToIndex[catalog[m].id] == m;
    }
    forall k | k in indexToId ensures indexToId[k] in idToIndex && idToIndex[indexToId[k]] == k {
      assert IdsOf(catalog)[k] == catalog[k].id;
    }
  }
}
