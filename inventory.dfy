/**
 * The client-side rules of InventoryManagement.jsx: the stock status badge,
 * the category rules for the add-stock form, the validation and mass-unit
 * normalisation that addStock performs before inserting a stock batch, the
 * merge of stock levels with ingredient rows, and the grouping and ordering
 * of the stock cards by category.
 */
module Inventory {
  import opened Common

  // ---------------------------------------------------------------------
  // Rows read from the backend

  /** An ingredients row joined with its category (null when it has none). */
  datatype Ingredient = Ingredient(ingredientId: int, categoryId: Option<int>, categoryName: Option<string>)

  /** A row of the current_stock_levels view, with the columns these rules read. */
  datatype StockLevel = StockLevel(ingredientId: int, ingredientName: string, unit: string, totalStock: real)

  /** A stock level merged with its ingredient row, or with none: `{ ...stock, ingredients: ingredient }`. */
  datatype StockRow = StockRow(level: StockLevel, ingredient: Option<Ingredient>)

  // ---------------------------------------------------------------------
  // getStockStatus

  datatype StockStatus = OutOfStock | LowStock | InStock

  /** The badge of a stock card: out at exactly zero, low below five (negatives included), in stock otherwise. */
  function GetStockStatus(totalStock: real): (r: StockStatus)
    ensures r == OutOfStock <==> totalStock == 0.0
    ensures r == LowStock <==> totalStock != 0.0 && totalStock < 5.0
    ensures r == InStock <==> totalStock >= 5.0
  {
    if totalStock == 0.0 then OutOfStock
    else if totalStock < 5.0 then LowStock
    else InStock
  }

  // ---------------------------------------------------------------------
  // Category rules

  /** The categories that are bought by weight, with no container. */
  const PerKgCategories: seq<string> := ["Meats", "Vegetables", "Seafood"]

  /** The categories whose entries are labelled with mass wording. */
  const MassCategories: seq<string> := ["Meats", "Vegetables", "Staples", "Seafood"]

  /** needsContainerType: every category except Meats, Vegetables and Seafood. */
  function NeedsContainerType(category: string): (r: bool)
    ensures r <==> category != "Meats" && category != "Vegetables" && category != "Seafood"
  {
    category !in PerKgCategories
  }

  /** usesMassTerminology: exactly Meats, Vegetables, Staples and Seafood. */
  function UsesMassTerminology(category: string): (r: bool)
    ensures r <==> category == "Meats" || category == "Vegetables" || category == "Staples" || category == "Seafood"
  {
    category in MassCategories
  }

  /**
   * Every per-kg category is shown with mass wording, and Staples is the one
   * category that asks for a container yet is shown with mass wording.
   */
  lemma StaplesIsTheOnlyMixedCategory(category: string)
    ensures !NeedsContainerType(category) ==> UsesMassTerminology(category)
    ensures NeedsContainerType(category) && UsesMassTerminology(category) <==> category == "Staples"
  {
  }

  /** `ingredients.find(ing => ing.ingredient_id === id)`: the first row with this id, if any. */
  function FindIngredient(ingredients: seq<Ingredient>, id: int): (r: Option<Ingredient>)
    ensures r.None? <==> forall i :: 0 <= i < |ingredients| ==> ingredients[i].ingredientId != id
    ensures r.Some? ==>
      exists k :: (0 <= k < |ingredients| && ingredients[k] == r.value && ingredients[k].ingredientId == id &&
                   forall j :: 0 <= j < k ==> ingredients[j].ingredientId != id)
  {
    if ingredients == [] then None
    else if ingredients[0].ingredientId == id then Some(ingredients[0])
    else
      var r := FindIngredient(ingredients[1..], id);
      if r.Some? then
        var k :| 0 <= k < |ingredients[1..]| && ingredients[1..][k] == r.value &&
          ingredients[1..][k].ingredientId == id && forall j :: 0 <= j < k ==> ingredients[1..][j].ingredientId != id;
        assert ingredients[k + 1] == r.value;
        assert forall j :: 0 <= j < k + 1 ==> ingredients[j].ingredientId != id by {
          forall j | 0 <= j < k + 1 ensures ingredients[j].ingredientId != id {
            if j > 0 { assert ingredients[j] == ingredients[1..][j - 1]; }
          }
        }
        r
      else
        assert forall i :: 0 <= i < |ingredients| ==> ingredients[i].ingredientId != id by {
          forall i | 0 <= i < |ingredients| ensures ingredients[i].ingredientId != id {
            if i > 0 { assert ingredients[i] == ingredients[1..][i - 1]; }
          }
        }
        r
  }

  /**
   * `ingredient?.categories?.category_name || fallback`: the category name of
   * a possibly missing ingredient, with an empty name treated as missing.
   */
  function CategoryNameOr(ingredient: Option<Ingredient>, fallback: string): (r: string)
    ensures r == fallback || (ingredient.Some? && ingredient.value.categoryName == Some(r) && r != "")
    ensures ingredient.Some? && ingredient.value.categoryName.Some? && ingredient.value.categoryName.value != "" ==>
      r == ingredient.value.categoryName.value
  {
    match ingredient
    case None => fallback
    case Some(ing) =>
      match ing.categoryName
      case None => fallback
      case Some(name) => if name == "" then fallback else name
  }

  /** getSelectedCategory: the category of the ingredient chosen in the form, or "". */
  function SelectedCategory(ingredients: seq<Ingredient>, ingredientId: int): (r: string)
    ensures FindIngredient(ingredients, ingredientId).None? ==> r == ""
    ensures FindIngredient(ingredients, ingredientId).Some? ==>
      var ing := FindIngredient(ingredients, ingredientId).value;
      r == if ing.categoryName.Some? then ing.categoryName.value else ""
  {
    CategoryNameOr(FindIngredient(ingredients, ingredientId), "")
  }

  /** An ingredient that is not in the list has category "", so it needs a container type. */
  lemma UnknownIngredientNeedsContainer(ingredients: seq<Ingredient>, ingredientId: int)
    requires forall i :: 0 <= i < |ingredients| ==> ingredients[i].ingredientId != ingredientId
    ensures SelectedCategory(ingredients, ingredientId) == ""
    ensures NeedsContainerType(SelectedCategory(ingredients, ingredientId))
  {
  }

  // ---------------------------------------------------------------------
  // fetchStockLevels: the merge

  /** mergedData: each stock level, in order, paired with the first ingredient row of the same id. */
  function MergeStock(stock: seq<StockLevel>, ingredients: seq<Ingredient>): (r: seq<StockRow>)
    ensures |r| == |stock|
    ensures forall i :: 0 <= i < |r| ==> r[i].level == stock[i]
    ensures forall i :: 0 <= i < |r| ==> r[i].ingredient == FindIngredient(ingredients, stock[i].ingredientId)
    ensures forall i :: 0 <= i < |r| && r[i].ingredient.Some? ==>
      r[i].ingredient.value.ingredientId == r[i].level.ingredientId && r[i].ingredient.value in ingredients
  {
    seq(|stock|, i requires 0 <= i < |stock| => StockRow(stock[i], FindIngredient(ingredients, stock[i].ingredientId)))
  }

  // ---------------------------------------------------------------------
  // addStock

  /** The gram / kilogram switch of the per-kg form. */
  datatype MassUnit = Kg | G

  /** The add-stock form fields, as the strings the inputs hold. */
  datatype StockForm = StockForm(
    ingredientId: string,
    containerType: string,
    quantityContainers: string,
    containerSize: string,
    containerPrice: string,
    supplier: string,
    purchaseDate: string)

  /**
   * The numbers addStock parses out of the form: parseInt of the ingredient
   * id, parseInt and parseFloat of the quantity, parseFloat of the size and
   * of the price.
   */
  datatype ParsedForm = ParsedForm(
    ingredientId: int,
    quantityInt: int,
    quantity: real,
    containerSize: real,
    containerPrice: real)

  /** The stock_ingredients row addStock inserts. */
  datatype StockInsert = StockInsert(
    ingredientId: int,
    containerType: string,
    quantityContainers: real,
    containerSize: real,
    containerPrice: real,
    supplier: string,
    purchaseDate: string)

  /** The two alerts that stop addStock before the insert. */
  datatype AddStockError = MissingRequiredFields | MissingContainerDetails

  /** The form lacks an ingredient, a quantity or a price. */
  predicate MissingRequired(form: StockForm)
  {
    form.ingredientId == "" || form.quantityContainers == "" || form.containerPrice == ""
  }

  /**
   * addStock up to the insert: validates the form, then fills the four
   * row values branch by branch. `ingredients` is the list the category is
   * looked up in. Grams become one container of q/1000 kg priced at the
   * per-kg price times that weight; kilograms become q containers of 1 kg
   * at the per-kg price.
   */
  method AddStock(form: StockForm, parsed: ParsedForm, ingredients: seq<Ingredient>, massUnit: MassUnit)
    returns (r: Result<StockInsert, AddStockError>)
    ensures r == Failure(MissingRequiredFields) <==> MissingRequired(form)
    ensures r == Failure(MissingContainerDetails) <==>
      !MissingRequired(form) && NeedsContainerType(SelectedCategory(ingredients, parsed.ingredientId)) &&
      (form.containerType == "" || form.containerSize == "")
    ensures r.Success? ==>
      r.value.ingredientId == parsed.ingredientId &&
      r.value.supplier == form.supplier && r.value.purchaseDate == form.purchaseDate
    ensures r.Success? && NeedsContainerType(SelectedCategory(ingredients, parsed.ingredientId)) ==>
      r.value.containerType == form.containerType && r.value.containerSize == parsed.containerSize &&
      r.value.containerPrice == parsed.containerPrice && r.value.quantityContainers == parsed.quantityInt as real
    ensures r.Success? && !NeedsContainerType(SelectedCategory(ingredients, parsed.ingredientId)) && massUnit == G ==>
      r.value.containerType == "kg" && r.value.quantityContainers == 1.0 &&
      r.value.containerSize == parsed.quantity / 1000.0 &&
      r.value.containerPrice == parsed.containerPrice * (parsed.quantity / 1000.0) &&
      r.value.quantityContainers * r.value.containerSize == parsed.quantity / 1000.0
    ensures r.Success? && !NeedsContainerType(SelectedCategory(ingredients, parsed.ingredientId)) && massUnit == Kg ==>
      r.value.containerType == "kg" && r.value.containerSize == 1.0 &&
      r.value.quantityContainers == parsed.quantity && r.value.containerPrice == parsed.containerPrice &&
      r.value.quantityContainers * r.value.containerSize == parsed.quantity &&
      r.value.quantityContainers * r.value.containerPrice == parsed.quantity * parsed.containerPrice
  {
    var requiresContainer := NeedsContainerType(SelectedCategory(ingredients, parsed.ingredientId));

    if MissingRequired(form) {
      return Failure(MissingRequiredFields);
    }
    if requiresContainer && (form.containerType == "" || form.containerSize == "") {
      return Failure(MissingContainerDetails);
    }

    var containerType: string, containerSize: real, containerPrice: real, quantityContainers: real;
    if requiresContainer {
      containerType := form.containerType;
      containerSize := parsed.containerSize;
      containerPrice := parsed.containerPrice;
      quantityContainers := parsed.quantityInt as real;
    } else {
      containerType := "kg";
      if massUnit == G {
        var kgAmount := parsed.quantity / 1000.0;
        quantityContainers := 1.0;
        containerSize := kgAmount;
        containerPrice := parsed.containerPrice * kgAmount;
      } else {
        quantityContainers := parsed.quantity;
        containerSize := 1.0;
        containerPrice := parsed.containerPrice;
      }
    }
    r := Success(StockInsert(parsed.ingredientId, containerType, quantityContainers, containerSize,
                             containerPrice, form.supplier, form.purchaseDate));
  }

  // ---------------------------------------------------------------------
  // groupStockByCategory

  const Uncategorized: string := "Uncategorized"

  /** The group a stock card falls into. */
  function CategoryKey(row: StockRow): (r: string)
    ensures r != ""
    ensures (row.ingredient.Some? && row.ingredient.value.categoryName.Some? &&
             row.ingredient.value.categoryName.value != "") ==> r == row.ingredient.value.categoryName.value
    ensures r == Uncategorized || (row.ingredient.Some? && row.ingredient.value.categoryName == Some(r))
  {
    CategoryNameOr(row.ingredient, Uncategorized)
  }

  /** The rows of one category, in input order (the specification of one group). */
  function RowsOfCategory(rows: seq<StockRow>, category: string): (r: seq<StockRow>)
    ensures forall x :: x in r <==> x in rows && CategoryKey(x) == category
    ensures r == [] <==> category !in CategoriesOf(rows)
    ensures |r| <= |rows|
  {
    if rows == [] then []
    else
      var last := rows[|rows| - 1];
      var init := RowsOfCategory(rows[..|rows| - 1], category);
      assert rows == rows[..|rows| - 1] + [last];
      if CategoryKey(last) == category then init + [last] else init
  }

  /** The category names that occur among the rows. */
  function CategoriesOf(rows: seq<StockRow>): set<string>
  {
    set x | x in rows :: CategoryKey(x)
  }

  /**
   * groupStockByCategory: one pass over the merged stock rows, appending each
   * to the list of its category (created on first use). Afterwards the keys
   * are exactly the categories that occur, and each group holds that
   * category's rows in input order.
   */
  method GroupStockByCategory(stockLevels: seq<StockRow>) returns (grouped: map<string, seq<StockRow>>)
    ensures grouped.Keys == CategoriesOf(stockLevels)
    ensures forall k :: k in grouped ==> grouped[k] == RowsOfCategory(stockLevels, k)
    ensures forall k :: k in grouped ==> grouped[k] != []
    ensures forall i, k :: 0 <= i < |stockLevels| && k in grouped ==>
      (stockLevels[i] in grouped[k] <==> k == CategoryKey(stockLevels[i]))
  {
    grouped := map[];
    for i := 0 to |stockLevels|
      invariant grouped.Keys == CategoriesOf(stockLevels[..i])
      invariant forall k :: k in grouped ==> grouped[k] == RowsOfCategory(stockLevels[..i], k)
    {
      var stock := stockLevels[i];
      var categoryName := CategoryKey(stock);
      ghost var prefix, next := stockLevels[..i], stockLevels[..i + 1];
      assert next[..i] == prefix && next[i] == stock;
      assert CategoriesOf(next) == CategoriesOf(prefix) + {categoryName} by {
        assert next == prefix + [stock];
      }
      if categoryName !in grouped {
        assert RowsOfCategory(prefix, categoryName) == [];
        grouped := grouped[categoryName := []];
      }
      grouped := grouped[categoryName := grouped[categoryName] + [stock]];
    }
    assert stockLevels[..|stockLevels|] == stockLevels;
  }

  /** The rows of a category split over concatenation: a group keeps the input order. */
  lemma {:induction false} RowsOfCategoryDistributes(a: seq<StockRow>, b: seq<StockRow>, category: string)
    ensures RowsOfCategory(a + b, category) == RowsOfCategory(a, category) + RowsOfCategory(b, category)
  {
    if b == [] {
      assert a + b == a;
    } else {
      var n := |b| - 1;
      assert (a + b)[..|a + b| - 1] == a + b[..n];
      assert (a + b)[|a + b| - 1] == b[n];
      RowsOfCategoryDistributes(a, b[..n], category);
    }
  }

  /** `ks` lists each of its names once. */
  ghost predicate DistinctNames(ks: seq<string>)
  {
    forall i, j :: 0 <= i < j < |ks| ==> ks[i] != ks[j]
  }

  /** The sizes of the groups named in `ks`, added up. */
  function GroupSizes(grouped: map<string, seq<StockRow>>, ks: seq<string>): nat
    requires forall k :: k in ks ==> k in grouped
  {
    if ks == [] then 0 else |grouped[ks[0]]| + GroupSizes(grouped, ks[1..])
  }

  /** How many times `x` occurs in `ks`. */
  function Occurrences(ks: seq<string>, x: string): nat
  {
    if ks == [] then 0 else (if ks[0] == x then 1 else 0) + Occurrences(ks[1..], x)
  }

  lemma {:induction false} OccursOnce(ks: seq<string>, x: string)
    requires DistinctNames(ks) && x in ks
    ensures Occurrences(ks, x) == 1
  {
    assert DistinctNames(ks[1..]) by {
      forall i, j | 0 <= i < j < |ks[1..]| ensures ks[1..][i] != ks[1..][j] {
        assert ks[1..][i] == ks[i + 1] && ks[1..][j] == ks[j + 1];
      }
    }
    if ks[0] == x {
      assert x !in ks[1..] by {
        forall i | 0 <= i < |ks[1..]| ensures ks[1..][i] != x { assert ks[1..][i] == ks[i + 1]; }
      }
      OccursNot(ks[1..], x);
    } else {
      OccursOnce(ks[1..], x);
    }
  }

  lemma {:induction false} OccursNot(ks: seq<string>, x: string)
    requires x !in ks
    ensures Occurrences(ks, x) == 0
  {
    if ks != [] {
      assert ks[0] != x;
      OccursNot(ks[1..], x);
    }
  }

  /** Group sizes over `ks` for the rows of `rows`, as the grouping specifies them. */
  function CategorySizes(rows: seq<StockRow>, ks: seq<string>): nat
  {
    if ks == [] then 0 else |RowsOfCategory(rows, ks[0])| + CategorySizes(rows, ks[1..])
  }

  /** One more row adds one to exactly the groups named by its category. */
  lemma {:induction false} CategorySizesStep(rows: seq<StockRow>, x: StockRow, ks: seq<string>)
    ensures CategorySizes(rows + [x], ks) == CategorySizes(rows, ks) + Occurrences(ks, CategoryKey(x))
  {
    if ks != [] {
      var r := rows + [x];
      assert r[..|r| - 1] == rows && r[|r| - 1] == x;
      CategorySizesStep(rows, x, ks[1..]);
    }
  }

  /** Over a list naming every category once, the group sizes add up to the number of rows. */
  lemma {:induction false} CategorySizesCover(rows: seq<StockRow>, ks: seq<string>)
    requires DistinctNames(ks)
    requires forall x :: x in rows ==> CategoryKey(x) in ks
    ensures CategorySizes(rows, ks) == |rows|
  {
    if rows == [] {
      CategorySizesEmpty(ks);
    } else {
      var init, last := rows[..|rows| - 1], rows[|rows| - 1];
      assert rows == init + [last];
      CategorySizesCover(init, ks);
      CategorySizesStep(init, last, ks);
      OccursOnce(ks, CategoryKey(last));
    }
  }

  lemma {:induction false} CategorySizesEmpty(ks: seq<string>)
    ensures CategorySizes([], ks) == 0
  {
    if ks != [] { CategorySizesEmpty(ks[1..]); }
  }

  /**
   * Every stock row lands in exactly one group: for a map built as
   * groupStockByCategory builds it, the group sizes over all its keys add
   * up to the number of input rows.
   */
  lemma GroupSizesSumToRows(rows: seq<StockRow>, grouped: map<string, seq<StockRow>>, ks: seq<string>)
    requires grouped.Keys == CategoriesOf(rows)
    requires forall k :: k in grouped ==> grouped[k] == RowsOfCategory(rows, k)
    requires DistinctNames(ks) && (forall k :: k in ks <==> k in grouped)
    ensures GroupSizes(grouped, ks) == |rows|
  {
    GroupSizesMatch(rows, grouped, ks);
    CategorySizesCover(rows, ks);
  }

  lemma {:induction false} GroupSizesMatch(rows: seq<StockRow>, grouped: map<string, seq<StockRow>>, ks: seq<string>)
    requires forall k :: k in ks ==> k in grouped && grouped[k] == RowsOfCategory(rows, k)
    ensures GroupSizes(grouped, ks) == CategorySizes(rows, ks)
  {
    if ks != [] { GroupSizesMatch(rows, grouped, ks[1..]); }
  }

  // ---------------------------------------------------------------------
  // categoryOrder / orderedCategories

  /** The fixed display order of the category sections. */
  const CategoryOrder: seq<string> :=
    ["Meats", "Vegetables", "Condiments", "Spices", "Liquids", "Staples", "Seafood", "Dairy"]

  /** `cats.filter(cat => grouped[cat])`: the names of `cats` that have a group, in the order of `cats`. */
  function PresentCategories(cats: seq<string>, grouped: map<string, seq<StockRow>>): (r: seq<string>)
    ensures forall c :: c in r <==> c in cats && c in grouped
    ensures |r| <= |cats|
  {
    if cats == [] then []
    else
      var rest := PresentCategories(cats[1..], grouped);
      assert forall c :: c in cats[1..] ==> c in cats;
      if cats[0] in grouped then [cats[0]] + rest else rest
  }

  /** The position of the first occurrence of `x` in `s`. */
  function IndexOf(s: seq<string>, x: string): (n: nat)
    requires x in s
    ensures n < |s| && s[n] == x
    ensures forall j :: 0 <= j < n ==> s[j] != x
  {
    if s[0] == x then 0 else 1 + IndexOf(s[1..], x)
  }

  /** A list without repeats: its head is not in its tail, and its tail has no repeats. */
  lemma DistinctTail(cats: seq<string>)
    requires DistinctNames(cats) && cats != []
    ensures cats[0] !in cats[1..]
    ensures DistinctNames(cats[1..])
  {
  }

  /** Below the head, positions shift by one. */
  lemma IndexOfTail(cats: seq<string>, x: string)
    requires cats != [] && x in cats[1..] && x != cats[0]
    ensures IndexOf(cats, x) == 1 + IndexOf(cats[1..], x)
  {
  }

  /** The names of `r` appear in `cats` at increasing positions. */
  ghost predicate InOrderOf(r: seq<string>, cats: seq<string>)
    requires forall c :: c in r ==> c in cats
  {
    forall i, j :: 0 <= i < j < |r| ==> IndexOf(cats, r[i]) < IndexOf(cats, r[j])
  }

  /** The filter keeps the order of a list without repeats: its names appear at increasing positions. */
  lemma {:induction false} PresentCategoriesInOrder(cats: seq<string>, grouped: map<string, seq<StockRow>>)
    requires DistinctNames(cats)
    ensures InOrderOf(PresentCategories(cats, grouped), cats)
  {
    if cats != [] {
      var tail := cats[1..];
      DistinctTail(cats);
      PresentCategoriesInOrder(tail, grouped);
      var rest := PresentCategories(tail, grouped);
      var r := PresentCategories(cats, grouped);
      assert r == if cats[0] in grouped then [cats[0]] + rest else rest;
      forall i, j | 0 <= i < j < |r| ensures IndexOf(cats, r[i]) < IndexOf(cats, r[j]) {
        var i', j' := if cats[0] in grouped then i - 1 else i, if cats[0] in grouped then j - 1 else j;
        assert r[j] == rest[j'] && r[j] in tail;
        IndexOfTail(cats, r[j]);
        if i' >= 0 {
          assert r[i] == rest[i'] && r[i] in tail;
          IndexOfTail(cats, r[i]);
          assert IndexOf(tail, rest[i']) < IndexOf(tail, rest[j']);
        }
      }
    }
  }

  /**
   * orderedCategories: exactly the names of the fixed order that have a
   * group, in that order; any other group, "Uncategorized" included, is
   * never shown.
   */
  function OrderedCategories(grouped: map<string, seq<StockRow>>): (r: seq<string>)
    ensures forall c :: c in r <==> c in CategoryOrder && c in grouped
    ensures Uncategorized !in r
    ensures InOrderOf(r, CategoryOrder)
  {
    assert DistinctNames(CategoryOrder);
    PresentCategoriesInOrder(CategoryOrder, grouped);
    PresentCategories(CategoryOrder, grouped)
  }
}
