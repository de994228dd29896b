/**
 * The numeric part of the wardrobe analysis: an age-based recommendation per clothing
 * category, the kid's current count per category, and a shopping list of what is missing.
 */
module Wardrobe {
  import opened Profiles

  /** The thirteen `current…` counts of a profile, already read as whole numbers. */
  datatype Inventory = Inventory(
    tshirts: int, longsleeve: int, tanks: int, blouses: int,
    jeans: int, leggings: int, sweatpants: int, shorts: int, skirts: int,
    casualDresses: int, fancyDresses: int,
    sweaters: int, hoodies: int)

  /** The three age groups: Toddler/Preschool, Elementary, Middle/High School. */
  datatype AgeGroup = ToddlerPreschool | Elementary | MiddleHighSchool

  datatype Recommendation = Recommendation(tops: nat, bottoms: nat, dresses: nat, layers: nat, ageGroup: AgeGroup)

  /** The recommended counts for an age: up to 5, up to 10, and above. */
  function RecommendationFor(age: int): Recommendation
  {
    if age <= 5 then Recommendation(8, 6, 3, 4, ToddlerPreschool)
    else if age <= 10 then Recommendation(9, 7, 4, 5, Elementary)
    else Recommendation(12, 8, 6, 7, MiddleHighSchool)
  }

  /** The four categories, reported in this order. */
  datatype Category = Tops | Bottoms | Dresses | Layers

  const Categories: seq<Category> := [Tops, Bottoms, Dresses, Layers]

  /** How many pieces of a category the kid has: the sum of the category's counts. */
  function Current(inv: Inventory, c: Category): int
  {
    match c
    case Tops => inv.tshirts + inv.longsleeve + inv.tanks + inv.blouses
    case Bottoms => inv.jeans + inv.leggings + inv.sweatpants + inv.shorts + inv.skirts
    case Dresses => inv.casualDresses + inv.fancyDresses
    case Layers => inv.sweaters + inv.hoodies
  }

  function Recommended(rec: Recommendation, c: Category): nat
  {
    match c
    case Tops => rec.tops
    case Bottoms => rec.bottoms
    case Dresses => rec.dresses
    case Layers => rec.layers
  }

  /** One line of the analysis: a category with its current and recommended counts. */
  datatype Report = Report(category: Category, current: int, recommended: int)

  /** A category is reported good when it has at least the recommended count. */
  predicate Good(r: Report)
  {
    r.current >= r.recommended
  }

  /** One line of the shopping list: how many more of a category to get. */
  datatype Purchase = Purchase(category: Category, needed: int)

  /** The analysis lines of an inventory for an age, one per category in order. */
  function Reports(inv: Inventory, age: int): seq<Report>
  {
    var rec := RecommendationFor(age);
    seq(|Categories|, i requires 0 <= i < |Categories| =>
      Report(Categories[i], Current(inv, Categories[i]), Recommended(rec, Categories[i])))
  }

  /** The categories short of their recommendation, each with the difference, in report order. */
  function ShoppingList(reports: seq<Report>): seq<Purchase>
  {
    if reports == [] then []
    else
      var r := reports[|reports| - 1];
      ShoppingList(reports[..|reports| - 1])
        + (if Good(r) then [] else [Purchase(r.category, r.recommended - r.current)])
  }

  /** `analyzeWardrobe`: the age group, the analysis lines and the shopping list. */
  function AnalyzeWardrobe(inv: Inventory, age: int): (AgeGroup, seq<Report>, seq<Purchase>)
  {
    var reports := Reports(inv, age);
    (RecommendationFor(age).ageGroup, reports, ShoppingList(reports))
  }

  // ---------------------------------------------------------------------------
  // Lemmas

  /**
   * The shopping list holds exactly one line per category short of its recommendation,
   * asking for the missing amount; no good category appears.
   */
  lemma {:induction false} ShoppingListExact(reports: seq<Report>, p: Purchase)
    ensures p in ShoppingList(reports) <==>
      exists r :: r in reports && !Good(r) && p == Purchase(r.category, r.recommended - r.current)
  {
    if reports != [] {
      var init, last := reports[..|reports| - 1], reports[|reports| - 1];
      assert reports == init + [last];
      ShoppingListExact(init, p);
      if exists r :: r in reports && !Good(r) && p == Purchase(r.category, r.recommended - r.current) {
        var r :| r in reports && !Good(r) && p == Purchase(r.category, r.recommended - r.current);
        if r != last {
          assert r in init;
        }
      }
    }
  }

  /** Every line of the shopping list asks for a positive amount that tops its category up exactly. */
  lemma ShoppingListNeedsPositive(reports: seq<Report>, p: Purchase)
    requires p in ShoppingList(reports)
    ensures p.needed > 0
    ensures exists r :: r in reports && r.category == p.category && r.current + p.needed == r.recommended
  {
    ShoppingListExact(reports, p);
  }

  /** The list is empty, and the wardrobe is called well balanced, exactly when every category is good. */
  lemma {:induction false} ShoppingListEmpty(reports: seq<Report>)
    ensures ShoppingList(reports) == [] <==> forall r :: r in reports ==> Good(r)
  {
    if reports != [] {
      var init, last := reports[..|reports| - 1], reports[|reports| - 1];
      assert reports == init + [last];
      ShoppingListEmpty(init);
    }
  }

  /**
   * `analyzeWardrobe` read from the inventory and the age: the shopping list holds a line
   * exactly for each category with fewer pieces than recommended, asking for the difference.
   */
  lemma AnalyzeWardrobeShoppingList(inv: Inventory, age: int, p: Purchase)
    ensures var rec := RecommendationFor(age);
      p in AnalyzeWardrobe(inv, age).2 <==>
        exists c | c in Categories ::
          Current(inv, c) < Recommended(rec, c) && p == Purchase(c, Recommended(rec, c) - Current(inv, c))
  {
    var rec := RecommendationFor(age);
    var reports := Reports(inv, age);
    ShoppingListExact(reports, p);
    if p in AnalyzeWardrobe(inv, age).2 {
      var r :| r in reports && !Good(r) && p == Purchase(r.category, r.recommended - r.current);
      var i :| 0 <= i < |reports| && reports[i] == r;
      assert Categories[i] in Categories;
    }
    if exists c | c in Categories ::
         Current(inv, c) < Recommended(rec, c) && p == Purchase(c, Recommended(rec, c) - Current(inv, c)) {
      var c :| c in Categories &&
        Current(inv, c) < Recommended(rec, c) && p == Purchase(c, Recommended(rec, c) - Current(inv, c));
      var i :| 0 <= i < |Categories| && Categories[i] == c;
      assert reports[i] in reports;
    }
  }

  /** The wardrobe is called well balanced exactly when no category is below its recommendation. */
  lemma AnalyzeWardrobeBalanced(inv: Inventory, age: int)
    ensures var rec := RecommendationFor(age);
      AnalyzeWardrobe(inv, age).2 == [] <==> forall c | c in Categories :: Current(inv, c) >= Recommended(rec, c)
  {
    var rec := RecommendationFor(age);
    var reports := Reports(inv, age);
    ShoppingListEmpty(reports);
    if forall c | c in Categories :: Current(inv, c) >= Recommended(rec, c) {
      forall r | r in reports
        ensures Good(r)
      {
        var i :| 0 <= i < |reports| && reports[i] == r;
        assert Categories[i] in Categories;
      }
    }
    if forall r | r in reports :: Good(r) {
      forall c | c in Categories
        ensures Current(inv, c) >= Recommended(rec, c)
      {
        var i :| 0 <= i < |Categories| && Categories[i] == c;
        assert reports[i] in reports;
      }
    }
  }

  /** An older kid is never recommended fewer pieces of any category. */
  lemma RecommendationMonotone(a: int, b: int, c: Category)
    requires a <= b
    ensures Recommended(RecommendationFor(a), c) <= Recommended(RecommendationFor(b), c)
  {
  }

  /**
   * The age groups use the avatar's first two bands: Toddler/Preschool is the baby
   * avatar, Elementary the child avatar, and Middle/High School the two older ones.
   */
  lemma AgeGroupMatchesAvatar(age: int)
    ensures RecommendationFor(age).ageGroup == ToddlerPreschool <==> KidAvatar(age) == Baby
    ensures RecommendationFor(age).ageGroup == Elementary <==> KidAvatar(age) == Child
    ensures RecommendationFor(age).ageGroup == MiddleHighSchool <==> KidAvatar(age) in {Teen, Grown}
  {
  }

  /** A wardrobe with nothing in it needs the full recommendation of every category. */
  lemma EmptyWardrobeNeedsEverything(age: int)
    ensures var rec := RecommendationFor(age);
      ShoppingList(Reports(Inventory(0, 0, 0, 0, 0, 0, 0, 0, 0, 0, 0, 0, 0), age)) ==
        [Purchase(Tops, rec.tops), Purchase(Bottoms, rec.bottoms),
         Purchase(Dresses, rec.dresses), Purchase(Layers, rec.layers)]
  {
    var reports := Reports(Inventory(0, 0, 0, 0, 0, 0, 0, 0, 0, 0, 0, 0, 0), age);
    var rec := RecommendationFor(age);
    assert reports[..1][..0] == [];
    assert ShoppingList(reports[..1]) == [Purchase(Tops, rec.tops)];
    assert reports[..2][..1] == reports[..1];
    assert ShoppingList(reports[..2]) == [Purchase(Tops, rec.tops), Purchase(Bottoms, rec.bottoms)];
    assert reports[..3][..2] == reports[..2];
    assert ShoppingList(reports[..3]) ==
      [Purchase(Tops, rec.tops), Purchase(Bottoms, rec.bottoms), Purchase(Dresses, rec.dresses)];
    assert reports[..3] == reports[..|reports| - 1];
  }
}
