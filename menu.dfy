/**
 * The canteen menu page: a fixed catalog, a category filter chosen by a
 * row of buttons, and an "Add to Cart" button that only raises a toast.
 */
module Menu {
  import opened Toasts

  datatype MenuItem = MenuItem(name: string, price: int, image: string, description: string, category: string)

  /** The catalog, in display order. */
  const MenuItems: seq<MenuItem> := [
    MenuItem("Idli Sambar", 40,
      "https://upload.wikimedia.org/wikipedia/commons/6/60/Idli_Sambar.JPG",
      "Soft idlis served with hot sambar and chutney", "Breakfast"),
    MenuItem("Masala Dosa", 60,
      "https://upload.wikimedia.org/wikipedia/commons/7/7b/Dosa_with_chutney_and_sambar.JPG",
      "Golden crispy dosa stuffed with spicy potato masala", "Breakfast"),
    MenuItem("Veg Fried Rice", 80,
      "https://upload.wikimedia.org/wikipedia/commons/e/e4/Vegfriedrice.jpg",
      "Fried rice with fresh vegetables and soy sauce", "Lunch"),
    MenuItem("Chicken Biryani", 120,
      "https://upload.wikimedia.org/wikipedia/commons/6/6b/Chicken_Biryani.jpg",
      "Delicious biryani cooked with tender chicken and spices", "Lunch"),
    MenuItem("Filter Coffee", 25,
      "https://upload.wikimedia.org/wikipedia/commons/6/6b/Filter_coffee.jpg",
      "Authentic South Indian filter coffee", "Beverages"),
    MenuItem("Lemon Juice", 20,
      "https://upload.wikimedia.org/wikipedia/commons/6/6c/Lemonade.jpg",
      "Refreshing lemon drink with a pinch of salt", "Beverages"),
    MenuItem("Paneer Butter Masala", 110,
      "https://upload.wikimedia.org/wikipedia/commons/9/9c/Paneer_butter_masala.jpg",
      "Rich and creamy paneer curry with butter and spices", "Dinner"),
    MenuItem("Chicken Curry", 130,
      "https://upload.wikimedia.org/wikipedia/commons/6/6c/Indian_Chicken_Curry.jpg",
      "Tender chicken cooked in aromatic curry sauce", "Dinner"),
    MenuItem("Roti with Dal", 70,
      "https://upload.wikimedia.org/wikipedia/commons/8/8f/Dal_Roti.jpg",
      "Soft rotis served with flavorful dal tadka", "Dinner"),
    MenuItem("Fish Fry", 150,
      "https://upload.wikimedia.org/wikipedia/commons/9/9e/Fish_fry_1.jpg",
      "Crispy fried fish with spicy masala coating", "Dinner")
  ]

  /** The filter value that shows the whole catalog. */
  const All := "All"

  /** The filter buttons, in display order. */
  const Categories: seq<string> := [All, "Breakfast", "Lunch", "Dinner", "Beverages"]

  /** The number of items of category `c`. */
  function CountIn(items: seq<MenuItem>, c: string): (n: nat)
    ensures n <= |items|
  {
    if items == [] then 0
    else (if items[0].category == c then 1 else 0) + CountIn(items[1..], c)
  }

  /** `xs` is `ys` with some elements left out, the rest in their order. */
  predicate IsSubsequence<T(==)>(xs: seq<T>, ys: seq<T>)
    decreases |ys|
  {
    if xs == [] then true
    else if ys == [] then false
    else if xs[0] == ys[0] then IsSubsequence(xs[1..], ys[1..])
    else IsSubsequence(xs, ys[1..])
  }

  /** `items.filter(item => item.category === c)`. */
  function FilterCategory(items: seq<MenuItem>, c: string): (r: seq<MenuItem>)
    ensures forall i :: 0 <= i < |r| ==> r[i].category == c
    ensures |r| == CountIn(items, c)
    ensures IsSubsequence(r, items)
  {
    if items == [] then []
    else if items[0].category == c then [items[0]] + FilterCategory(items[1..], c)
    else FilterCategory(items[1..], c)
  }

  /** An item is kept by the filter exactly when it is in the list and has the category. */
  lemma {:induction false} FilterCategoryMembers(items: seq<MenuItem>, c: string)
    ensures forall x :: x in FilterCategory(items, c) <==> x in items && x.category == c
  {
    if items != [] {
      FilterCategoryMembers(items[1..], c);
      assert forall x :: x in items <==> x == items[0] || x in items[1..];
    }
  }

  /** The cards rendered for the selected filter value. */
  function VisibleItems(catalog: seq<MenuItem>, selected: string): (r: seq<MenuItem>)
    ensures selected == All ==> r == catalog
    ensures selected != All ==> IsSubsequence(r, catalog) && |r| == CountIn(catalog, selected)
    ensures selected != All ==> forall i :: 0 <= i < |r| ==> r[i].category == selected
  {
    if selected == All then catalog else FilterCategory(catalog, selected)
  }

  /** A subsequence of items all of category `c` has at most as many elements as there are such items. */
  lemma {:induction false} SubsequenceOfCategoryBounded(r: seq<MenuItem>, items: seq<MenuItem>, c: string)
    requires IsSubsequence(r, items)
    requires forall i :: 0 <= i < |r| ==> r[i].category == c
    ensures |r| <= CountIn(items, c)
    decreases |items|
  {
    if r != [] {
      if r[0] == items[0] {
        SubsequenceOfCategoryBounded(r[1..], items[1..], c);
      } else {
        SubsequenceOfCategoryBounded(r, items[1..], c);
      }
    }
  }

  /**
   * The contract of `FilterCategory` determines its result: the only
   * subsequence of `items` made of items of category `c`, and as long as
   * the number of such items, is the filtered list.
   */
  lemma {:induction false} FilterCategoryUnique(r: seq<MenuItem>, items: seq<MenuItem>, c: string)
    requires IsSubsequence(r, items)
    requires forall i :: 0 <= i < |r| ==> r[i].category == c
    requires |r| == CountIn(items, c)
    ensures r == FilterCategory(items, c)
    decreases |items|
  {
    if items == [] {
    } else if items[0].category == c {
      if r == [] {
      } else if r[0] == items[0] {
        FilterCategoryUnique(r[1..], items[1..], c);
      } else {
        SubsequenceOfCategoryBounded(r, items[1..], c);
      }
    } else if r != [] {
      FilterCategoryUnique(r, items[1..], c);
    }
  }

  /** Filtering an already filtered list by the same category changes nothing. */
  lemma {:induction false} FilterCategoryIdempotent(items: seq<MenuItem>, c: string)
    ensures FilterCategory(FilterCategory(items, c), c) == FilterCategory(items, c)
  {
    if items != [] {
      FilterCategoryIdempotent(items[1..], c);
    }
  }

  /** Applying the page's filter to the visible cards again shows the same cards. */
  lemma VisibleItemsIdempotent(catalog: seq<MenuItem>, selected: string)
    ensures VisibleItems(VisibleItems(catalog, selected), selected) == VisibleItems(catalog, selected)
  {
    if selected != All {
      FilterCategoryIdempotent(catalog, selected);
    }
  }

  /** The number of occurrences of `x` in `cs`. */
  function Occurrences(x: string, cs: seq<string>): nat {
    if cs == [] then 0 else (if cs[0] == x then 1 else 0) + Occurrences(x, cs[1..])
  }

  /** The summed lengths of the filtered lists, one per category of `cs`. */
  function FilteredTotal(items: seq<MenuItem>, cs: seq<string>): nat {
    if cs == [] then 0 else |FilterCategory(items, cs[0])| + FilteredTotal(items, cs[1..])
  }

  predicate Distinct(cs: seq<string>) {
    forall i, j :: 0 <= i < j < |cs| ==> cs[i] != cs[j]
  }

  lemma {:induction false} OccurrencesOfMember(x: string, cs: seq<string>)
    requires Distinct(cs) && x in cs
    ensures Occurrences(x, cs) == 1
  {
    if cs[0] == x {
      OccurrencesOfNonMember(x, cs[1..]);
    } else {
      OccurrencesOfMember(x, cs[1..]);
    }
  }

  lemma {:induction false} OccurrencesOfNonMember(x: string, cs: seq<string>)
    requires x !in cs
    ensures Occurrences(x, cs) == 0
  {
    if cs != [] {
      OccurrencesOfNonMember(x, cs[1..]);
    }
  }

  /** An empty catalog filters to empty lists. */
  lemma {:induction false} FilteredTotalOfNothing(cs: seq<string>)
    ensures FilteredTotal([], cs) == 0
  {
    if cs != [] {
      FilteredTotalOfNothing(cs[1..]);
    }
  }

  /** The first item is counted once in each list of `cs` that filters for its category. */
  lemma {:induction false} FilteredTotalStep(items: seq<MenuItem>, cs: seq<string>)
    requires items != []
    ensures FilteredTotal(items, cs) == Occurrences(items[0].category, cs) + FilteredTotal(items[1..], cs)
  {
    if cs != [] {
      FilteredTotalStep(items, cs[1..]);
    }
  }

  /**
   * When every item's category is one of the distinct categories `cs`,
   * the per-category filters split the catalog: their lengths add up to
   * its length.
   */
  lemma {:induction false} FiltersPartition(items: seq<MenuItem>, cs: seq<string>)
    requires Distinct(cs)
    requires forall i :: 0 <= i < |items| ==> items[i].category in cs
    ensures FilteredTotal(items, cs) == |items|
  {
    if items != [] {
      FilteredTotalStep(items, cs);
      assert items[0].category in cs;
      OccurrencesOfMember(items[0].category, cs);
      FiltersPartition(items[1..], cs);
    } else {
      FilteredTotalOfNothing(cs);
    }
  }

  /** Item names, used as the cards' keys, are pairwise distinct. */
  lemma CatalogNamesDistinct()
    ensures forall i, j :: 0 <= i < j < |MenuItems| ==> MenuItems[i].name != MenuItems[j].name
  {
  }

  /** Every price is positive. */
  lemma CatalogPricesPositive()
    ensures forall i :: 0 <= i < |MenuItems| ==> MenuItems[i].price > 0
  {
  }

  /** Every item's category has a button, other than "All". */
  lemma CatalogCategoriesListed()
    ensures forall i :: 0 <= i < |MenuItems| ==> MenuItems[i].category in Categories[1..]
  {
  }

  /** The four category filters together show each of the ten items exactly once. */
  lemma CatalogPartition()
    ensures FilteredTotal(MenuItems, Categories[1..]) == |MenuItems| == 10
  {
    CatalogCategoriesListed();
    FiltersPartition(MenuItems, Categories[1..]);
  }

  /** A list holding an item of category `c` filters to a non-empty list. */
  lemma {:induction false} FilterCategoryKeeps(items: seq<MenuItem>, c: string, k: nat)
    requires k < |items| && items[k].category == c
    ensures FilterCategory(items, c) != []
  {
    FilterCategoryMembers(items, c);
    assert items[k] in items;
  }

  /** Every button shows at least one card: the catalog has an item of each category. */
  lemma CategoriesNonEmpty(c: string)
    ensures c in Categories ==> VisibleItems(MenuItems, c) != []
  {
    if c == "Breakfast" {
      FilterCategoryKeeps(MenuItems, c, 0);
    } else if c == "Lunch" {
      FilterCategoryKeeps(MenuItems, c, 2);
    } else if c == "Dinner" {
      FilterCategoryKeeps(MenuItems, c, 6);
    } else if c == "Beverages" {
      FilterCategoryKeeps(MenuItems, c, 4);
    }
  }

  function AddedToCartToast(item: MenuItem): Toast {
    Toast(Info, "Added to cart!", item.name + " has been added to your cart.")
  }

  /** The page component: the selected filter, and the toasts it has raised. */
  class MenuBrowser {
    var selectedCategory: string
    var toasts: seq<Toast>

    /** The filter always holds the value of one of the buttons. */
    ghost predicate Valid()
      reads this
    {
      selectedCategory in Categories
    }

    /** The cards on screen; while the selection is a button, there is at least one. */
    function FilteredItems(): (r: seq<MenuItem>)
      reads this
      ensures Valid() ==> r != []
    {
      CategoriesNonEmpty(selectedCategory);
      VisibleItems(MenuItems, selectedCategory)
    }

    constructor ()
      ensures Valid() && selectedCategory == All && toasts == []
      ensures FilteredItems() == MenuItems
    {
      selectedCategory := All;
      toasts := [];
    }

    /** A click on the button of `category`. */
    method SelectCategory(category: string)
      requires Valid()
      requires category in Categories
      modifies this`selectedCategory
      ensures Valid() && selectedCategory == category
      ensures FilteredItems() == VisibleItems(MenuItems, category)
    {
      selectedCategory := category;
    }

    /** "Add to Cart" raises one toast and changes nothing else. */
    method AddToCart(item: MenuItem)
      requires Valid()
      modifies this`toasts
      ensures Valid()
      ensures toasts == old(toasts) + [AddedToCartToast(item)]
      ensures FilteredItems() == old(FilteredItems())
    {
      toasts := toasts + [AddedToCartToast(item)];
    }
  }
}
