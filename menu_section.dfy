/** The menu grid of a restaurant's page (src/components/menu-section.tsx):
    category buttons, the menus of the selected category, and each menu's
    quantity in the cart. */
module MenuSection {
  import opened Wrappers
  import opened Types
  import opened Seqs
  import opened ShoppingCart

  function CategoryNames(menus: seq<Menu>): (r: seq<string>)
    ensures |r| == |menus| && forall i :: 0 <= i < |menus| ==> r[i] == menus[i].category.name
  {
    seq(|menus|, i requires 0 <= i < |menus| => menus[i].category.name)
  }

  /** `categories`: each category name once, in the order the names first
      appear among the menus. */
  function Categories(menus: seq<Menu>): seq<string> {
    Distinct(CategoryNames(menus))
  }

  lemma CategoriesListEachNameOnce(menus: seq<Menu>)
    ensures NoDuplicates(Categories(menus))
    ensures forall m :: m in menus ==> m.category.name in Categories(menus)
    ensures forall c :: c in Categories(menus) ==> exists m :: m in menus && m.category.name == c
    ensures forall i, j :: 0 <= i < j < |Categories(menus)| ==>
      FirstIndex(CategoryNames(menus), Categories(menus)[i]) < FirstIndex(CategoryNames(menus), Categories(menus)[j])
  {
    var names := CategoryNames(menus);
    DistinctFirstOccurrenceOrder(names);
    forall m | m in menus ensures m.category.name in Categories(menus) {
      var i :| 0 <= i < |menus| && menus[i] == m;
      assert names[i] == m.category.name;
    }
    forall c | c in Categories(menus) ensures exists m :: m in menus && m.category.name == c {
      var i :| 0 <= i < |names| && names[i] == c;
      assert menus[i] in menus;
    }
  }

  /** `filteredMenus`: with a selected category (a non-empty name) the menus
      of that category in their original order, otherwise all menus. */
  function FilteredMenus(menus: seq<Menu>, selected: Option<string>): (r: seq<Menu>)
    ensures !IsPresent(selected) ==> r == menus
    ensures IsPresent(selected) ==>
      forall m :: m in r <==> m in menus && m.category.name == selected.value
  {
    if IsPresent(selected) then Filter(menus, (m: Menu) => m.category.name == selected.value)
    else menus
  }

  /** The filter keeps the menus' order: filtering a list made of two parts
      is filtering each part and putting the results together. */
  lemma FilteredMenusInOrder(a: seq<Menu>, b: seq<Menu>, selected: Option<string>)
    ensures FilteredMenus(a + b, selected) == FilteredMenus(a, selected) + FilteredMenus(b, selected)
  {
    if IsPresent(selected) {
      FilterAppend(a, b, (m: Menu) => m.category.name == selected.value);
    }
  }

  /** Every category button shows at least one menu, and the menus of all
      category buttons together are all the menus. */
  lemma CategoryButtonsCoverMenus(menus: seq<Menu>)
    ensures forall c :: c in Categories(menus) && c != "" ==> |FilteredMenus(menus, Some(c))| > 0
    ensures forall m :: m in menus && m.category.name != "" ==>
      m in FilteredMenus(menus, Some(m.category.name))
  {
    CategoriesListEachNameOnce(menus);
    forall c | c in Categories(menus) && c != "" ensures |FilteredMenus(menus, Some(c))| > 0 {
      var m :| m in menus && m.category.name == c;
      assert m in FilteredMenus(menus, Some(c));
    }
  }

  /** Which of the buttons "All" (index 0) and one per category (index
      `i + 1`) is highlighted. */
  function Highlighted(categories: seq<string>, selected: Option<string>): (r: seq<bool>)
    ensures |r| == |categories| + 1
    ensures r[0] <==> selected.None?
    ensures forall i :: 0 <= i < |categories| ==> (r[i + 1] <==> selected == Some(categories[i]))
  {
    [selected.None?] + seq(|categories|, i requires 0 <= i < |categories| => selected == Some(categories[i]))
  }

  /** Exactly one button is highlighted when nothing or one of the listed
      categories is selected, since each category is listed once. */
  lemma OneButtonHighlighted(menus: seq<Menu>, selected: Option<string>)
    requires selected.None? || selected.value in Categories(menus)
    ensures var h := Highlighted(Categories(menus), selected);
      (exists i :: 0 <= i < |h| && h[i]) &&
      forall i, j :: 0 <= i < |h| && 0 <= j < |h| && h[i] && h[j] ==> i == j
  {
    var cats := Categories(menus);
    var h := Highlighted(cats, selected);
    CategoriesListEachNameOnce(menus);
    if selected.Some? {
      var k :| 0 <= k < |cats| && cats[k] == selected.value;
      assert h[k + 1];
    } else {
      assert h[0];
    }
    forall i, j | 0 <= i < |h| && 0 <= j < |h| && h[i] && h[j] ensures i == j {
      if i > 0 && j > 0 {
        assert cats[i - 1] == cats[j - 1];
      }
    }
  }

  /** One menu card: the menu and the quantity it shows (`cart[id] || 0`). */
  datatype Tile = Tile(menu: Menu, quantity: nat)

  function Tiles(shown: seq<Menu>, q: Quantities): (r: seq<Tile>)
    ensures |r| == |shown|
    ensures forall i :: 0 <= i < |shown| ==> r[i].menu == shown[i] && r[i].quantity == QuantityOf(q, shown[i].id)
  {
    seq(|shown|, i requires 0 <= i < |shown| => Tile(shown[i], QuantityOf(q, shown[i].id)))
  }

  /** A card's `+` raises its own shown quantity by one and leaves every card
      of another menu as it was; its `-` lowers a positive quantity by one. */
  lemma TileButtons(shown: seq<Menu>, q: Quantities, i: nat)
    requires AllPositive(q) && i < |shown|
    ensures var id := shown[i].id;
      Tiles(shown, Added(q, id))[i].quantity == Tiles(shown, q)[i].quantity + 1 &&
      (Tiles(shown, q)[i].quantity > 0 ==>
        Tiles(shown, Removed(q, id))[i].quantity == Tiles(shown, q)[i].quantity - 1) &&
      forall j :: 0 <= j < |shown| && shown[j].id != id ==>
        Tiles(shown, Added(q, id))[j] == Tiles(shown, q)[j] &&
        Tiles(shown, Removed(q, id))[j] == Tiles(shown, q)[j]
  {
    var id := shown[i].id;
    forall j | 0 <= j < |shown| && shown[j].id != id
      ensures QuantityOf(Removed(q, id), shown[j].id) == QuantityOf(q, shown[j].id)
    {
    }
  }
}
