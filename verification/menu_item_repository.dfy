/**
  `MenuItemRepository`: the `menu_items` table as a sequence of rows keyed by
  item id, with the partial-update statement builder, the LIKE search patterns,
  the price-range finder, the per-restaurant delete and the category listing.
  Case-insensitive LIKE matching is a parameter: only the pattern is modelled.
*/
module MenuItemRepository {
  import opened Common
  import opened Ordering
  import opened Catalog
  import opened Table
  import opened Sql

  function ItemKey(m: MenuItem): string { m.id }

  function FindById(rows: seq<MenuItem>, id: string): Option<MenuItem> {
    Find(rows, ItemKey, id)
  }

  // ---------------------------------------------------------------- update

  /** The fields a caller may change; `None` is an `undefined` property. */
  datatype MenuPatch = MenuPatch(
    restaurantId: Option<string>,
    name: Option<string>,
    description: Option<string>,
    price: Option<real>,
    image: Option<string>,
    category: Option<string>)

  function TextField(column: string, v: Option<string>): Field {
    (column, if v.Some? then Some(Text(v.value)) else None)
  }

  /** The candidate SET entries, in the order the builder tests them. */
  function MenuFields(p: MenuPatch): seq<Field> {
    [TextField("restaurant_id", p.restaurantId)] + NameOnward(p)
  }

  function NameOnward(p: MenuPatch): seq<Field> {
    [TextField("name", p.name)] + DescriptionOnward(p)
  }

  function DescriptionOnward(p: MenuPatch): seq<Field> {
    [TextField("description", p.description)] + PriceOnward(p)
  }

  function PriceOnward(p: MenuPatch): seq<Field> {
    [("price", if p.price.Some? then Some(Real(p.price.value)) else None)] + ImageOnward(p)
  }

  function ImageOnward(p: MenuPatch): seq<Field> {
    [TextField("image", p.image)] + CategoryOnward(p)
  }

  function CategoryOnward(p: MenuPatch): seq<Field> {
    [TextField("category", p.category)] + []
  }

  function SetMenuColumn(m: MenuItem, column: string, v: Value): MenuItem {
    if column == "restaurant_id" && v.Text? then m.(restaurantId := v.s)
    else if column == "name" && v.Text? then m.(name := v.s)
    else if column == "description" && v.Text? then m.(description := v.s)
    else if column == "price" && v.Real? then m.(price := v.x)
    else if column == "image" && v.Text? then m.(image := v.s)
    else if column == "category" && v.Text? then m.(category := v.s)
    else m
  }

  /** The item with every supplied field replaced and every other field kept. */
  function Patched(m: MenuItem, p: MenuPatch): MenuItem {
    m.(restaurantId := p.restaurantId.GetOr(m.restaurantId),
       name := p.name.GetOr(m.name),
       description := p.description.GetOr(m.description),
       price := p.price.GetOr(m.price),
       image := p.image.GetOr(m.image),
       category := p.category.GetOr(m.category))
  }

  predicate IsEmptyPatch(p: MenuPatch) {
    p.restaurantId.None? && p.name.None? && p.description.None? && p.price.None? && p.image.None? && p.category.None?
  }

  /** The SET entries, applied in order, make exactly the patch's changes. */
  lemma ApplyMenuFields(m: MenuItem, p: MenuPatch)
    ensures ApplyFields(m, MenuFields(p), SetMenuColumn) == Patched(m, p)
  {
    var m1 := m.(restaurantId := p.restaurantId.GetOr(m.restaurantId));
    var m2 := m1.(name := p.name.GetOr(m.name));
    var m3 := m2.(description := p.description.GetOr(m.description));
    calc {
      ApplyFields(m, MenuFields(p), SetMenuColumn);
      { FieldsCons(m, TextField("restaurant_id", p.restaurantId), NameOnward(p), SetMenuColumn); }
      ApplyFields(m1, NameOnward(p), SetMenuColumn);
      { FieldsCons(m1, TextField("name", p.name), DescriptionOnward(p), SetMenuColumn); }
      ApplyFields(m2, DescriptionOnward(p), SetMenuColumn);
      { FieldsCons(m2, TextField("description", p.description), PriceOnward(p), SetMenuColumn); }
      ApplyFields(m3, PriceOnward(p), SetMenuColumn);
      { ApplyPriceOnward(m3, p); }
      m3.(price := p.price.GetOr(m3.price), image := p.image.GetOr(m3.image), category := p.category.GetOr(m3.category));
    }
  }

  /** The last three SET entries: price, image and category. */
  lemma ApplyPriceOnward(m: MenuItem, p: MenuPatch)
    ensures ApplyFields(m, PriceOnward(p), SetMenuColumn)
         == m.(price := p.price.GetOr(m.price), image := p.image.GetOr(m.image), category := p.category.GetOr(m.category))
  {
    var m4 := m.(price := p.price.GetOr(m.price));
    var m5 := m4.(image := p.image.GetOr(m.image));
    calc {
      ApplyFields(m, PriceOnward(p), SetMenuColumn);
      { FieldsCons(m, ("price", if p.price.Some? then Some(Real(p.price.value)) else None), ImageOnward(p), SetMenuColumn); }
      ApplyFields(m4, ImageOnward(p), SetMenuColumn);
      { FieldsCons(m4, TextField("image", p.image), CategoryOnward(p), SetMenuColumn); }
      ApplyFields(m5, CategoryOnward(p), SetMenuColumn);
      { FieldsCons(m5, TextField("category", p.category), [], SetMenuColumn); }
      ApplyFields(m5.(category := p.category.GetOr(m.category)), [], SetMenuColumn);
    }
  }

  /** The supplied fields, in the builder's order. */
  lemma MenuDefined(p: MenuPatch)
    ensures Defined(MenuFields(p))
         == (if p.restaurantId.Some? then [("restaurant_id", Text(p.restaurantId.value))] else [])
          + ((if p.name.Some? then [("name", Text(p.name.value))] else [])
          + ((if p.description.Some? then [("description", Text(p.description.value))] else [])
          + ((if p.price.Some? then [("price", Real(p.price.value))] else [])
          + ((if p.image.Some? then [("image", Text(p.image.value))] else [])
          + ((if p.category.Some? then [("category", Text(p.category.value))] else []) + [])))))
  {
    var id := (x: MenuPatch, c: string, v: Value) => x;
    FieldsCons(p, TextField("restaurant_id", p.restaurantId), NameOnward(p), id);
    FieldsCons(p, TextField("name", p.name), DescriptionOnward(p), id);
    FieldsCons(p, TextField("description", p.description), PriceOnward(p), id);
    FieldsCons(p, ("price", if p.price.Some? then Some(Real(p.price.value)) else None), ImageOnward(p), id);
    FieldsCons(p, TextField("image", p.image), CategoryOnward(p), id);
    FieldsCons(p, TextField("category", p.category), [], id);
  }

  /** No statement is built exactly when nothing was supplied. */
  lemma NoDefinedMenuFields(p: MenuPatch)
    ensures |Defined(MenuFields(p))| == 0 <==> IsEmptyPatch(p)
    ensures |Defined(MenuFields(p))| <= 6
  {
    MenuDefined(p);
  }

  /**
    The UPDATE statement of `update`: none for an empty patch; otherwise the supplied
    columns numbered `$1..$k` in the fixed order, the id appended, `WHERE id = $(k+1)`.
  */
  function UpdateStatement(id: string, p: MenuPatch): (u: Option<Update>)
    ensures u.None? <==> IsEmptyPatch(p)
    ensures u.Some? ==>
      var k := |Defined(MenuFields(p))|;
      && WellFormed(u.value) && 1 <= k <= 6
      && |u.value.assignments| == k && |u.value.values| == k + 1 && u.value.whereSlot == k + 1 && u.value.values[k] == Text(id)
      && forall j :: 0 <= j < k ==> u.value.assignments[j].slot == j + 1
  {
    NoDefinedMenuFields(p);
    BuildUpdate(MenuFields(p), id)
  }

  /** With every field supplied, the SET clause names the six columns in the builder's order. */
  lemma FullPatchOrder(id: string, p: MenuPatch)
    requires p.restaurantId.Some? && p.name.Some? && p.description.Some? && p.price.Some? && p.image.Some? && p.category.Some?
    ensures var u := UpdateStatement(id, p).value;
      && |u.assignments| == 6
      && u.assignments == [Assignment("restaurant_id", 1), Assignment("name", 2), Assignment("description", 3),
                           Assignment("price", 4), Assignment("image", 5), Assignment("category", 6)]
      && u.whereSlot == 7
  {
    MenuDefined(p);
  }

  /**
    `update`: with nothing supplied it is `findById`; otherwise the row with that id
    gets exactly the supplied fields, and the updated row (or null) is returned.
  */
  function Update(rows: seq<MenuItem>, id: string, p: MenuPatch): (r: Outcome<MenuItem>)
    ensures IsEmptyPatch(p) ==> r == Outcome(rows, FindById(rows, id))
    ensures |r.rows| == |rows|
    ensures forall i :: 0 <= i < |rows| ==> r.rows[i] == if rows[i].id == id then Patched(rows[i], p) else rows[i]
    ensures r.returned.None? <==> FindById(rows, id).None?
    ensures r.returned.Some? ==> r.returned.value == Patched(FindById(rows, id).value, p)
  {
    match UpdateStatement(id, p)
    case None =>
      assert forall m: MenuItem :: Patched(m, p) == m;
      Outcome(rows, FindById(rows, id))
    case Some(u) =>
      forall m: MenuItem ensures ApplyAssignments(m, u.assignments, u.values, SetMenuColumn) == Patched(m, p) {
        BuildUpdateApplies(MenuFields(p), id, m, SetMenuColumn);
        ApplyMenuFields(m, p);
      }
      ExecUpdate(rows, u, ItemKey, SetMenuColumn).value
  }

  // ---------------------------------------------------------------- finders

  /** Case-insensitive LIKE against name, description or category, as both searches test it. */
  predicate Matches(m: MenuItem, pat: string, like: (string, string) -> bool) {
    like(m.name, pat) || like(m.description, pat) || like(m.category, pat)
  }

  /** `ORDER BY name ASC`. */
  function ByName(m: MenuItem): SortKey { [TextAsc(m.name)] }

  /**
    `search`: the term wrapped as `%term%` and matched against name, description
    and category by the database's case-insensitive LIKE, ordered by name.
  */
  function Search(rows: seq<MenuItem>, term: string, like: (string, string) -> bool): (r: seq<MenuItem>)
    ensures forall i :: 0 <= i < |r| ==> r[i] in rows && Matches(r[i], ContainsPattern(term), like)
    ensures forall i :: 0 <= i < |rows| && Matches(rows[i], ContainsPattern(term), like) ==> rows[i] in r
    ensures multiset(r) == multiset(Filter(rows, (m: MenuItem) => Matches(m, ContainsPattern(term), like)))
    ensures SortedBy(r, ByName)
  {
    var pat := ContainsPattern(term);
    Select(rows, (m: MenuItem) => Matches(m, pat, like), ByName)
  }

  /** `searchByRestaurant`: the same pattern, restricted to one restaurant, ordered by name. */
  function SearchByRestaurant(rows: seq<MenuItem>, term: string, restaurantId: string, like: (string, string) -> bool)
    : (r: seq<MenuItem>)
    ensures forall i :: 0 <= i < |r| ==>
      r[i] in rows && r[i].restaurantId == restaurantId && Matches(r[i], ContainsPattern(term), like)
    ensures forall i :: 0 <= i < |rows| && rows[i].restaurantId == restaurantId && Matches(rows[i], ContainsPattern(term), like) ==>
      rows[i] in r
    ensures multiset(r) == multiset(Filter(rows, (m: MenuItem) =>
      m.restaurantId == restaurantId && Matches(m, ContainsPattern(term), like)))
    ensures SortedBy(r, ByName)
  {
    var pat := ContainsPattern(term);
    Select(rows, (m: MenuItem) => m.restaurantId == restaurantId && Matches(m, pat, like), ByName)
  }

  /** Searching one restaurant finds exactly that restaurant's share of the global search, each item as often. */
  lemma SearchByRestaurantWithinSearch(rows: seq<MenuItem>, term: string, restaurantId: string,
                                       like: (string, string) -> bool)
    ensures multiset(SearchByRestaurant(rows, term, restaurantId, like))
         == multiset(Filter(Search(rows, term, like), (m: MenuItem) => m.restaurantId == restaurantId))
  {
    var pat := ContainsPattern(term);
    var matching := (m: MenuItem) => Matches(m, pat, like);
    var own := (m: MenuItem) => m.restaurantId == restaurantId;
    var both := (m: MenuItem) => m.restaurantId == restaurantId && Matches(m, pat, like);
    var global := Search(rows, term, like);
    FilterMultiplicities(rows, matching);
    FilterMultiplicities(rows, both);
    FilterMultiplicities(global, own);
    assert multiset(SearchByRestaurant(rows, term, restaurantId, like)) == multiset(Filter(rows, both));
    assert multiset(global) == multiset(Filter(rows, matching));
  }

  /** `ORDER BY price ASC, name ASC`. */
  function PriceThenName(m: MenuItem): SortKey { [RealAsc(m.price), TextAsc(m.name)] }

  /** `findByPriceRange`: every item priced within `[lo, hi]`, both ends included, cheapest first. */
  function FindByPriceRange(rows: seq<MenuItem>, lo: real, hi: real): (r: seq<MenuItem>)
    ensures forall i :: 0 <= i < |r| ==> r[i] in rows && lo <= r[i].price <= hi
    ensures forall i :: 0 <= i < |rows| && lo <= rows[i].price <= hi ==> rows[i] in r
    ensures multiset(r) == multiset(Filter(rows, (m: MenuItem) => lo <= m.price <= hi))
    ensures SortedBy(r, PriceThenName)
  {
    Select(rows, (m: MenuItem) => lo <= m.price <= hi, PriceThenName)
  }

  /** Sorted by price first: an earlier item never costs more than a later one. */
  lemma PriceRangeCheapestFirst(rows: seq<MenuItem>, lo: real, hi: real, i: nat, j: nat)
    requires i < j < |FindByPriceRange(rows, lo, hi)|
    ensures var r := FindByPriceRange(rows, lo, hi); r[i].price <= r[j].price
  {
    var r := FindByPriceRange(rows, lo, hi);
    assert KeyCmp(PriceThenName(r[i]), PriceThenName(r[j])) <= 0;
    assert PriceThenName(r[i])[0] == RealAsc(r[i].price);
  }

  /** `deleteByRestaurantId`: removes the restaurant's items and returns how many (0 when none). */
  function DeleteByRestaurantId(rows: seq<MenuItem>, restaurantId: string): (r: (seq<MenuItem>, nat))
    ensures r.1 == |rows| - |r.0|
    ensures r.1 == 0 <==> forall i :: 0 <= i < |rows| ==> rows[i].restaurantId != restaurantId
    ensures forall i :: 0 <= i < |r.0| ==> r.0[i] in rows && r.0[i].restaurantId != restaurantId
    ensures forall i :: 0 <= i < |rows| && rows[i].restaurantId != restaurantId ==> rows[i] in r.0
  {
    DeleteWhere(rows, (m: MenuItem) => m.restaurantId == restaurantId)
  }

  // ---------------------------------------------------------------- categories

  function CategoryKey(c: string): SortKey { [TextAsc(c)] }

  /** Inserting a new value into a duplicate-free list keeps it duplicate-free. */
  lemma {:induction false} InsertKeepsDistinct(s: seq<string>, x: string)
    requires Distinct(s) && x !in s
    ensures Distinct(Insert(s, x, CategoryKey))
  {
    if |s| > 0 && KeyCmp(CategoryKey(x), CategoryKey(s[0])) >= 0 {
      var tail := Insert(s[1..], x, CategoryKey);
      InsertKeepsDistinct(s[1..], x);
      assert Insert(s, x, CategoryKey) == [s[0]] + tail;
      forall k | 0 <= k < |tail| ensures tail[k] != s[0] {
        if tail[k] != x {
          assert tail[k] in s[1..];
          var m :| 0 <= m < |s[1..]| && s[1..][m] == tail[k];
          assert s[m + 1] == tail[k];
        }
      }
    }
  }

  /** `SELECT DISTINCT category ... ORDER BY category`: each category once, ascending. */
  function DistinctSorted(cs: seq<string>): (r: seq<string>)
    ensures forall c :: c in r <==> c in cs
    ensures Distinct(r) && SortedBy(r, CategoryKey)
  {
    if |cs| == 0 then []
    else
      var rest := DistinctSorted(cs[1..]);
      if cs[0] in rest then
        assert forall c :: c in cs <==> c == cs[0] || c in cs[1..];
        rest
      else
        var r := Insert(rest, cs[0], CategoryKey);
        InsertSorted(rest, cs[0], CategoryKey);
        InsertKeepsDistinct(rest, cs[0]);
        assert forall c :: c in r <==> c == cs[0] || c in rest by {
          forall c ensures c in r <==> c == cs[0] || c in rest {
            assert c in r <==> c in multiset(r);
          }
        }
        assert forall c :: c in cs <==> c == cs[0] || c in cs[1..];
        r
  }

  function CategoryOf(m: MenuItem): string { m.category }

  /** `getCategories`: the distinct categories of all items, ascending. */
  function GetCategories(rows: seq<MenuItem>): (r: seq<string>)
    ensures forall c :: c in r <==> exists i :: 0 <= i < |rows| && rows[i].category == c
    ensures Distinct(r) && SortedBy(r, CategoryKey)
  {
    var cs := seq(|rows|, i requires 0 <= i < |rows| => rows[i].category);
    var r := DistinctSorted(cs);
    assert forall c :: c in cs <==> exists i :: 0 <= i < |rows| && rows[i].category == c by {
      forall c | c in cs ensures exists i :: 0 <= i < |rows| && rows[i].category == c {
        var i :| 0 <= i < |cs| && cs[i] == c;
      }
      forall c | exists i :: 0 <= i < |rows| && rows[i].category == c ensures c in cs {
        var i :| 0 <= i < |rows| && rows[i].category == c;
        assert cs[i] == c;
      }
    }
    r
  }

  /** `getCategoriesByRestaurant`: the same listing over one restaurant's items. */
  function GetCategoriesByRestaurant(rows: seq<MenuItem>, restaurantId: string): (r: seq<string>)
    ensures forall c :: c in r <==> exists i :: 0 <= i < |rows| && rows[i].restaurantId == restaurantId && rows[i].category == c
    ensures Distinct(r) && SortedBy(r, CategoryKey)
  {
    var own := Filter(rows, (m: MenuItem) => m.restaurantId == restaurantId);
    var r := GetCategories(own);
    assert forall c :: c in r <==> exists i :: 0 <= i < |rows| && rows[i].restaurantId == restaurantId && rows[i].category == c by {
      forall c | c in r ensures exists i :: 0 <= i < |rows| && rows[i].restaurantId == restaurantId && rows[i].category == c {
        var k :| 0 <= k < |own| && own[k].category == c;
        assert own[k] in rows;
        var i :| 0 <= i < |rows| && rows[i] == own[k];
      }
      forall c | exists i :: 0 <= i < |rows| && rows[i].restaurantId == restaurantId && rows[i].category == c ensures c in r {
        var i :| 0 <= i < |rows| && rows[i].restaurantId == restaurantId && rows[i].category == c;
        assert rows[i] in own;
        var k :| 0 <= k < |own| && own[k] == rows[i];
      }
    }
    r
  }
}
