/**
  `RestaurantRepository`: the `restaurants` table as a sequence of rows keyed by
  restaurant id, with its ordering, rating-range finder, search pattern,
  partial-update builder and delete. Case-insensitive LIKE matching is a parameter.
*/
module RestaurantRepository {
  import opened Common
  import opened Ordering
  import opened Catalog
  import opened Table
  import opened Sql

  function RestaurantKey(r: Restaurant): string { r.id }

  function FindById(rows: seq<Restaurant>, id: string): Option<Restaurant> {
    Find(rows, RestaurantKey, id)
  }

  /** `ORDER BY rating DESC, name ASC`. */
  function BestRatedFirst(r: Restaurant): SortKey { [RealDesc(r.rating), TextAsc(r.name)] }

  /** `findAll`: every restaurant, best rated first, ties by name. */
  function FindAll(rows: seq<Restaurant>): (r: seq<Restaurant>)
    ensures multiset(r) == multiset(rows)
    ensures SortedBy(r, BestRatedFirst)
  {
    SortBy(rows, BestRatedFirst)
  }

  /** In `findAll`, ratings never increase, and equal ratings come in name order. */
  lemma FindAllOrder(rows: seq<Restaurant>, i: nat, j: nat)
    requires i < j < |FindAll(rows)|
    ensures var r := FindAll(rows);
      && r[i].rating >= r[j].rating
      && (r[i].rating == r[j].rating ==> StrCmp(r[i].name, r[j].name) <= 0)
  {
    var r := FindAll(rows);
    var a, b := BestRatedFirst(r[i]), BestRatedFirst(r[j]);
    assert KeyCmp(a, b) <= 0;
    assert a == [RealDesc(r[i].rating)] + [TextAsc(r[i].name)];
    assert b == [RealDesc(r[j].rating)] + [TextAsc(r[j].name)];
    if r[i].rating == r[j].rating {
      assert PartCmp(a[0], b[0]) == 0;
      assert KeyCmp(a, b) == LexCmp(a[1..], b[1..], PartCmp);
      assert a[1..] == [TextAsc(r[i].name)] && b[1..] == [TextAsc(r[j].name)];
      assert LexCmp(a[1..], b[1..], PartCmp) == (if PartCmp(a[1], b[1]) != 0 then PartCmp(a[1], b[1]) else LexCmp(a[2..], b[2..], PartCmp));
    }
  }

  /** `findByRatingRange`: every restaurant rated within `[lo, hi]`, both ends included, best rated first. */
  function FindByRatingRange(rows: seq<Restaurant>, lo: real, hi: real): (r: seq<Restaurant>)
    ensures forall i :: 0 <= i < |r| ==> r[i] in rows && lo <= r[i].rating <= hi
    ensures forall i :: 0 <= i < |rows| && lo <= rows[i].rating <= hi ==> rows[i] in r
    ensures multiset(r) == multiset(Filter(rows, (x: Restaurant) => lo <= x.rating <= hi))
    ensures SortedBy(r, BestRatedFirst)
  {
    Select(rows, (x: Restaurant) => lo <= x.rating <= hi, BestRatedFirst)
  }

  /** The search condition on one restaurant, for a given pattern. */
  predicate SearchMatches(x: Restaurant, items: seq<MenuItem>, pat: string, like: (string, string) -> bool) {
    || like(x.name, pat) || like(x.cuisine, pat) || like(x.description, pat)
    || exists k :: 0 <= k < |items| && items[k].restaurantId == x.id
                 && (like(items[k].name, pat) || like(items[k].description, pat))
  }

  /**
    `search`: the term wrapped as `%term%`, matched against the restaurant's name,
    cuisine and description and against the name and description of any of its
    menu items; each restaurant at most once, best rated first.
  */
  function Search(rows: seq<Restaurant>, items: seq<MenuItem>, term: string, like: (string, string) -> bool)
    : (r: seq<Restaurant>)
    ensures forall i :: 0 <= i < |r| ==> r[i] in rows && SearchMatches(r[i], items, ContainsPattern(term), like)
    ensures forall i :: 0 <= i < |rows| && SearchMatches(rows[i], items, ContainsPattern(term), like) ==> rows[i] in r
    ensures Distinct(rows) ==> Distinct(r)
    ensures SortedBy(r, BestRatedFirst)
  {
    var pat := ContainsPattern(term);
    var cond := (x: Restaurant) => SearchMatches(x, items, pat, like);
    var r := Select(rows, cond, BestRatedFirst);
    FilterSubMultiset(rows, cond);
    if Distinct(rows) then DistinctSelect(rows, r); r else r
  }

  /** A selection that keeps multiplicities from a duplicate-free table is duplicate-free. */
  lemma DistinctSelect(rows: seq<Restaurant>, r: seq<Restaurant>)
    requires Distinct(rows)
    requires multiset(r) <= multiset(rows)
    ensures Distinct(r)
  {
    DistinctCounts(rows);
    forall i, j | 0 <= i < j < |r| ensures r[i] != r[j] {
      if r[i] == r[j] {
        TwoOccurrences(r, i, j);
        assert false;
      }
    }
  }

  lemma {:induction false} DistinctCounts(s: seq<Restaurant>)
    requires Distinct(s)
    ensures forall x :: multiset(s)[x] <= 1
  {
    if |s| > 0 {
      DistinctCounts(s[1..]);
      assert s == [s[0]] + s[1..];
      assert s[0] !in s[1..];
    }
  }

  lemma {:induction false} TwoOccurrences(s: seq<Restaurant>, i: nat, j: nat)
    requires i < j < |s| && s[i] == s[j]
    ensures multiset(s)[s[i]] >= 2
  {
    var x := s[i];
    assert s == s[..j] + [s[j]] + s[j + 1..];
    assert s[i] == s[..j][i];
    assert multiset(s[..j])[x] >= 1;
  }

  // ---------------------------------------------------------------- update

  /** The fields a caller may change; `None` is an `undefined` property. */
  datatype RestaurantPatch = RestaurantPatch(
    name: Option<string>,
    cuisine: Option<string>,
    rating: Option<real>,
    deliveryTime: Option<string>,
    image: Option<string>,
    description: Option<string>)

  predicate IsEmptyPatch(p: RestaurantPatch) {
    p.name.None? && p.cuisine.None? && p.rating.None? && p.deliveryTime.None? && p.image.None? && p.description.None?
  }

  function TextField(column: string, v: Option<string>): Field {
    (column, if v.Some? then Some(Text(v.value)) else None)
  }

  /** The candidate SET entries, in the order the builder tests them. */
  function RestaurantFields(p: RestaurantPatch): seq<Field> {
    [TextField("name", p.name)] + CuisineOnward(p)
  }

  function CuisineOnward(p: RestaurantPatch): seq<Field> {
    [TextField("cuisine", p.cuisine)] + RatingOnward(p)
  }

  function RatingOnward(p: RestaurantPatch): seq<Field> {
    [("rating", if p.rating.Some? then Some(Real(p.rating.value)) else None)] + DeliveryTimeOnward(p)
  }

  function DeliveryTimeOnward(p: RestaurantPatch): seq<Field> {
    [TextField("delivery_time", p.deliveryTime)] + ImageOnward(p)
  }

  function ImageOnward(p: RestaurantPatch): seq<Field> {
    [TextField("image", p.image)] + DescriptionOnward(p)
  }

  function DescriptionOnward(p: RestaurantPatch): seq<Field> {
    [TextField("description", p.description)] + []
  }

  function SetRestaurantColumn(r: Restaurant, column: string, v: Value): Restaurant {
    if column == "name" && v.Text? then r.(name := v.s)
    else if column == "cuisine" && v.Text? then r.(cuisine := v.s)
    else if column == "rating" && v.Real? then r.(rating := v.x)
    else if column == "delivery_time" && v.Text? then r.(deliveryTime := v.s)
    else if column == "image" && v.Text? then r.(image := v.s)
    else if column == "description" && v.Text? then r.(description := v.s)
    else r
  }

  /** The restaurant with every supplied field replaced and every other field kept. */
  function Patched(r: Restaurant, p: RestaurantPatch): Restaurant {
    r.(name := p.name.GetOr(r.name),
       cuisine := p.cuisine.GetOr(r.cuisine),
       rating := p.rating.GetOr(r.rating),
       deliveryTime := p.deliveryTime.GetOr(r.deliveryTime),
       image := p.image.GetOr(r.image),
       description := p.description.GetOr(r.description))
  }

  /** The SET entries, applied in order, make exactly the patch's changes. */
  lemma ApplyRestaurantFields(x: Restaurant, p: RestaurantPatch)
    ensures ApplyFields(x, RestaurantFields(p), SetRestaurantColumn) == Patched(x, p)
  {
    var x1 := x.(name := p.name.GetOr(x.name));
    var x2 := x1.(cuisine := p.cuisine.GetOr(x.cuisine));
    var x3 := x2.(rating := p.rating.GetOr(x.rating));
    calc {
      ApplyFields(x, RestaurantFields(p), SetRestaurantColumn);
      { FieldsCons(x, TextField("name", p.name), CuisineOnward(p), SetRestaurantColumn); }
      ApplyFields(x1, CuisineOnward(p), SetRestaurantColumn);
      { FieldsCons(x1, TextField("cuisine", p.cuisine), RatingOnward(p), SetRestaurantColumn); }
      ApplyFields(x2, RatingOnward(p), SetRestaurantColumn);
      { FieldsCons(x2, ("rating", if p.rating.Some? then Some(Real(p.rating.value)) else None), DeliveryTimeOnward(p), SetRestaurantColumn); }
      ApplyFields(x3, DeliveryTimeOnward(p), SetRestaurantColumn);
      { ApplyDeliveryTimeOnward(x3, p); }
      x3.(deliveryTime := p.deliveryTime.GetOr(x3.deliveryTime), image := p.image.GetOr(x3.image),
          description := p.description.GetOr(x3.description));
    }
  }

  /** The last three SET entries: delivery time, image and description. */
  lemma ApplyDeliveryTimeOnward(x: Restaurant, p: RestaurantPatch)
    ensures ApplyFields(x, DeliveryTimeOnward(p), SetRestaurantColumn)
         == x.(deliveryTime := p.deliveryTime.GetOr(x.deliveryTime), image := p.image.GetOr(x.image),
               description := p.description.GetOr(x.description))
  {
    var x4 := x.(deliveryTime := p.deliveryTime.GetOr(x.deliveryTime));
    var x5 := x4.(image := p.image.GetOr(x.image));
    calc {
      ApplyFields(x, DeliveryTimeOnward(p), SetRestaurantColumn);
      { FieldsCons(x, TextField("delivery_time", p.deliveryTime), ImageOnward(p), SetRestaurantColumn); }
      ApplyFields(x4, ImageOnward(p), SetRestaurantColumn);
      { FieldsCons(x4, TextField("image", p.image), DescriptionOnward(p), SetRestaurantColumn); }
      ApplyFields(x5, DescriptionOnward(p), SetRestaurantColumn);
      { FieldsCons(x5, TextField("description", p.description), [], SetRestaurantColumn); }
      ApplyFields(x5.(description := p.description.GetOr(x.description)), [], SetRestaurantColumn);
    }
  }

  /** The supplied fields, in the builder's order. */
  lemma RestaurantDefined(p: RestaurantPatch)
    ensures Defined(RestaurantFields(p))
         == (if p.name.Some? then [("name", Text(p.name.value))] else [])
          + ((if p.cuisine.Some? then [("cuisine", Text(p.cuisine.value))] else [])
          + ((if p.rating.Some? then [("rating", Real(p.rating.value))] else [])
          + ((if p.deliveryTime.Some? then [("delivery_time", Text(p.deliveryTime.value))] else [])
          + ((if p.image.Some? then [("image", Text(p.image.value))] else [])
          + ((if p.description.Some? then [("description", Text(p.description.value))] else []) + [])))))
  {
    var keep := (x: RestaurantPatch, c: string, v: Value) => x;
    FieldsCons(p, TextField("name", p.name), CuisineOnward(p), keep);
    FieldsCons(p, TextField("cuisine", p.cuisine), RatingOnward(p), keep);
    FieldsCons(p, ("rating", if p.rating.Some? then Some(Real(p.rating.value)) else None), DeliveryTimeOnward(p), keep);
    FieldsCons(p, TextField("delivery_time", p.deliveryTime), ImageOnward(p), keep);
    FieldsCons(p, TextField("image", p.image), DescriptionOnward(p), keep);
    FieldsCons(p, TextField("description", p.description), [], keep);
  }

  /**
    The UPDATE statement of `update`: none for an empty patch; otherwise the supplied
    columns numbered `$1..$k` in the fixed order, the id appended, `WHERE id = $(k+1)`.
  */
  function UpdateStatement(id: string, p: RestaurantPatch): (u: Option<Update>)
    ensures u.None? <==> IsEmptyPatch(p)
    ensures u.Some? ==>
      var k := |Defined(RestaurantFields(p))|;
      && WellFormed(u.value) && 1 <= k <= 6
      && |u.value.assignments| == k && |u.value.values| == k + 1 && u.value.whereSlot == k + 1 && u.value.values[k] == Text(id)
      && forall j :: 0 <= j < k ==> u.value.assignments[j].slot == j + 1
  {
    RestaurantDefined(p);
    BuildUpdate(RestaurantFields(p), id)
  }

  /** With every field supplied, the SET clause names the six columns in the builder's order. */
  lemma FullPatchOrder(id: string, p: RestaurantPatch)
    requires p.name.Some? && p.cuisine.Some? && p.rating.Some? && p.deliveryTime.Some? && p.image.Some? && p.description.Some?
    ensures var u := UpdateStatement(id, p).value;
      && u.assignments == [Assignment("name", 1), Assignment("cuisine", 2), Assignment("rating", 3),
                           Assignment("delivery_time", 4), Assignment("image", 5), Assignment("description", 6)]
      && u.whereSlot == 7 && u.values[6] == Text(id)
  {
    RestaurantDefined(p);
  }

  /** With only the rating supplied, it takes `$1` and the id `$2`. */
  lemma RatingOnlyStatement(id: string, rating: real)
    ensures UpdateStatement(id, RestaurantPatch(None, None, Some(rating), None, None, None))
         == Some(Sql.Update([Assignment("rating", 1)], 2, [Real(rating), Text(id)]))
  {
    var p := RestaurantPatch(None, None, Some(rating), None, None, None);
    RestaurantDefined(p);
    var u := UpdateStatement(id, p).value;
    assert u.assignments == [Assignment("rating", 1)];
    assert u.values == [Real(rating), Text(id)];
  }

  /**
    `update`: with nothing supplied it is `findById`; otherwise the row with that id
    gets exactly the supplied fields, and the updated row (or null) is returned.
  */
  function Update(rows: seq<Restaurant>, id: string, p: RestaurantPatch): (r: Outcome<Restaurant>)
    ensures IsEmptyPatch(p) ==> r == Outcome(rows, FindById(rows, id))
    ensures |r.rows| == |rows|
    ensures forall i :: 0 <= i < |rows| ==> r.rows[i] == if rows[i].id == id then Patched(rows[i], p) else rows[i]
    ensures r.returned.None? <==> FindById(rows, id).None?
    ensures r.returned.Some? ==> r.returned.value == Patched(FindById(rows, id).value, p)
  {
    match UpdateStatement(id, p)
    case None =>
      assert forall x: Restaurant :: Patched(x, p) == x;
      Outcome(rows, FindById(rows, id))
    case Some(u) =>
      forall x: Restaurant ensures ApplyAssignments(x, u.assignments, u.values, SetRestaurantColumn) == Patched(x, p) {
        BuildUpdateApplies(RestaurantFields(p), id, x, SetRestaurantColumn);
        ApplyRestaurantFields(x, p);
      }
      ExecUpdate(rows, u, RestaurantKey, SetRestaurantColumn).value
  }

  /** `delete`: removes the restaurant with that id; true exactly when one existed. */
  function Delete(rows: seq<Restaurant>, id: string): (r: (seq<Restaurant>, bool))
    ensures r.1 <==> FindById(rows, id).Some?
    ensures forall i :: 0 <= i < |r.0| ==> r.0[i] in rows && r.0[i].id != id
    ensures forall i :: 0 <= i < |rows| && rows[i].id != id ==> rows[i] in r.0
  {
    var (rest, count) := DeleteWhere(rows, (x: Restaurant) => x.id == id);
    (rest, count > 0)
  }
}
