/**
 * The categorizable trait's membership predicates `hasCategory`,
 * `hasAnyCategory` and `hasAllCategories`. Each is written as the code
 * computes it, on the entity's loaded categories (`$this->categories`) with the
 * collection operations `contains`, `pluck`, `intersect`, `diff` and `count`;
 * its contract or the lemmas after it state the result in terms of the sets of
 * slugs and keys the entity is linked to.
 */
module Queries {
  import opened Collections
  import opened Catalogue
  import opened Arguments

  /**
   * `hasCategory`, as written. A single slug or model is a membership test. For
   * an array of slugs the code returns `intersect(...)->isEmpty()` without the
   * negation its collection branch has, so the result is true when the entity
   * has NONE of the listed slugs. Every other input gives false.
   */
  function HasCategory(table: seq<Category>, links: set<int>, c: CategoryArg): (r: bool)
    ensures c.Slug? ==> (r <==> c.slug in SlugSet(table, links))
    ensures c.Model? ==> (r <==> c.category.slug in SlugSet(table, links))
    ensures IsSlugInput(c) && c.SlugArray? ==> (r <==> SlugSet(table, links) !! Elems(c.slugs))
    ensures c.Collection? ==> (r <==> !(SlugSet(table, links) !! Elems(PluckSlug(c.models))))
    ensures c.IdArray? || c.Null? || IsEmptyArray(c) ==> !r
  {
    var slugs := PluckSlug(Attached(table, links));
    match c
    case Slug(s) => s in slugs
    case Model(m) => m.slug in slugs
    case SlugArray(xs) => if xs != [] then Intersect(slugs, xs) == [] else false
    case Collection(ms) => Intersect(PluckSlug(ms), slugs) != []
    case IdArray(_) => false
    case Null => false
  }

  /** `hasAnyCategory`: an alias that answers exactly as `hasCategory` on every input. */
  function HasAnyCategory(table: seq<Category>, links: set<int>, c: CategoryArg): (r: bool)
    ensures r == HasCategory(table, links, c)
  {
    HasCategory(table, links, c)
  }

  /** The slugs an input names, for the inputs that name slugs; none for the others. */
  function NamedSlugs(c: CategoryArg): set<string> {
    match c
    case Slug(s) => {s}
    case Model(m) => {m.slug}
    case SlugArray(xs) => Elems(xs)
    case Collection(ms) => Elems(PluckSlug(ms))
    case IdArray(_) => {}
    case Null => {}
  }

  /**
   * `hasCategory` as its documentation describes it: true exactly when the
   * entity has one of the categories named by slug or by model.
   */
  function HasCategoryIntended(table: seq<Category>, links: set<int>, c: CategoryArg): (r: bool)
    ensures r <==> !(SlugSet(table, links) !! NamedSlugs(c))
  {
    var slugs := PluckSlug(Attached(table, links));
    match c
    case Slug(s) => s in slugs
    case Model(m) => m.slug in slugs
    case SlugArray(xs) => if xs != [] then Intersect(slugs, xs) != [] else false
    case Collection(ms) => Intersect(PluckSlug(ms), slugs) != []
    case IdArray(_) => false
    case Null => false
  }

  /**
   * The two definitions differ exactly on non-empty arrays of slugs, where the
   * written code answers the opposite of the documented one.
   */
  lemma {:induction false} HasCategoryArrayBranchInverted(table: seq<Category>, links: set<int>, c: CategoryArg)
    ensures IsSlugInput(c) && c.SlugArray? ==> HasCategory(table, links, c) == !HasCategoryIntended(table, links, c)
    ensures !(IsSlugInput(c) && c.SlugArray?) ==> HasCategory(table, links, c) == HasCategoryIntended(table, links, c)
  {
  }

  /**
   * A concrete witness: an entity linked only to "news" is reported as not
   * having a category among ["news"], and as having one among ["sports"].
   */
  lemma HasCategoryArrayWitness()
    ensures !HasCategory([Category(1, "news")], {1}, SlugArray(["news"]))
    ensures HasCategory([Category(1, "news")], {1}, SlugArray(["sports"]))
    ensures HasCategoryIntended([Category(1, "news")], {1}, SlugArray(["news"]))
  {
  }

  /**
   * `hasAllCategories`, as written. A single slug or model is a membership
   * test. A collection or a non-empty array of slugs is compared by count and by
   * `diff` on slugs; anything else (an array of keys, the empty array, null) by
   * count and by `diff` on keys, where null counts as no item.
   */
  function HasAllCategories(table: seq<Category>, links: set<int>, c: CategoryArg): (r: bool)
    ensures c.Slug? ==> (r <==> c.slug in SlugSet(table, links))
    ensures c.Model? ==> (r <==> c.category.slug in SlugSet(table, links))
    ensures c.Null? || IsEmptyArray(c) ==> (r <==> IdSet(table, links) == {})
  {
    var owned := Attached(table, links);
    assert owned != [] ==> owned[0].id in IdSet(table, links);
    match c
    case Slug(s) => s in PluckSlug(owned)
    case Model(m) => m.slug in PluckSlug(owned)
    case Collection(ms) =>
      |PluckSlug(owned)| == |ms| && Diff(PluckSlug(owned), PluckSlug(ms)) == []
    case SlugArray(xs) =>
      if xs != [] then |PluckSlug(owned)| == |xs| && Diff(PluckSlug(owned), xs) == []
      else |PluckId(owned)| == 0 && Diff(PluckId(owned), []) == []
    case IdArray(ids) =>
      |PluckId(owned)| == |ids| && Diff(PluckId(owned), ids) == []
    case Null =>
      |PluckId(owned)| == 0 && Diff(PluckId(owned), []) == []
  }

  /**
   * On a valid table, `hasAllCategories` of a list compares the number of the
   * entity's distinct slugs (or keys) with the length of the list and asks that
   * each of them be listed: the entity must have no category outside the list.
   */
  lemma HasAllCategoriesMeaning(table: seq<Category>, links: set<int>, c: CategoryArg)
    requires ValidTable(table)
    ensures c.Collection? ==>
      (HasAllCategories(table, links, c) <==>
        |SlugSet(table, links)| == |c.models| && SlugSet(table, links) <= Elems(PluckSlug(c.models)))
    ensures IsSlugInput(c) && c.SlugArray? ==>
      (HasAllCategories(table, links, c) <==>
        |SlugSet(table, links)| == |c.slugs| && SlugSet(table, links) <= Elems(c.slugs))
    ensures c.IdArray? ==>
      (HasAllCategories(table, links, c) <==>
        |links * TableIds(table)| == |c.ids| && links * TableIds(table) <= Elems(c.ids))
  {
    AttachedCounts(table, links);
  }

  /**
   * For a list of keys without repetitions, and an entity linked only to
   * categories the table holds, `hasAllCategories` is set equality: true
   * exactly when the entity is linked to the listed categories and no other.
   */
  lemma HasAllCategoriesIsIdSetEquality(table: seq<Category>, links: set<int>, ids: seq<int>)
    requires ValidTable(table) && links <= TableIds(table) && Distinct(ids)
    ensures HasAllCategories(table, links, IdArray(ids)) <==> links == Elems(ids)
  {
    HasAllCategoriesMeaning(table, links, IdArray(ids));
    DistinctCard(ids);
    assert links * TableIds(table) == links;
    if links <= Elems(ids) && |links| == |ids| {
      SubsetOfEqualSize(links, Elems(ids));
    }
  }

  /**
   * For a non-empty list of slugs without repetitions, `hasAllCategories` is
   * set equality on slugs: true exactly when the entity's slugs are the listed
   * ones and no others.
   */
  lemma HasAllCategoriesIsSlugSetEquality(table: seq<Category>, links: set<int>, slugs: seq<string>)
    requires ValidTable(table) && slugs != [] && Distinct(slugs)
    ensures HasAllCategories(table, links, SlugArray(slugs)) <==> SlugSet(table, links) == Elems(slugs)
  {
    HasAllCategoriesMeaning(table, links, SlugArray(slugs));
    DistinctCard(slugs);
    if SlugSet(table, links) <= Elems(slugs) && |SlugSet(table, links)| == |slugs| {
      SubsetOfEqualSize(SlugSet(table, links), Elems(slugs));
    }
  }

  /**
   * `hasAllCategories` is not "contains all": an entity linked to "news" and
   * "sports" is not reported as having all of ["news"].
   */
  lemma HasAllCategoriesIsNotContainment()
    ensures "news" in SlugSet([Category(1, "news"), Category(2, "sports")], {1, 2})
    ensures !HasAllCategories([Category(1, "news"), Category(2, "sports")], {1, 2}, SlugArray(["news"]))
  {
  }

  /**
   * The empty PHP array can be spelled with either array variant; every query,
   * the resolved keys and truthiness treat the two spellings alike.
   */
  lemma EmptyArraysAgree(table: seq<Category>, links: set<int>)
    ensures HasCategory(table, links, SlugArray([])) == HasCategory(table, links, IdArray([])) == false
    ensures HasAllCategories(table, links, SlugArray([])) == HasAllCategories(table, links, IdArray([]))
    ensures ResolvedIds(table, SlugArray([])) == ResolvedIds(table, IdArray([])) == {}
    ensures !Truthy(SlugArray([])) && !Truthy(IdArray([]))
  {
  }
}
