/**
 * Uses of a categorizable entity from the outside, relying only on the
 * contracts of its methods: what the lifecycle and the mutators amount to
 * over several calls.
 */
module Scenarios {
  import opened Catalogue
  import opened Arguments
  import opened Queries
  import opened Categorizable

  /**
   * Categories assigned before the entity is stored are linked once it is
   * created, resolved against the table at that moment; a falsy assignment
   * (null, the empty array, "" or even the slug "0") links nothing.
   */
  method AssignThenCreate(table: seq<Category>, c: CategoryArg) returns (links: set<int>, queue: CategoryArg)
    ensures links == if Truthy(c) then ResolvedIds(table, c) else {}
    ensures !Truthy(queue)
  {
    var e := new Entity();
    e.SetCategoriesAttribute(table, c);
    assert e.categories == {};
    e.Created(table);
    links, queue := e.categories, e.queuedCategories;
  }

  /** Two calls of `categorize` link the union of what each resolves to. */
  method CategorizeTwice(table: seq<Category>, c1: CategoryArg, c2: CategoryArg) returns (links: set<int>)
    ensures links == ResolvedIds(table, c1) + ResolvedIds(table, c2)
  {
    var e := new Entity();
    e.Created(table);
    e.Categorize(table, c1);
    e.Categorize(table, c2);
    links := e.categories;
  }

  /** `recategorize` forgets what was linked before. */
  method RecategorizeReplaces(table: seq<Category>, c1: CategoryArg, c2: CategoryArg) returns (links: set<int>)
    ensures links == ResolvedIds(table, c2)
  {
    var e := new Entity();
    e.Created(table);
    e.Categorize(table, c1);
    e.Recategorize(table, c2);
    links := e.categories;
  }

  /** After `uncategorize`, none of the keys it resolved to is linked; all others stay. */
  method UncategorizeRemoves(table: seq<Category>, c1: CategoryArg, c2: CategoryArg) returns (links: set<int>)
    ensures links !! ResolvedIds(table, c2)
    ensures links == ResolvedIds(table, c1) - ResolvedIds(table, c2)
  {
    var e := new Entity();
    e.Created(table);
    e.Categorize(table, c1);
    e.Uncategorize(table, c2);
    links := e.categories;
  }

  /**
   * `uncategorize` on an entity that is not stored yet fires its two events and
   * unlinks nothing, since there is nothing linked.
   */
  method UncategorizeUnsaved(table: seq<Category>, c: CategoryArg) returns (links: set<int>, fired: seq<string>)
    ensures links == {}
    ensures fired == [CategoryRemoving, CategoryRemoved]
  {
    var e := new Entity();
    e.Uncategorize(table, c);
    links := e.categories;
    fired := [e.events[0].name, e.events[1].name];
  }

  /** A small categories table used by the scenario below. */
  function SampleTable(): seq<Category> {
    [Category(1, "news"), Category(2, "sports"), Category(3, "tech")]
  }

  /** The slug "news" resolves to key 1 in the sample table. */
  lemma SampleNews()
    ensures ResolvedIds(SampleTable(), Slug("news")) == {1}
  {
  }

  /** The slugs ["news", "sports"] resolve to keys 1 and 2 in the sample table. */
  lemma SamplePair()
    ensures ResolvedIds(SampleTable(), SlugArray(["news", "sports"])) == {1, 2}
  {
  }

  /** An entity linked to keys 1 and 2 of the sample table has all of ["news", "sports"]. */
  lemma SamplePairHasAll()
    ensures HasAllCategories(SampleTable(), {1, 2}, SlugArray(["news", "sports"]))
  {
  }

  /**
   * Categorizing by slug links each matching category once: after "news" and
   * then ["news", "sports"] the entity has exactly those two categories, and
   * `hasAllCategories` of the pair is true.
   */
  method CategorizeBySlugs() returns (links: set<int>, hasAll: bool)
    ensures links == {1, 2}
    ensures hasAll
  {
    var table := SampleTable();
    SampleNews();
    SamplePair();
    var e := new Entity();
    e.Created(table);
    e.Categorize(table, Slug("news"));
    e.Categorize(table, SlugArray(["news", "sports"]));
    links := e.categories;
    hasAll := HasAllCategories(table, links, SlugArray(["news", "sports"]));
    SamplePairHasAll();
  }
}
