/**
 * The `$categories` argument of the categorizable trait's methods, which PHP
 * leaves untyped, and how the trait turns it into category keys: slug inputs
 * are looked up in the categories table (`hydrateIfString`), a single model
 * becomes the list of its key, and the ORM reads keys from what remains.
 */
module Arguments {
  import opened Collections
  import opened Catalogue

  /** One variant per shape of `$categories` that the trait or the ORM tells apart. */
  datatype CategoryArg =
    | Slug(slug: string)                 // a single category slug
    | SlugArray(slugs: seq<string>)      // a PHP array of slugs; [] is the empty array
    | Model(category: Category)          // a single Category model
    | Collection(models: seq<Category>)  // a collection of Category models
    | IdArray(ids: seq<int>)             // a PHP array of category keys; [] is the empty array
    | Null                               // PHP null

  /** The empty PHP array, which both array variants can spell. */
  predicate IsEmptyArray(c: CategoryArg) {
    c == SlugArray([]) || c == IdArray([])
  }

  /**
   * `is_string($c) || (is_array($c) && is_string($c[0]))`. For the empty array
   * `$c[0]` reads as null, so the empty array is not a slug input.
   */
  predicate IsSlugInput(c: CategoryArg) {
    c.Slug? || (c.SlugArray? && c.slugs != [])
  }

  /** `(array) $categories` for a slug input. */
  function SlugList(c: CategoryArg): (r: seq<string>)
    requires IsSlugInput(c)
    ensures r != []
    ensures c.Slug? ==> r == [c.slug]
    ensures c.SlugArray? ==> r == c.slugs
  {
    if c.Slug? then [c.slug] else c.slugs
  }

  /** PHP truthiness: "", "0", the empty array and null are false; objects are true. */
  predicate Truthy(c: CategoryArg) {
    match c
    case Slug(s) => s != "" && s != "0"
    case SlugArray(xs) => xs != []
    case IdArray(xs) => xs != []
    case Model(_) => true
    case Collection(_) => true
    case Null => false
  }

  /**
   * `hydrateIfString`: a slug or an array of slugs becomes the collection of the
   * table rows whose slug is listed, each once; any other input is returned as
   * it is.
   */
  function HydrateIfString(table: seq<Category>, c: CategoryArg): (r: CategoryArg)
    ensures IsSlugInput(c) ==> r.Collection?
    ensures IsSlugInput(c) ==> forall m :: m in r.models <==> m in table && m.slug in SlugList(c)
    ensures IsSlugInput(c) && ValidTable(table) ==> ValidTable(r.models)
    ensures !IsSlugInput(c) ==> r == c
    ensures !IsSlugInput(r)
  {
    if IsSlugInput(c) then Collection(WhereSlugIn(table, SlugList(c))) else c
  }

  /**
   * What `categorize` and `recategorize` hand to the ORM and to their events:
   * the hydrated input, with a single model replaced by the list of its key.
   */
  function SyncArgument(table: seq<Category>, c: CategoryArg): (r: CategoryArg)
    ensures !IsSlugInput(r) && !r.Model?
    ensures IsSlugInput(c) ==> r == HydrateIfString(table, c)
    ensures IsSlugInput(c) ==> forall m :: m in r.models <==> m in table && m.slug in SlugList(c)
    ensures c.Model? ==> r == IdArray([c.category.id])
    ensures !IsSlugInput(c) && !c.Model? ==> r == c
  {
    var h := HydrateIfString(table, c);
    if h.Model? then IdArray([h.category.id]) else h
  }

  /**
   * The category keys the ORM's `sync`, `syncWithoutDetaching` and `detach`
   * read from an argument that carries no slugs: a model's key, a collection's
   * model keys, an array's items, and none for null or the empty array.
   */
  function OrmIds(c: CategoryArg): (r: set<int>)
    requires !IsSlugInput(c)
    ensures IsEmptyArray(c) || c.Null? ==> r == {}
  {
    match c
    case Model(m) => {m.id}
    case Collection(ms) => set m | m in ms :: m.id
    case IdArray(ids) => Elems(ids)
    case SlugArray(_) => {}
    case Null => {}
  }

  /**
   * The keys a mutator links, replaces or unlinks: the table rows matching a
   * slug input (an unmatched slug contributes nothing), exactly the key of a
   * single model, the keys of a collection or of an id array, and nothing for
   * null or the empty array.
   */
  function ResolvedIds(table: seq<Category>, c: CategoryArg): (r: set<int>)
    ensures IsSlugInput(c) ==> r == set m | m in table && m.slug in SlugList(c) :: m.id
    ensures IsSlugInput(c) ==> r <= TableIds(table)
    ensures c.Model? ==> r == {c.category.id}
    ensures c.Collection? ==> r == set m | m in c.models :: m.id
    ensures c.IdArray? ==> r == Elems(c.ids)
    ensures IsEmptyArray(c) || c.Null? ==> r == {}
  {
    OrmIds(SyncArgument(table, c))
  }

  /**
   * `uncategorize` skips the model-to-key step and hands the hydrated input
   * straight to `detach`; the ORM still reads exactly the same keys from it.
   */
  lemma DetachReadsResolvedIds(table: seq<Category>, c: CategoryArg)
    ensures OrmIds(HydrateIfString(table, c)) == ResolvedIds(table, c)
  {
  }
}
