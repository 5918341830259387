/**
 * The categories table as the categorizable trait sees it: rows with a key and
 * a unique slug, the slug lookup `Category::whereIn('slug', ...)->get()`, and
 * the entity's loaded `categories` relation.
 */
module Catalogue {
  import opened Collections

  /** A row of the categories table, reduced to what the trait reads: its key and its slug. */
  datatype Category = Category(id: int, slug: string)

  /**
   * The categories table: no row twice, and the key and the slug each identify a
   * row, so the table is an injective map from keys to slugs.
   */
  predicate ValidTable(table: seq<Category>) {
    && Distinct(table)
    && (forall m, n | m in table && n in table && m.id == n.id :: m == n)
    && (forall m, n | m in table && n in table && m.slug == n.slug :: m == n)
  }

  /** A query on the table: the rows that satisfy `p`, in table order. */
  function Where(table: seq<Category>, p: Category -> bool): (r: seq<Category>)
    ensures forall m :: m in r <==> m in table && p(m)
    ensures Distinct(table) ==> Distinct(r)
    ensures |r| <= |table|
  {
    if table == [] then []
    else
      var rest := Where(table[1..], p);
      assert forall m :: m in table <==> m == table[0] || m in table[1..] by {
        assert table == [table[0]] + table[1..];
      }
      assert Distinct(table) ==> Distinct(table[1..]) && table[0] !in table[1..] by {
        if Distinct(table) { DistinctTail(table); }
      }
      if p(table[0]) then [table[0]] + rest else rest
  }

  /** `Category::whereIn('slug', $slugs)->get()`: the rows whose slug is listed. */
  function WhereSlugIn(table: seq<Category>, slugs: seq<string>): (r: seq<Category>)
    ensures forall m :: m in r <==> m in table && m.slug in slugs
    ensures ValidTable(table) ==> ValidTable(r)
  {
    Where(table, (m: Category) => m.slug in slugs)
  }

  /**
   * `$this->categories`: the rows the entity is linked to, given the set of
   * category keys its link rows hold.
   */
  function Attached(table: seq<Category>, links: set<int>): (r: seq<Category>)
    ensures forall m :: m in r <==> m in table && m.id in links
    ensures ValidTable(table) ==> ValidTable(r)
  {
    Where(table, (m: Category) => m.id in links)
  }

  /** `->pluck('slug')`. */
  function PluckSlug(ms: seq<Category>): (r: seq<string>)
    ensures |r| == |ms|
    ensures forall i | 0 <= i < |ms| :: r[i] == ms[i].slug
    ensures Elems(r) == set m | m in ms :: m.slug
  {
    if ms == [] then [] else [ms[0].slug] + PluckSlug(ms[1..])
  }

  /** `->pluck('id')`. */
  function PluckId(ms: seq<Category>): (r: seq<int>)
    ensures |r| == |ms|
    ensures forall i | 0 <= i < |ms| :: r[i] == ms[i].id
    ensures Elems(r) == set m | m in ms :: m.id
  {
    if ms == [] then [] else [ms[0].id] + PluckId(ms[1..])
  }

  /** The slugs of the categories an entity is linked to, as a set. */
  function SlugSet(table: seq<Category>, links: set<int>): set<string> {
    set m | m in table && m.id in links :: m.slug
  }

  /** The keys of the categories an entity is linked to that the table holds. */
  function IdSet(table: seq<Category>, links: set<int>): set<int> {
    set m | m in table && m.id in links :: m.id
  }

  /** The keys the table holds. */
  function TableIds(table: seq<Category>): set<int> {
    set m | m in table :: m.id
  }

  /**
   * In a valid table the entity's loaded categories pluck to lists without
   * repetitions, so counting them counts the entity's distinct slugs and keys.
   */
  lemma AttachedCounts(table: seq<Category>, links: set<int>)
    requires ValidTable(table)
    ensures Elems(PluckSlug(Attached(table, links))) == SlugSet(table, links)
    ensures Elems(PluckId(Attached(table, links))) == IdSet(table, links)
    ensures |PluckSlug(Attached(table, links))| == |SlugSet(table, links)|
    ensures |PluckId(Attached(table, links))| == |IdSet(table, links)|
    ensures IdSet(table, links) == links * TableIds(table)
  {
    var owned := Attached(table, links);
    var slugs, ids := PluckSlug(owned), PluckId(owned);
    assert Distinct(slugs) by {
      forall i, j | 0 <= i < j < |slugs| ensures slugs[i] != slugs[j] {
        assert owned[i] in table && owned[j] in table;
      }
    }
    assert Distinct(ids) by {
      forall i, j | 0 <= i < j < |ids| ensures ids[i] != ids[j] {
        assert owned[i] in table && owned[j] in table;
      }
    }
    DistinctCard(slugs);
    DistinctCard(ids);
  }
}
