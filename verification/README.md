# Categorizable: a Dafny model of the category association engine

This project models the `Categorizable` trait of the Rinvex Category package, a
Laravel package that lets any Eloquent model be tagged with categories. The
trait is the package's only logic of its own. It covers three things:

- a two-state lifecycle. Before the entity is stored, category assignments wait in
  `$queuedCategories`. A created hook applies that queue once and empties it.
- three mutators of the entity's category links: `categorize` (union),
  `recategorize` (replacement) and `uncategorize` (difference). Each fires a
  "before" event and an "after" event around the change.
- membership predicates: `hasCategory`, its alias `hasAnyCategory`, and
  `hasAllCategories`.

Every one of these accepts an untyped `$categories` argument. When it is a slug
or an array of slugs, it is resolved against the categories table
(`hydrateIfString`).

The database is replaced by values:

- The categories table is a sequence of rows `Category(id, slug)`. In a valid
  table no row repeats, and the key and the slug each identify a row, so the
  table is an injective map from keys to slugs (`Catalogue`).
- An entity's links are a `set<int>` of category keys. The link table's unique
  key on (category, entity, entity type) is what makes a set the right shape.
- The event dispatcher is an append-only log on the entity. Each entry holds the
  event name and the `$categories` payload. It also holds the links the link
  table held for the entity at that moment. This is enough to state that the
  "before" event comes before the change and the "after" event after it.

The argument is a datatype with one variant per shape the code tells apart:

- a slug
- an array of slugs
- a single `Category` model
- a collection of models
- an array of keys
- PHP `null`

The empty PHP array can be spelled as either array variant. `EmptyArraysAgree`
proves that every query, the resolved keys and truthiness treat the two
spellings alike. The queue and the event payloads keep the spelling they were
given.

Modules:

- `Collections`: the Laravel collection operations the trait uses
  (`intersect`, `diff`), plus counting lemmas.
- `Catalogue`: the table, the slug lookup and the entity's loaded `categories`
  relation.
- `Arguments`: the argument type, `hydrateIfString` and the keys the ORM reads.
- `Queries`: the predicates.
- `Categorizable`: the entity as a class with the lifecycle and the mutators.
- `Scenarios`: clients that use only the entity's contracts.

Two behaviours are modelled as written:

- The slug-array branch of `hasCategory` lacks a negation. It answers true
  when the entity has none of the listed slugs (see Findings).
- `hasAllCategories` on a list is set equality, not containment. It compares
  the count of the entity's categories with the list's length, and checks that
  none of the entity's categories is missing from the list.
  `HasAllCategoriesIsIdSetEquality` and `HasAllCategoriesIsSlugSetEquality`
  prove this. `HasAllCategoriesIsNotContainment` gives an input that shows it.

The queue is tested with PHP truthiness (`if ($queuedCategories)`). So a queued
`null`, empty array, `""` or even the slug `"0"` links nothing when the entity is
created. A queued collection is an object and therefore always truthy, even
when it is empty.

The event names are the ones the code fires, such as
`rinvex.fort.category.adding`.

## Model

| member | source | states |
|---|---|---|
| `Catalogue.WhereSlugIn` | src/Categorizable.php:255 | the slug lookup returns exactly the table rows whose slug is listed, and in a valid table each of them once |
| `Catalogue.Attached` | src/Categorizable.php:39-42 | the entity's loaded categories are exactly the table rows whose key it is linked to, each once in a valid table |
| `Catalogue.AttachedCounts` | src/Categorizable.php:237-242 | in a valid table, plucking slugs or keys from the loaded categories gives lists without repetitions: their counts are the numbers of distinct linked slugs and keys, and the keys are the links the table holds |
| `Arguments.SlugList` | src/Categorizable.php:255 | `(array) $categories` of a slug input is a non-empty list: `[slug]` for a single slug, the array itself for an array of slugs |
| `Arguments.HydrateIfString` | src/Categorizable.php:252-256 | a slug, or an array whose first item is a slug, becomes a collection of exactly the table rows whose slug is listed; unmatched slugs contribute nothing; every other input, the empty array included, passes through unchanged |
| `Arguments.SyncArgument` | src/Categorizable.php:100-105 | what `categorize` and `recategorize` pass to the ORM and to their events holds no slug and no single model: a slug input becomes the hydrated collection of exactly the matching table rows; a single model becomes the one-item list of its key; other inputs are unchanged |
| `Arguments.OrmIds` | src/Categorizable.php:111 | the ORM reads no keys from null or the empty array |
| `Arguments.ResolvedIds` | src/Categorizable.php:97-111 | the keys a mutator acts on: the keys of the table rows whose slug is listed, all of them in the table; exactly a single model's own key; a collection's model keys; an array's keys; none for null or the empty array |
| `Arguments.DetachReadsResolvedIds` | src/Categorizable.php:158-164 | `uncategorize`, which hands a single model to `detach` without taking its key, still acts on exactly the same keys as the other two mutators |
| `Queries.HasCategory` | src/Categorizable.php:179-202 | single slug or model: true iff that slug is among the entity's slugs; non-empty slug array: true iff none of the listed slugs is the entity's (as written); collection: true iff the entity has one of its slugs; key array, empty array or null: false |
| `Queries.HasAnyCategory` | src/Categorizable.php:211-214 | answers exactly as `hasCategory` on every input |
| `Queries.HasCategoryIntended` | src/Categorizable.php:172-202 | true iff the entity has one of the categories the input names by slug or by model (the documented meaning) |
| `Queries.HasCategoryArrayBranchInverted` | src/Categorizable.php:191-194 | the written and the documented `hasCategory` disagree on every non-empty slug array and agree on every other input |
| `Queries.HasCategoryArrayWitness` | src/Categorizable.php:193 | an entity linked only to "news" is reported as not having one of ["news"] and as having one of ["sports"] |
| `Queries.HasAllCategories` | src/Categorizable.php:223-243 | single slug or model: true iff that slug is among the entity's slugs; null or the empty array: true iff the entity has no categories |
| `Queries.HasAllCategoriesMeaning` | src/Categorizable.php:235-242 | on a slug list or collection: true iff the number of the entity's slugs equals the input's length and each of the entity's slugs is in the input; on a key list: the same check on the keys |
| `Queries.HasAllCategoriesIsIdSetEquality` | src/Categorizable.php:241-242 | for a key list without repetitions, true iff the entity's links are exactly the listed keys |
| `Queries.HasAllCategoriesIsSlugSetEquality` | src/Categorizable.php:236-238 | for a non-empty slug list without repetitions, true iff the entity's slugs are exactly the listed slugs |
| `Queries.HasAllCategoriesIsNotContainment` | src/Categorizable.php:216-243 | an entity linked to "news" and "sports" has "news", yet is not reported as having all of ["news"] |
| `Queries.EmptyArraysAgree` | src/Categorizable.php:192 | both spellings of the empty array resolve to no keys, are falsy, make `hasCategory` false and give the same `hasAllCategories` |
| `Categorizable.Entity.constructor` | src/Categorizable.php:32 | a new entity is not stored, its queue is the empty array, and it has no links and no events |
| `Categorizable.Entity.SetCategoriesAttribute` | src/Categorizable.php:51-60 | before the entity is stored, it only overwrites the queue: links and events are unchanged; afterwards it categorizes and leaves the queue alone |
| `Categorizable.Entity.Created` | src/Categorizable.php:67-76 | the entity becomes stored; a truthy queue is categorized against the current table and then emptied; a falsy queue is left as it is, links nothing and fires nothing |
| `Categorizable.Entity.Categorize` | src/Categorizable.php:97-117 | links become old links ∪ resolved keys, and nothing is removed; the "adding" event sees the old links, the "added" event the new ones, and both carry the same payload |
| `Categorizable.Entity.Recategorize` | src/Categorizable.php:126-146 | links become exactly the resolved keys, whatever they were, between the "syncing" and "synced" events |
| `Categorizable.Entity.Uncategorize` | src/Categorizable.php:155-170 | on a stored or an unsaved entity, links become old links minus the resolved keys; when none of them was linked nothing changes; between the "removing" and "removed" events, which carry the hydrated input |
| `Scenarios.AssignThenCreate` | src/Categorizable.php:51-76 | categories assigned before creation are, once created, exactly the links (if the assignment was truthy), and the queue is left falsy |
| `Scenarios.CategorizeTwice` | src/Categorizable.php:97-117 | two `categorize` calls link the union of what each resolves to |
| `Scenarios.RecategorizeReplaces` | src/Categorizable.php:126-146 | after `categorize` then `recategorize`, only the second call's keys are linked |
| `Scenarios.UncategorizeRemoves` | src/Categorizable.php:155-170 | after `uncategorize`, none of its keys is linked and every other link stays |
| `Scenarios.UncategorizeUnsaved` | src/Categorizable.php:155-170 | on an entity not stored yet, `uncategorize` fires "removing" then "removed" and leaves it with no links |
| `Scenarios.CategorizeBySlugs` | src/Categorizable.php:97-117 | categorizing "news" then ["news", "sports"] links exactly those two categories, and `hasAllCategories` of the pair is true |

## Findings

| source | as written | input that shows it | evidently intended | confidence | as-written member | corrected member |
|---|---|---|---|---|---|---|
| src/Categorizable.php:193 | the slug-array branch of `hasCategory` returns `intersect(...)->isEmpty()` | an entity linked only to "news": `hasCategory(['news'])` is false and `hasCategory(['sports'])` is true | `! ...->isEmpty()`, as the collection branch at line 198 has it and as the doc comment at line 173 ("has (one of) the given categories") describes | high; not executed | `Queries.HasCategory` (witness `Queries.HasCategoryArrayWitness`) | `Queries.HasCategoryIntended` |

`HasAnyCategory` keeps the written behaviour, because the code defines it as an
alias of the written `hasCategory`.

## Left out

- src/Category.php is not part of this model. The tree (`toTree`) and slug
  generation belong to third-party libraries. The relations are ORM
  declarations. A category is reduced to its key and its slug, and the slug is
  taken to be unique.
- `categoriesList` (src/Categorizable.php:85-88) is a plain ORM query and is not modelled.
- The relation's `orderBy('order')` and `withTimestamps()` are not modelled. Order and timestamps do not affect any result modelled here.
- The event dispatcher is a log. Listeners, observers and vetoes are not modelled.
- Categorizable.Entity.Uncategorize: `detach` is modelled as set difference. The
  ORM of that Laravel generation reads an empty key list as "detach
  everything". So in the real system, uncategorizing slugs that match no
  category (or null, or the empty array) removes every link. The ORM is not
  part of this model.
- Categorizable.Entity.Uncategorize also accepts an unsaved entity. Its key is
  null, so the delete matches no row: both events fire and nothing changes.
- Categorizable.Entity.Categorize and Recategorize accept an unsaved entity only
  when nothing resolves, and then both events fire and nothing changes. When
  keys do resolve, the insert would write link rows whose entity key is null.
  The link table's non-null column refuses them, and that error path is not
  modelled.
- Keys with no row are not rejected. The link table's foreign key would reject
  a key the categories table lacks (for example from a key array), but this is
  database behaviour. The model links such a key. Cascade deletion of links is
  not modelled either.
- Queries.HasCategory and Queries.HasAllCategories read the entity's current
  links. In the source, `$this->categories` is Eloquent's loaded relation, which
  is cached on the instance after the first read. `sync`,
  `syncWithoutDetaching` and `detach` do not refresh that cache. So in the
  source, `hasCategory('news')`, then `categorize('news')`, then
  `hasCategory('news')` answers false the second time as well. The model does
  not capture the cached snapshot.
- Queries.HasCategory and Queries.HasAllCategories compare a collection's models
  by their slugs, which is what the code intends but not what it does. The
  library's `intersect` and `diff` compare each model object with slug strings.
  Base collections cast a model to its JSON text, which never equals a slug.
  Eloquent's `intersect` calls `getKey()` on each slug string. So as written, a
  collection never matches by slug: the collection branch of `hasCategory`
  answers false (or fails), and `hasAllCategories` holds only for an empty
  collection and an entity with no categories.
- Queries.HasCategory and Queries.HasAllCategories use exact slug equality.
  `contains('slug', ...)` uses PHP's loose `==`, under which numeric-looking
  slugs such as "10" and "1e1" compare equal.
- The `Null` variant covers only PHP `null`. Other unrecognised arguments are
  not modelled: an integer, a boolean, an array mixing slugs and keys, or an
  array without a key 0.
- The empty array's `$categories[0]` is read as PHP reads it, as null. Laravel
  turns the accompanying notice into an exception, and that is not modelled.
  Likewise, the warning that newer PHP versions raise for `count(null)` is not
  modelled.
- Transactions, concurrency, config/config.php, the migration and
  src/CategoryServiceProvider.php are framework and database plumbing.
