/**
 * An entity that uses the categorizable trait: the two-state lifecycle (not
 * yet created, created) with its queue of category assignments, and the three
 * mutators of the entity's category links, each firing a "before" and an
 * "after" event around the change.
 */
module Categorizable {
  import opened Catalogue
  import opened Arguments

  const CategoryAdding: string := "rinvex.fort.category.adding"
  const CategoryAdded: string := "rinvex.fort.category.added"
  const CategorySyncing: string := "rinvex.fort.category.syncing"
  const CategorySynced: string := "rinvex.fort.category.synced"
  const CategoryRemoving: string := "rinvex.fort.category.removing"
  const CategoryRemoved: string := "rinvex.fort.category.removed"

  /**
   * A fired event: its name, the category keys the link table held for the
   * entity when it was fired, and the `$categories` argument it carries.
   */
  datatype Event = Event(name: string, links: set<int>, categories: CategoryArg)

  class Entity {
    /** Eloquent's `exists`: whether the entity has been stored yet. */
    var stored: bool
    /** `$queuedCategories`: what was assigned before the entity was stored. */
    var queuedCategories: CategoryArg
    /** The keys of the categories the link table holds for this entity. */
    var categories: set<int>
    /** The events fired for this entity, oldest first. */
    var events: seq<Event>

    /**
     * An entity that is not stored yet has no links; once it is stored, its
     * queue holds nothing the created hook would still apply.
     */
    ghost predicate Valid()
      reads this
    {
      && (!stored ==> categories == {})
      && (stored ==> !Truthy(queuedCategories))
    }

    /** A new, not yet stored entity: the queue is the empty array. */
    constructor ()
      ensures Valid() && !stored
      ensures queuedCategories == IdArray([]) && categories == {} && events == []
    {
      stored := false;
      queuedCategories := IdArray([]);
      categories := {};
      events := [];
    }

    /**
     * `setCategoriesAttribute`: before the entity is stored the assignment only
     * overwrites the queue; afterwards it categorizes at once.
     */
    method SetCategoriesAttribute(table: seq<Category>, c: CategoryArg)
      requires Valid()
      modifies this
      ensures Valid() && stored == old(stored)
      ensures !stored ==>
        && queuedCategories == c
        && categories == old(categories)
        && events == old(events)
      ensures stored ==>
        && queuedCategories == old(queuedCategories)
        && categories == old(categories) + ResolvedIds(table, c)
        && events == old(events) + [
             Event(CategoryAdding, old(categories), SyncArgument(table, c)),
             Event(CategoryAdded, categories, SyncArgument(table, c))]
    {
      if !stored {
        queuedCategories := c;
        return;
      }
      Categorize(table, c);
    }

    /**
     * The entity is stored, and the created hook of `bootCategorizable` runs: a
     * truthy queue is categorized, against the table as it is now, and then
     * emptied; a falsy one (null, the empty array, "" or "0") is left alone and
     * links nothing.
     */
    method Created(table: seq<Category>)
      requires Valid() && !stored
      modifies this
      ensures Valid() && stored
      ensures Truthy(old(queuedCategories)) ==>
        && categories == ResolvedIds(table, old(queuedCategories))
        && queuedCategories == IdArray([])
        && events == old(events) + [
             Event(CategoryAdding, {}, SyncArgument(table, old(queuedCategories))),
             Event(CategoryAdded, categories, SyncArgument(table, old(queuedCategories)))]
      ensures !Truthy(old(queuedCategories)) ==>
        && categories == {}
        && queuedCategories == old(queuedCategories)
        && events == old(events)
    {
      stored := true;
      if Truthy(queuedCategories) {
        Categorize(table, queuedCategories);
        queuedCategories := IdArray([]);
      }
    }

    // The mutators do not ask for Valid(): the created hook calls `categorize`
    // while the queue is still set. On an entity that is not stored yet the
    // link queries match no row (its key is null), so they fire their events
    // and change nothing; what they would insert there is excluded. They touch
    // neither `stored` nor the queue, so they keep Valid().

    /**
     * `categorize`: links the resolved keys without removing any link
     * (`syncWithoutDetaching`), between the "adding" and "added" events.
     */
    method Categorize(table: seq<Category>, c: CategoryArg)
      requires stored || (categories == {} && ResolvedIds(table, c) == {})
      modifies this`categories, this`events
      ensures categories == old(categories) + ResolvedIds(table, c)
      ensures old(categories) <= categories
      ensures events == old(events) + [
        Event(CategoryAdding, old(categories), SyncArgument(table, c)),
        Event(CategoryAdded, categories, SyncArgument(table, c))]
    {
      var arg := HydrateIfString(table, c);
      if arg.Model? {
        arg := IdArray([arg.category.id]);
      }
      events := events + [Event(CategoryAdding, categories, arg)];
      categories := categories + OrmIds(arg);
      events := events + [Event(CategoryAdded, categories, arg)];
    }

    /**
     * `recategorize`: the links become exactly the resolved keys, whatever they
     * were (`sync`), between the "syncing" and "synced" events.
     */
    method Recategorize(table: seq<Category>, c: CategoryArg)
      requires stored || (categories == {} && ResolvedIds(table, c) == {})
      modifies this`categories, this`events
      ensures categories == ResolvedIds(table, c)
      ensures events == old(events) + [
        Event(CategorySyncing, old(categories), SyncArgument(table, c)),
        Event(CategorySynced, categories, SyncArgument(table, c))]
    {
      var arg := HydrateIfString(table, c);
      if arg.Model? {
        arg := IdArray([arg.category.id]);
      }
      events := events + [Event(CategorySyncing, categories, arg)];
      categories := OrmIds(arg);
      events := events + [Event(CategorySynced, categories, arg)];
    }

    /**
     * `uncategorize`: unlinks the resolved keys (`detach`), between the
     * "removing" and "removed" events, which carry the hydrated input as it is.
     * Keys the entity is not linked to change nothing.
     */
    method Uncategorize(table: seq<Category>, c: CategoryArg)
      requires stored || categories == {}
      modifies this`categories, this`events
      ensures categories == old(categories) - ResolvedIds(table, c)
      ensures old(categories) !! ResolvedIds(table, c) ==> categories == old(categories)
      ensures events == old(events) + [
        Event(CategoryRemoving, old(categories), HydrateIfString(table, c)),
        Event(CategoryRemoved, categories, HydrateIfString(table, c))]
    {
      var arg := HydrateIfString(table, c);
      events := events + [Event(CategoryRemoving, categories, arg)];
      DetachReadsResolvedIds(table, c);
      categories := categories - OrmIds(arg);
      events := events + [Event(CategoryRemoved, categories, arg)];
    }
  }
}
