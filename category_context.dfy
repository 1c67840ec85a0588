/** The category provider: the `categories` state shared with the screens, loaded
    from storage once and written back whole after every change. Fresh ids, colours
    and creation instants are parameters. */
module CategoryContext {
  import opened Basics
  import opened Seqs
  import opened Types
  import opened Helpers
  import opened Storage

  /** The list the provider's `updateCategory` sets and saves: every category with the
      id overlaid, the others left as they were. */
  function UpdateEveryCategory(cs: seq<Category>, id: string, u: CategoryUpdate): (r: seq<Category>)
    ensures |r| == |cs|
    ensures forall k :: 0 <= k < |cs| ==> r[k] == if cs[k].id == id then OverlayCategory(cs[k], u) else cs[k]
    ensures (forall k :: 0 <= k < |cs| ==> cs[k].id != id) ==> r == cs
  {
    MapWhere(cs, CategoryIdIs(id), (c: Category) => OverlayCategory(c, u))
  }

  /** When category ids are unique, the provider's every-match update and the storage
      service's first-match update save the same list. */
  lemma UpdatesAgreeOnUniqueIds(cs: seq<Category>, id: string, u: CategoryUpdate)
    requires UniqueCategoryIds(cs)
    ensures UpdateEveryCategory(cs, id, u) == UpdateFirstCategory(cs, id, u)
  {
    var p, f := CategoryIdIs(id), (c: Category) => OverlayCategory(c, u);
    ReplaceFirstIsMapWhere(cs, p, f);
    UpdateFirstCategorySpec(cs, id, u);
  }

  /** With two categories under one id the two updates differ: the provider renames
      both, the storage service only the first. */
  lemma UpdatesDifferOnDuplicateIds(c: Category, name: string)
    requires name != c.name
    ensures var u := CategoryUpdate(Keep, Put(name), Keep, Keep);
      UpdateEveryCategory([c, c], c.id, u) == [c.(name := name), c.(name := name)] &&
      UpdateFirstCategory([c, c], c.id, u) == [c.(name := name), c]
  {
    var u := CategoryUpdate(Keep, Put(name), Keep, Keep);
    assert CategoryIndex([c, c], c.id) == 0;
    var r := UpdateEveryCategory([c, c], c.id, u);
    assert r[0] == c.(name := name) && r[1] == c.(name := name);
  }

  class CategoryProvider {
    /** The `categories` state. */
    var categories: seq<Category>
    const storage: StorageService

    /** The provider after its mount effect has loaded the stored list. */
    constructor (storage: StorageService)
      ensures this.storage == storage && categories == storage.GetCategories()
    {
      this.storage := storage;
      categories := storage.GetCategories();
    }

    /** The state and the stored list are the same list. */
    predicate Synced()
      reads this, storage
    {
      storage.GetCategories() == categories
    }

    /** `addCategory`: a new category with the given name is appended to the state,
        which is then saved. */
    method AddCategory(name: string, newId: string, color: string, now: int)
      modifies this`categories, storage`categories
      ensures categories == old(categories) + [Category(newId, name, color, now)]
      ensures storage.categories == if storage.writesFail then old(storage.categories) else Holds(categories)
      ensures !storage.writesFail ==> Synced()
    {
      var newCategory := Category(newId, name, color, now);
      var updated := categories + [newCategory];
      categories := updated;
      storage.SaveCategories(updated);
    }

    /** `updateCategory`: every category with the id is overlaid; the state is set and
        saved even when nothing matched. */
    method UpdateCategory(id: string, u: CategoryUpdate)
      modifies this`categories, storage`categories
      ensures categories == UpdateEveryCategory(old(categories), id, u)
      ensures storage.categories == if storage.writesFail then old(storage.categories) else Holds(categories)
      ensures !storage.writesFail ==> Synced()
    {
      var updated := MapWhere(categories, CategoryIdIs(id), (c: Category) => OverlayCategory(c, u));
      categories := updated;
      storage.SaveCategories(updated);
    }

    /** `deleteCategory`: every category with the id is dropped; the state is set and
        saved. */
    method DeleteCategory(id: string)
      modifies this`categories, storage`categories
      ensures categories == DeleteCategories(old(categories), id)
      ensures storage.categories == if storage.writesFail then old(storage.categories) else Holds(categories)
      ensures !storage.writesFail ==> Synced()
    {
      var updated := Filter(CategoryIdIsNot(id), categories);
      categories := updated;
      storage.SaveCategories(updated);
    }

    /** `getCategoryById`: the first category of the state with the id, if any (unlike
        the helper of the same name, an empty id is looked up too). */
    function GetCategoryById(id: string): (r: Option<Category>)
      reads this
      ensures r == None <==> forall k :: 0 <= k < |categories| ==> categories[k].id != id
      ensures r.Some? ==> r.value == categories[CategoryIndex(categories, id)]
    {
      FindCategory(categories, id)
    }
  }
}
