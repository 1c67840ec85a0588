/** The persisted settings: the category list under `task-manager-categories` and the
    colour theme under `task-manager-theme`. Every category operation reads the
    whole list, edits it and writes it back. */
module Storage {
  import opened Basics
  import opened Seqs
  import opened Types

  // ---------------------------------------------------------------- the list edits

  /** `categories.findIndex(cat => cat.id === id)`. */
  function CategoryIndex(cs: seq<Category>, id: string): (i: int)
    ensures -1 <= i < |cs|
    ensures i == -1 <==> forall k :: 0 <= k < |cs| ==> cs[k].id != id
    ensures 0 <= i ==> cs[i].id == id && forall k :: 0 <= k < i ==> cs[k].id != id
  {
    FirstIndex(cs, CategoryIdIs(id))
  }

  /** The list `updateCategory` saves: the first category with the id overlaid. */
  function UpdateFirstCategory(cs: seq<Category>, id: string, u: CategoryUpdate): seq<Category> {
    var i := CategoryIndex(cs, id);
    if i == -1 then cs else cs[i := OverlayCategory(cs[i], u)]
  }

  function CategoryIdIsNot(id: string): Category -> bool {
    (c: Category) => c.id != id
  }

  /** `categories.filter(cat => cat.id !== id)`: the list both delete operations save. */
  function DeleteCategories(cs: seq<Category>, id: string): seq<Category> {
    Filter(CategoryIdIsNot(id), cs)
  }

  /** Only the first category with the id is overlaid (the edit `ReplaceFirst`
      describes); every other entry and the length stay as they were. */
  lemma UpdateFirstCategorySpec(cs: seq<Category>, id: string, u: CategoryUpdate)
    ensures UpdateFirstCategory(cs, id, u) ==
      ReplaceFirst(cs, CategoryIdIs(id), (c: Category) => OverlayCategory(c, u))
    ensures |UpdateFirstCategory(cs, id, u)| == |cs|
    ensures forall k :: 0 <= k < |cs| && k != CategoryIndex(cs, id) ==>
      UpdateFirstCategory(cs, id, u)[k] == cs[k]
    ensures (forall k :: 0 <= k < |cs| ==> cs[k].id != id) ==> UpdateFirstCategory(cs, id, u) == cs
  {
    ReplaceFirstAt(cs, CategoryIdIs(id), (c: Category) => OverlayCategory(c, u));
  }

  /** A delete leaves no category with the id and keeps every other one, as often as
      before and in order; an absent id leaves the list as it was. */
  lemma DeleteCategoriesSpec(cs: seq<Category>, id: string)
    ensures forall c :: c in DeleteCategories(cs, id) ==> c.id != id
    ensures forall c: Category :: c.id != id ==> multiset(DeleteCategories(cs, id))[c] == multiset(cs)[c]
    ensures IsSubsequence(DeleteCategories(cs, id), cs)
    ensures (forall k :: 0 <= k < |cs| ==> cs[k].id != id) ==> DeleteCategories(cs, id) == cs
  {
    FilterIsSubsequence(CategoryIdIsNot(id), cs);
    FilterCounts(CategoryIdIsNot(id), cs);
    if forall k :: 0 <= k < |cs| ==> cs[k].id != id {
      FilterKeepsAll(CategoryIdIsNot(id), cs);
    }
  }

  /** The two colour themes the application knows. */
  predicate IsTheme(s: string) {
    s == "light" || s == "dark"
  }

  // ---------------------------------------------------------------- the service

  class StorageService {
    /** The stored category list. */
    var categories: Slot<seq<Category>>
    /** The stored theme string. */
    var theme: Slot<string>
    /** Whether `localStorage.setItem` throws; the error is swallowed and the write lost. */
    var writesFail: bool

    constructor (categories: Slot<seq<Category>>, theme: Slot<string>, writesFail: bool)
      ensures this.categories == categories && this.theme == theme && this.writesFail == writesFail
    {
      this.categories := categories;
      this.theme := theme;
      this.writesFail := writesFail;
    }

    /** `getCategories`: the stored list, or `[]` when nothing is stored or it cannot
        be read. */
    function GetCategories(): (r: seq<Category>)
      reads this
      ensures categories.Holds? ==> r == categories.value
      ensures !categories.Holds? ==> r == []
    {
      match categories
      case Holds(cs) => cs
      case _ => []
    }

    /** The category key's content after `saveCategories(cs)`. */
    function AfterSave(cs: seq<Category>): Slot<seq<Category>>
      reads this
    {
      if writesFail then categories else Holds(cs)
    }

    /** `saveCategories`: a later read gives back what was saved, unless the write
        failed. */
    method SaveCategories(cs: seq<Category>)
      modifies this`categories
      ensures categories == old(AfterSave(cs))
      ensures !writesFail ==> GetCategories() == cs
    {
      if !writesFail {
        categories := Holds(cs);
      }
    }

    /** `addCategory`: the category is pushed at the end of the stored list. */
    method AddCategory(c: Category)
      modifies this`categories
      ensures categories == old(AfterSave(GetCategories() + [c]))
    {
      var cs := GetCategories();
      cs := cs + [c];
      SaveCategories(cs);
    }

    /** `updateCategory`: the first category with the id is overlaid and the list saved;
        with no such category nothing is written. */
    method UpdateCategory(id: string, u: CategoryUpdate)
      modifies this`categories
      ensures CategoryIndex(old(GetCategories()), id) == -1 ==> categories == old(categories)
      ensures CategoryIndex(old(GetCategories()), id) != -1 ==>
        categories == old(AfterSave(UpdateFirstCategory(GetCategories(), id, u)))
    {
      var cs := GetCategories();
      var index := CategoryIndex(cs, id);
      if index != -1 {
        cs := cs[index := OverlayCategory(cs[index], u)];
        SaveCategories(cs);
      }
    }

    /** `deleteCategory`: every category with the id is dropped; the list is saved even
        when nothing matched. */
    method DeleteCategory(id: string)
      modifies this`categories
      ensures categories == old(AfterSave(DeleteCategories(GetCategories(), id)))
    {
      var cs := GetCategories();
      var filtered := Filter(CategoryIdIsNot(id), cs);
      SaveCategories(filtered);
    }

    /** `getTheme`: whatever non-empty string is stored, otherwise `"light"` (nothing
        stored, an empty string, or a read error). */
    function GetTheme(): (r: string)
      reads this
      ensures r != []
      ensures r != "light" ==> theme == Holds(r)
      ensures theme.Holds? && theme.value != "" ==> r == theme.value
    {
      match theme
      case Holds(s) => if s != "" then s else "light"
      case _ => "light"
    }

    /** `saveTheme`: a later `getTheme` gives back the saved theme, unless the write
        failed. */
    method SaveTheme(t: string)
      requires IsTheme(t)
      modifies this`theme
      ensures theme == if writesFail then old(theme) else Holds(t)
      ensures !writesFail ==> GetTheme() == t
    {
      if !writesFail {
        theme := Holds(t);
      }
    }
  }
}
