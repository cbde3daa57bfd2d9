/** The categories screen: the built-in list that seeds an empty store, the
    validated add, and the delete guarded by the constant built-in names. */
module Categories {
  import opened Common
  import opened Text
  import opened Records
  import opened Storage

  /** `inBuiltCategories`: the 14 categories the store is seeded with. */
  const BuiltInCategories: seq<Category> := [
    Category("Health", "fitness-outline", "#4CAF50"),
    Category("Work", "briefcase-outline", "#2196F3"),
    Category("Personal", "person-outline", "#FFC107"),
    Category("Hobby", "brush-outline", "#9C27B0"),
    Category("Quit a Bad Habit", "ban-outline", "#E53935"),
    Category("Art", "color-palette-outline", "#673AB7"),
    Category("Meditation", "flower-outline", "#00ACC1"),
    Category("Study", "school-outline", "#3F51B5"),
    Category("Entertainment", "musical-notes-outline", "#F44336"),
    Category("Sports", "football-outline", "#4CAF50"),
    Category("Social", "people-outline", "#03A9F4"),
    Category("Nutrition", "nutrition-outline", "#FF9800"),
    Category("Finance", "wallet-outline", "#795548"),
    Category("Other", "ellipsis-horizontal-outline", "#9E9E9E")
  ]

  /** `inBuiltCategories.some(c => c.name === name)`: decided by the constant
      list alone, never by the stored records. */
  predicate IsBuiltIn(name: string)
  {
    exists i :: 0 <= i < |BuiltInCategories| && BuiltInCategories[i].name == name
  }

  /** `addCategory`'s check and record: rejected when the trimmed name is
      empty or no icon or colour is chosen; otherwise the record carries the
      trimmed name. */
  function NewCategory(name: string, icon: string, color: string): (r: Option<Category>)
    ensures r.None? <==> IsBlank(name) || icon == "" || color == ""
    ensures r.Some? ==> r.value.name == Trim(name) && r.value.name != ""
    ensures r.Some? ==> r.value.icon == icon && r.value.color == color
  {
    if IsBlank(name) || icon == "" || color == "" then None
    else Some(Category(Trim(name), icon, color))
  }

  /** `deleteCategory`'s filter: drops every record with the name. */
  function WithoutCategory(categories: seq<Category>, name: string): (r: seq<Category>)
    ensures forall c :: c in r <==> c in categories && c.name != name
  {
    Filter(categories, (c: Category) => c.name != name)
  }

  /** The delete button is drawn for a record exactly when its name is not
      built in. */
  predicate DeleteOffered(c: Category)
  {
    !IsBuiltIn(c.name)
  }

  /** Every built-in category is among the records. */
  predicate HasAllBuiltIns(categories: seq<Category>)
  {
    forall i :: 0 <= i < |BuiltInCategories| ==> BuiltInCategories[i] in categories
  }

  /** The seed holds 14 categories with distinct names, and every one of them. */
  lemma SeedShape()
    ensures |BuiltInCategories| == 14
    ensures forall i, j :: 0 <= i < j < |BuiltInCategories| ==> BuiltInCategories[i].name != BuiltInCategories[j].name
    ensures HasAllBuiltIns(BuiltInCategories)
  {
  }

  /** Once the records hold all built-ins, adding and (guarded) deleting keep
      them all: a delete that gets past the guard never removes a built-in. */
  lemma {:induction false} BuiltInsSurvive(categories: seq<Category>, c: Category, name: string)
    requires HasAllBuiltIns(categories)
    ensures HasAllBuiltIns(categories + [c])
    ensures !IsBuiltIn(name) ==> HasAllBuiltIns(WithoutCategory(categories, name))
  {
    if !IsBuiltIn(name) {
      forall i | 0 <= i < |BuiltInCategories|
        ensures BuiltInCategories[i] in WithoutCategory(categories, name)
      {
        assert BuiltInCategories[i].name != name;
      }
    }
  }

  /** The button and the guard agree: a record offered for deletion is never
      one of the built-in records, and no built-in record is offered. */
  lemma OfferedDeleteNotBuiltIn(c: Category)
    ensures DeleteOffered(c) ==> c !in BuiltInCategories
    ensures forall i :: 0 <= i < |BuiltInCategories| ==> !DeleteOffered(BuiltInCategories[i])
  {
  }

  /** The categories screen's state: the records and the add form's fields. */
  class CategoriesScreen {
    var categories: seq<Category>
    var newCategoryName: string
    var selectedIcon: string
    var selectedColor: string

    constructor ()
      ensures categories == [] && newCategoryName == "" && selectedIcon == "" && selectedColor == ""
    {
      categories := [];
      newCategoryName, selectedIcon, selectedColor := "", "", "";
    }

    /** `fetchCategories`: the stored list if the key is present (even an
        empty one); otherwise the built-ins, which are also written back. */
    method FetchCategories(store: Store)
      modifies this`categories, store`categories
      ensures old(store.categories).Some? ==> categories == old(store.categories).value && store.categories == old(store.categories)
      ensures old(store.categories).None? ==> categories == BuiltInCategories && store.categories == Some(BuiltInCategories)
    {
      match store.categories
      case Some(stored) =>
        categories := stored;
      case None =>
        categories := BuiltInCategories;
        store.categories := Some(BuiltInCategories);
    }

    /** `addCategory`: an invalid form changes nothing; a valid one appends
        exactly one record, writes the list and clears the form. */
    method AddCategory(store: Store) returns (added: bool)
      modifies this, store`categories
      ensures added == NewCategory(old(newCategoryName), old(selectedIcon), old(selectedColor)).Some?
      ensures !added ==> categories == old(categories) && store.categories == old(store.categories)
      ensures !added ==> unchanged(this)
      ensures added ==> categories == old(categories) + [NewCategory(old(newCategoryName), old(selectedIcon), old(selectedColor)).value]
      ensures added ==> store.categories == Some(categories)
      ensures added ==> newCategoryName == "" && selectedIcon == "" && selectedColor == ""
    {
      var c := NewCategory(newCategoryName, selectedIcon, selectedColor);
      if c.None? {
        return false;
      }
      categories := categories + [c.value];
      store.categories := Some(categories);
      newCategoryName, selectedIcon, selectedColor := "", "", "";
      return true;
    }

    /** `deleteCategory`, once confirmed: a built-in name is refused with no
        change; any other name removes every record carrying it. */
    method DeleteCategory(store: Store, name: string) returns (refused: bool)
      modifies this`categories, store`categories
      ensures refused == IsBuiltIn(name)
      ensures refused ==> categories == old(categories) && store.categories == old(store.categories)
      ensures !refused ==> categories == WithoutCategory(old(categories), name) && store.categories == Some(categories)
    {
      if IsBuiltIn(name) {
        return true;
      }
      categories := WithoutCategory(categories, name);
      store.categories := Some(categories);
      return false;
    }
  }
}
