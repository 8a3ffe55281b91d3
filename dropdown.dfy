/** The category picker of the event form and its "new category" dialog.
    Adding trims the typed name and refuses a name already in the list
    (exact, case-sensitive comparison); otherwise the name is appended and
    the dialog is reset and closed. */
module Dropdown {
  import opened Wrappers
  import opened Text

  const CategoryExists := "Category already exists"

  predicate Distinct(xs: seq<string>)
  {
    forall i, j :: 0 <= i < j < |xs| ==> xs[i] != xs[j]
  }

  /** The list after adding the typed `input`. */
  function AfterAdd(names: seq<string>, input: string): (r: seq<string>)
    ensures Trim(input) in names ==> r == names
    ensures Trim(input) !in names ==> r == names + [Trim(input)]
    ensures Distinct(names) ==> Distinct(r)
  {
    var name := Trim(input);
    if name in names then names else names + [name]
  }

  /** The list after a sequence of adds. */
  function AfterAdds(names: seq<string>, inputs: seq<string>): seq<string>
    decreases |inputs|
  {
    if inputs == [] then names else AfterAdds(AfterAdd(names, inputs[0]), inputs[1..])
  }

  /** A list of distinct names stays distinct under any sequence of adds. */
  lemma {:induction false} AddsKeepDistinct(names: seq<string>, inputs: seq<string>)
    requires Distinct(names)
    ensures Distinct(AfterAdds(names, inputs))
    decreases |inputs|
  {
    if inputs != [] {
      AddsKeepDistinct(AfterAdd(names, inputs[0]), inputs[1..]);
    }
  }

  /** Adds only append: the old list is a prefix of the new one. */
  lemma {:induction false} AddsKeepOrder(names: seq<string>, inputs: seq<string>)
    ensures |names| <= |AfterAdds(names, inputs)| && AfterAdds(names, inputs)[..|names|] == names
    decreases |inputs|
  {
    if inputs != [] {
      var next := AfterAdd(names, inputs[0]);
      AddsKeepOrder(next, inputs[1..]);
      assert next[..|names|] == names;
    }
  }

  /** White space alone is not refused: it adds the empty name. */
  lemma BlankInputAddsEmptyName(names: seq<string>, input: string)
    requires AllSpace(input) && "" !in names
    ensures AfterAdd(names, input) == names + [""]
  {
    TrimAllSpace(input);
  }

  class CategoryPicker {
    var categories: seq<string>
    var newCategory: string
    var isDialogOpen: bool
    var error: Option<string>

    constructor (categoriesList: seq<string>)
      ensures categories == categoriesList && newCategory == "" && !isDialogOpen && error.None?
    {
      categories := categoriesList;
      newCategory := "";
      isDialogOpen := false;
      error := None;
    }

    method SetNewCategory(text: string)
      modifies this
      ensures newCategory == text
      ensures categories == old(categories) && isDialogOpen == old(isDialogOpen) && error == old(error)
    {
      newCategory := text;
    }

    method SetDialogOpen(open: bool)
      modifies this
      ensures isDialogOpen == open
      ensures categories == old(categories) && newCategory == old(newCategory) && error == old(error)
    {
      isDialogOpen := open;
    }

    /** `handleAddCategory`. */
    method HandleAddCategory()
      modifies this
      ensures categories == AfterAdd(old(categories), old(newCategory))
      ensures Trim(old(newCategory)) in old(categories) ==>
        && error == Some(CategoryExists)
        && newCategory == old(newCategory) && isDialogOpen == old(isDialogOpen)
      ensures Trim(old(newCategory)) !in old(categories) ==>
        newCategory == "" && error.None? && !isDialogOpen
      ensures Distinct(old(categories)) ==> Distinct(categories)
    {
      ghost var after := AfterAdd(categories, newCategory);
      var trimmedCategory := Trim(newCategory);
      if trimmedCategory in categories {
        error := Some(CategoryExists);
        return;
      }
      categories := categories + [trimmedCategory];
      newCategory := "";
      error := None;
      isDialogOpen := false;
    }

    /** The dialog's Cancel button. */
    method Cancel()
      modifies this
      ensures error.None? && newCategory == ""
      ensures categories == old(categories) && isDialogOpen == old(isDialogOpen)
    {
      error := None;
      newCategory := "";
    }
  }
}
