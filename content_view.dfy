/**
 * The older `RecipesViewModel` kept beside `ContentView`: instead of a view
 * state it has an `isLoading` flag and an optional error message, and a pull
 * to refresh leaves `isLoading` alone. `ContentView.isSearchResultEmpty` is
 * modelled over its fields.
 */
module ContentView {
  import opened Wrappers
  import opened Recipes
  import opened Service
  import opened Search
  import ViewModel

  class RecipesViewModel {
    var recipes: seq<Recipe>
    var filteredRecipes: seq<Recipe>
    var searchText: string
    var isLoading: bool
    var errorMessage: Option<string>

    /** The filtered list is always drawn, in order, from the full list. */
    ghost predicate Valid()
      reads this
    {
      IsSubsequence(filteredRecipes, recipes)
    }

    constructor ()
      ensures Valid()
      ensures recipes == [] && filteredRecipes == [] && searchText == []
      ensures !isLoading && errorMessage == None
    {
      recipes := [];
      filteredRecipes := [];
      searchText := [];
      isLoading := false;
      errorMessage := None;
    }

    /**
     * `ContentView.isSearchResultEmpty`: while the list is filtered for the
     * current search text, true exactly when a search is typed and no recipe
     * matches it.
     */
    function IsSearchResultEmpty(): (r: bool)
      reads this
      ensures r <==> searchText != [] && filteredRecipes == []
      ensures filteredRecipes == Filter(recipes, searchText) ==>
        (r <==> searchText != [] && forall x :: x in recipes ==> !Keeps(searchText, x))
    {
      assert filteredRecipes != [] ==> filteredRecipes[0] in filteredRecipes;
      !(searchText == []) && filteredRecipes == []
    }

    /** `filterRecipes(searchText:)`. */
    method FilterRecipes(query: Option<string>)
      modifies this
      ensures Valid()
      ensures filteredRecipes == Filter(recipes, query.OrElse(searchText))
      ensures recipes == old(recipes) && searchText == old(searchText)
      ensures isLoading == old(isLoading) && errorMessage == old(errorMessage)
    {
      var q := query.OrElse(searchText);
      if q == [] {
        EmptyQueryKeepsAll(recipes);
        filteredRecipes := recipes;
        return;
      }
      filteredRecipes := Filter(recipes, q);
    }

    /** `loadRecipes`, up to the subscription: loading, and no error shown. */
    method LoadRecipes()
      requires Valid()
      modifies this
      ensures Valid()
      ensures isLoading && errorMessage == None
      ensures recipes == old(recipes) && filteredRecipes == old(filteredRecipes) && searchText == old(searchText)
    {
      isLoading := true;
      errorMessage := None;
    }

    /** The `receiveValue` callback: the list is replaced and refiltered. */
    method OnLoadValue(fetched: seq<Recipe>)
      requires Valid()
      modifies this
      ensures Valid()
      ensures recipes == fetched && filteredRecipes == Filter(fetched, searchText)
      ensures searchText == old(searchText) && isLoading == old(isLoading) && errorMessage == old(errorMessage)
    {
      recipes := fetched;
      FilterRecipes(None);
    }

    /** The `receiveCompletion` callback: loading ends either way; a failure is described. */
    method OnLoadCompletion(failure: Option<ServiceError>, describe: ServiceError -> string)
      requires Valid()
      modifies this
      ensures Valid()
      ensures !isLoading
      ensures failure.Some? ==> errorMessage == Some(describe(failure.value))
      ensures failure.None? ==> errorMessage == old(errorMessage)
      ensures recipes == old(recipes) && filteredRecipes == old(filteredRecipes) && searchText == old(searchText)
    {
      isLoading := false;
      if failure.Some? {
        errorMessage := Some(describe(failure.value));
      }
    }

    /** `refreshRecipes`, up to its `await`: the error is cleared, `isLoading` is not touched. */
    method BeginRefresh()
      requires Valid()
      modifies this
      ensures Valid()
      ensures errorMessage == None
      ensures isLoading == old(isLoading)
      ensures recipes == old(recipes) && filteredRecipes == old(filteredRecipes) && searchText == old(searchText)
    {
      errorMessage := None;
    }

    /** `refreshRecipes`, after its `await`; `isLoading` is not touched. */
    method FinishRefresh(outcome: ViewModel.RefreshOutcome, describe: ServiceError -> string)
      requires Valid()
      modifies this
      ensures Valid()
      ensures outcome.Fetched? ==>
        recipes == outcome.recipes && filteredRecipes == Filter(outcome.recipes, searchText)
        && errorMessage == old(errorMessage)
      ensures !outcome.Fetched? ==>
        errorMessage == Some(ViewModel.RefreshErrorMessage(outcome, describe))
        && recipes == old(recipes) && filteredRecipes == old(filteredRecipes)
      ensures isLoading == old(isLoading) && searchText == old(searchText)
    {
      match outcome
      case Fetched(rs) =>
        recipes := rs;
        FilterRecipes(None);
      case ServiceFailure(e) =>
        errorMessage := Some(describe(e));
      case OtherFailure =>
        errorMessage := Some(ViewModel.UnexpectedErrorMessage);
    }
  }

  /**
   * Once the list is filtered for the current search text, the "no results"
   * state means a search is typed and no recipe matches it.
   */
  method FilteredEmptyMeansNoMatch(vm: RecipesViewModel) returns (empty: bool)
    modifies vm
    ensures empty == vm.IsSearchResultEmpty()
    ensures empty <==> vm.searchText != [] && forall x :: x in vm.recipes ==> !Keeps(vm.searchText, x)
  {
    vm.FilterRecipes(None);
    empty := vm.IsSearchResultEmpty();
    if !empty && vm.searchText != [] {
      assert vm.filteredRecipes[0] in vm.filteredRecipes;
    }
  }

  /** A refresh that fails with a service error leaves a spinner already showing as it was. */
  method RefreshFailureKeepsSpinner(vm: RecipesViewModel, error: ServiceError, describe: ServiceError -> string)
    requires vm.Valid()
    modifies vm
    ensures vm.Valid()
    ensures vm.isLoading == old(vm.isLoading)
    ensures vm.errorMessage == Some(describe(error))
    ensures vm.recipes == old(vm.recipes)
  {
    vm.BeginRefresh();
    vm.FinishRefresh(ViewModel.ServiceFailure(error), describe);
  }
}
