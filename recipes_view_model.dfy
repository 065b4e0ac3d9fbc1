/**
 * `RecipesViewModel` (the current one): the list screen's state. Loading goes
 * through `.loading` to `.success` or `.error(message)`; the filtered list is
 * recomputed from the full list and the search text.
 *
 * The Combine subscription and the `async` refresh are split at their
 * suspension points: one method starts the operation and one method per
 * callback finishes it, so every state the screen can show is a state
 * between two method calls.
 */
module ViewModel {
  import opened Wrappers
  import opened Recipes
  import opened Service
  import opened Search

  /** `ViewState`. */
  datatype ViewState = Loading | Success | Error(message: string)

  /** What `try await fetchRecipesAsync()` ends with: recipes, a thrown service error, or any other error. */
  datatype RefreshOutcome = Fetched(recipes: seq<Recipe>) | ServiceFailure(error: ServiceError) | OtherFailure

  /** The message shown for an error the service did not classify. */
  const UnexpectedErrorMessage: string := "An unexpected error occurred"

  /** The error message `refreshRecipes` shows for a failed outcome. */
  function RefreshErrorMessage(outcome: RefreshOutcome, describe: ServiceError -> string): (m: string)
    requires !outcome.Fetched?
    ensures outcome.ServiceFailure? ==> m == describe(outcome.error)
    ensures outcome.OtherFailure? ==> m == UnexpectedErrorMessage
  {
    if outcome.ServiceFailure? then describe(outcome.error) else UnexpectedErrorMessage
  }

  class RecipesViewModel {
    var viewState: ViewState
    var filteredRecipes: seq<Recipe>
    var recipes: seq<Recipe>
    var searchText: string

    /** The filtered list is always drawn, in order, from the full list. */
    ghost predicate Valid()
      reads this
    {
      IsSubsequence(filteredRecipes, recipes)
    }

    constructor ()
      ensures Valid()
      ensures viewState == Loading && filteredRecipes == [] && recipes == [] && searchText == []
    {
      viewState := Loading;
      filteredRecipes := [];
      recipes := [];
      searchText := [];
    }

    /** `updateSearchText`: only the text changes; filtering waits for the debounced subscription. */
    method UpdateSearchText(text: string)
      requires Valid()
      modifies this
      ensures Valid()
      ensures searchText == text
      ensures viewState == old(viewState) && filteredRecipes == old(filteredRecipes) && recipes == old(recipes)
    {
      searchText := text;
    }

    /**
     * `filterRecipes(searchText:)`: the query is the one given (by the debounced
     * subscription) or else the current search text.
     */
    method FilterRecipes(query: Option<string>)
      modifies this
      ensures Valid()
      ensures filteredRecipes == Filter(recipes, query.OrElse(searchText))
      ensures forall x :: x in filteredRecipes <==> x in recipes && Keeps(query.OrElse(searchText), x)
      ensures viewState == old(viewState) && recipes == old(recipes) && searchText == old(searchText)
    {
      var q := query.OrElse(searchText);
      if q == [] {
        EmptyQueryKeepsAll(recipes);
        filteredRecipes := recipes;
        return;
      }
      filteredRecipes := Filter(recipes, q);
    }

    /** `loadRecipes`, up to the subscription: the screen shows `.loading`. */
    method LoadRecipes()
      requires Valid()
      modifies this
      ensures Valid()
      ensures viewState == Loading
      ensures filteredRecipes == old(filteredRecipes) && recipes == old(recipes) && searchText == old(searchText)
    {
      viewState := Loading;
    }

    /** The `receiveValue` callback: the list is replaced and refiltered, and loading succeeded. */
    method OnLoadValue(fetched: seq<Recipe>)
      requires Valid()
      modifies this
      ensures Valid()
      ensures recipes == fetched && filteredRecipes == Filter(fetched, searchText)
      ensures viewState == ViewState.Success && searchText == old(searchText)
    {
      recipes := fetched;
      FilterRecipes(None);
      viewState := ViewState.Success;
    }

    /** The `receiveCompletion` callback: a failure shows its description; the list is kept. */
    method OnLoadCompletion(failure: Option<ServiceError>, describe: ServiceError -> string)
      requires Valid()
      modifies this
      ensures Valid()
      ensures failure.Some? ==> viewState == Error(describe(failure.value))
      ensures failure.None? ==> viewState == old(viewState)
      ensures filteredRecipes == old(filteredRecipes) && recipes == old(recipes) && searchText == old(searchText)
    {
      if failure.Some? {
        viewState := Error(describe(failure.value));
      }
    }

    /** `refreshRecipes`, up to its `await`: the screen shows `.loading`. */
    method BeginRefresh()
      requires Valid()
      modifies this
      ensures Valid()
      ensures viewState == Loading
      ensures filteredRecipes == old(filteredRecipes) && recipes == old(recipes) && searchText == old(searchText)
    {
      viewState := Loading;
    }

    /** `refreshRecipes`, after its `await`. */
    method FinishRefresh(outcome: RefreshOutcome, describe: ServiceError -> string)
      requires Valid()
      modifies this
      ensures Valid()
      ensures outcome.Fetched? ==>
        recipes == outcome.recipes && filteredRecipes == Filter(outcome.recipes, searchText) && viewState == ViewState.Success
      ensures !outcome.Fetched? ==>
        viewState == Error(RefreshErrorMessage(outcome, describe))
        && recipes == old(recipes) && filteredRecipes == old(filteredRecipes)
      ensures searchText == old(searchText)
    {
      match outcome
      case Fetched(rs) =>
        recipes := rs;
        FilterRecipes(None);
        viewState := ViewState.Success;
      case ServiceFailure(e) =>
        viewState := Error(describe(e));
      case OtherFailure =>
        viewState := Error(UnexpectedErrorMessage);
    }
  }

  /** A load that delivers recipes ends in `.success`, showing exactly the recipes the search keeps. */
  method LoadThenDeliver(vm: RecipesViewModel, fetched: seq<Recipe>)
    requires vm.Valid()
    modifies vm
    ensures vm.Valid()
    ensures vm.viewState == ViewState.Success
    ensures forall x :: x in vm.filteredRecipes <==> x in fetched && Keeps(vm.searchText, x)
  {
    vm.LoadRecipes();
    vm.OnLoadValue(fetched);
    vm.OnLoadCompletion(None, (e: ServiceError) => e.message);
  }

  /** A failed load keeps the recipes shown before it. */
  method LoadThenFail(vm: RecipesViewModel, error: ServiceError, describe: ServiceError -> string)
    requires vm.Valid()
    modifies vm
    ensures vm.Valid()
    ensures vm.viewState == Error(describe(error))
    ensures vm.recipes == old(vm.recipes) && vm.filteredRecipes == old(vm.filteredRecipes)
  {
    vm.LoadRecipes();
    vm.OnLoadCompletion(Some(error), describe);
  }
}
