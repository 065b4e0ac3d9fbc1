/**
 * Validation of the decoded JSON records: one record becomes a `Recipe` or an
 * `invalidRecipe` error, and a whole list is accepted only when every record
 * is.
 */
module Dto {
  import opened Wrappers
  import opened Foundation
  import opened Recipes

  /** `RecipeValidationError`. */
  datatype RecipeValidationError = InvalidRecipe(message: string) | InvalidRecipesList(message: string)

  /** `RecipeDTO`: the record as decoded; the two links may be absent. */
  datatype RecipeDTO = RecipeDTO(
    uuid: string,
    cuisine: string,
    name: string,
    photoUrlLarge: string,
    photoUrlSmall: string,
    sourceUrl: Option<string>,
    youtubeUrl: Option<string>
  )

  /** One guard of the validation chain: whether it passes and the message it throws otherwise. */
  datatype Check = Check(passes: bool, message: string)

  /** The guards in the order the source runs them. */
  function Checks(d: RecipeDTO, p: Platform): (r: seq<Check>)
    ensures |r| == 5
  {
    [ Check(d.uuid != [] && p.isUUID(d.uuid), "Invalid UUID: " + d.uuid),
      Check(d.cuisine != [], "Cuisine cannot be empty"),
      Check(d.name != [], "Name cannot be empty"),
      Check(d.photoUrlLarge != [] && p.parseURL(d.photoUrlLarge).Some?, "Invalid large photo URL"),
      Check(d.photoUrlSmall != [] && p.parseURL(d.photoUrlSmall).Some?, "Invalid small photo URL") ]
  }

  /** A record that every guard accepts. */
  predicate IsValid(d: RecipeDTO, p: Platform)
  {
    && d.uuid != [] && p.isUUID(d.uuid)
    && d.cuisine != []
    && d.name != []
    && d.photoUrlLarge != [] && p.parseURL(d.photoUrlLarge).Some?
    && d.photoUrlSmall != [] && p.parseURL(d.photoUrlSmall).Some?
  }

  /** The `Recipe` a valid record converts to: fields copied, absent links become `""`. */
  function ToRecipe(d: RecipeDTO): Recipe
  {
    Recipe(d.uuid, d.cuisine, d.name, d.photoUrlLarge, d.photoUrlSmall,
           d.sourceUrl.OrElse(""), d.youtubeUrl.OrElse(""))
  }

  /** `RecipeDTO.validate()`: the guard chain. */
  function Validate(d: RecipeDTO, p: Platform): (r: Result<Recipe, RecipeValidationError>)
    ensures r.Success? <==> IsValid(d, p)
    ensures r.Success? ==> r.value == ToRecipe(d)
    ensures r.Failure? ==> r.error.InvalidRecipe?
  {
    if !(d.uuid != [] && p.isUUID(d.uuid)) then Failure(InvalidRecipe("Invalid UUID: " + d.uuid))
    else if d.cuisine == [] then Failure(InvalidRecipe("Cuisine cannot be empty"))
    else if d.name == [] then Failure(InvalidRecipe("Name cannot be empty"))
    else if !(d.photoUrlLarge != [] && p.parseURL(d.photoUrlLarge).Some?) then
      Failure(InvalidRecipe("Invalid large photo URL"))
    else if !(d.photoUrlSmall != [] && p.parseURL(d.photoUrlSmall).Some?) then
      Failure(InvalidRecipe("Invalid small photo URL"))
    else Success(ToRecipe(d))
  }

  /** The first failing guard decides the message: all guards before it pass. */
  lemma FirstFailingCheckDecides(d: RecipeDTO, p: Platform)
    ensures Validate(d, p).Failure? <==> exists k :: 0 <= k < 5 && !Checks(d, p)[k].passes
    ensures Validate(d, p).Failure? ==>
      exists k :: 0 <= k < 5 && !Checks(d, p)[k].passes
        && (forall j :: 0 <= j < k ==> Checks(d, p)[j].passes)
        && Validate(d, p).error == InvalidRecipe(Checks(d, p)[k].message)
  {
    var cs := Checks(d, p);
    if Validate(d, p).Failure? {
      var k := if !cs[0].passes then 0 else if !cs[1].passes then 1 else if !cs[2].passes then 2
               else if !cs[3].passes then 3 else 4;
      assert !cs[k].passes;
      assert forall j :: 0 <= j < k ==> cs[j].passes;
    } else {
      assert cs[0].passes && cs[1].passes && cs[2].passes && cs[3].passes && cs[4].passes;
    }
  }

  /** The links are never checked: a record is valid whatever its links are. */
  lemma LinksAreNotValidated(d: RecipeDTO, p: Platform, source: Option<string>, youtube: Option<string>)
    ensures Validate(d, p).Success? == Validate(d.(sourceUrl := source, youtubeUrl := youtube), p).Success?
  {
  }

  /** The position of the first record that fails validation, or the length when none does. */
  function FirstInvalid(ds: seq<RecipeDTO>, p: Platform): (k: nat)
    ensures k <= |ds|
    ensures forall j :: 0 <= j < k ==> IsValid(ds[j], p)
    ensures k < |ds| ==> !IsValid(ds[k], p)
  {
    if ds == [] || !IsValid(ds[0], p) then 0 else 1 + FirstInvalid(ds[1..], p)
  }

  /**
   * `recipes.map { try $0.validate() }`: the records in order, stopping at the
   * first that throws.
   */
  function ValidateEach(ds: seq<RecipeDTO>, p: Platform): (r: Result<seq<Recipe>, RecipeValidationError>)
    ensures r.Success? <==> FirstInvalid(ds, p) == |ds|
    ensures r.Success? ==> |r.value| == |ds| && forall i :: 0 <= i < |ds| ==> r.value[i] == ToRecipe(ds[i])
    ensures r.Failure? ==> Validate(ds[FirstInvalid(ds, p)], p) == Failure(r.error)
  {
    if ds == [] then Success([])
    else
      match Validate(ds[0], p)
      case Failure(e) => Failure(e)
      case Success(x) =>
        var rest := ValidateEach(ds[1..], p);
        assert FirstInvalid(ds, p) == 1 + FirstInvalid(ds[1..], p);
        if rest.Failure? then
          assert ds[FirstInvalid(ds, p)] == ds[1..][FirstInvalid(ds[1..], p)];
          Failure(rest.error)
        else
          assert forall i :: 1 <= i < |ds| ==> ds[i] == ds[1..][i - 1];
          Success([x] + rest.value)
  }

  /** `"\(error)"`: an error printed as its case name and quoted message. */
  function Describe(e: RecipeValidationError): string
  {
    match e
    case InvalidRecipe(m) => "invalidRecipe(\"" + m + "\")"
    case InvalidRecipesList(m) => "invalidRecipesList(\"" + m + "\")"
  }

  /** `RecipesDTO.validate()`: all or nothing, and an empty list is an error. */
  function ValidateAll(ds: seq<RecipeDTO>, p: Platform): (r: Result<seq<Recipe>, RecipeValidationError>)
    ensures r.Success? <==> ds != [] && forall i :: 0 <= i < |ds| ==> IsValid(ds[i], p)
    ensures r.Success? ==> |r.value| == |ds| && forall i :: 0 <= i < |ds| ==> r.value[i] == ToRecipe(ds[i])
    ensures r.Failure? ==> r.error.InvalidRecipesList?
    ensures ds == [] ==> r == Failure(InvalidRecipesList("No recipes found in the data"))
    ensures ds != [] && r.Failure? ==>
      var k := FirstInvalid(ds, p);
      k < |ds| && r.error.message == "Invalid recipe found: " + Describe(Validate(ds[k], p).error)
  {
    if ds == [] then Failure(InvalidRecipesList("No recipes found in the data"))
    else
      match ValidateEach(ds, p)
      case Success(rs) => Success(rs)
      case Failure(e) => Failure(InvalidRecipesList("Invalid recipe found: " + Describe(e)))
  }

  /** Validation of a list is the same as validating each record on its own. */
  lemma ValidateAllIsElementwise(ds: seq<RecipeDTO>, p: Platform, i: int)
    requires ValidateAll(ds, p).Success?
    requires 0 <= i < |ds|
    ensures Validate(ds[i], p) == Success(ValidateAll(ds, p).value[i])
  {
  }

  /** One bad record rejects the whole list, wherever it is. */
  lemma OneInvalidRejectsAll(ds: seq<RecipeDTO>, p: Platform, i: int)
    requires 0 <= i < |ds| && !IsValid(ds[i], p)
    ensures ValidateAll(ds, p).Failure?
    ensures ValidateAll(ds, p).error.InvalidRecipesList?
  {
  }
}
