/**
 * `RecipeService`: the data source's outcome, validated and classified into
 * `RecipeServiceError`. The data source (bundle file or network, then JSON
 * decoding) is not part of this model; its outcome is an input.
 */
module Service {
  import opened Wrappers
  import opened Foundation
  import opened Recipes
  import opened Dto

  /** `RecipeServiceError`. */
  datatype ServiceError =
    | NetworkError(message: string)
    | DecodingError(message: string)
    | ValidationError(message: string)

  /** A data-source failure: a `DecodingError` or any other error, with its `localizedDescription`. */
  datatype SourceError = DecodingFailure(description: string) | OtherFailure(description: string)

  /** What the data source delivers: the decoded `RecipesDTO` or an error. */
  type SourceResult = Result<seq<RecipeDTO>, SourceError>

  /** `localizedDescription` of a validation error, which the platform supplies. */
  type Localizer = RecipeValidationError -> string

  /** The hand-written `==`: same case and same message. */
  function ErrorEquals(lhs: ServiceError, rhs: ServiceError): (r: bool)
    ensures r <==> lhs == rhs
  {
    match (lhs, rhs)
    case (NetworkError(a), NetworkError(b)) => a == b
    case (DecodingError(a), DecodingError(b)) => a == b
    case (ValidationError(a), ValidationError(b)) => a == b
    case _ => false
  }

  /** Errors of different cases are never equal, whatever their messages. */
  lemma DifferentCasesNeverEqual(lhs: ServiceError, rhs: ServiceError)
    requires lhs.NetworkError? != rhs.NetworkError? || lhs.DecodingError? != rhs.DecodingError?
    ensures !ErrorEquals(lhs, rhs)
  {
  }

  // ---------------------------------------------------------------------------
  // The completion-handler variant

  /** Classification of a data-source failure, shared by both variants. */
  function ClassifySourceError(e: SourceError): (r: ServiceError)
    ensures r.DecodingError? <==> e.DecodingFailure?
    ensures r.NetworkError? <==> e.OtherFailure?
    ensures r.message == e.description
  {
    match e
    case DecodingFailure(d) => DecodingError(d)
    case OtherFailure(d) => NetworkError(d)
  }

  /** `fetchRecipes(completion:)`: the single result handed to the completion. */
  function FetchWithCompletion(source: SourceResult, p: Platform, localize: Localizer): (r: Result<seq<Recipe>, ServiceError>)
    ensures r.Success? <==> source.Success? && ValidateAll(source.value, p).Success?
    ensures r.Success? ==> r.value == ValidateAll(source.value, p).value
    ensures source.Success? && r.Failure? ==>
      r.error == ValidationError(localize(ValidateAll(source.value, p).error))
    ensures source.Failure? ==> r == Failure(ClassifySourceError(source.error))
  {
    match source
    case Success(dto) =>
      (match ValidateAll(dto, p)
       case Success(recipes) => Success(recipes)
       case Failure(v) => Failure(ValidationError(localize(v))))
    case Failure(e) => Failure(ClassifySourceError(e))
  }

  /**
   * A fetch succeeds exactly when the data source delivered a non-empty list
   * of valid records, and then yields those records converted in order.
   */
  lemma FetchSucceedsIffAllValid(source: SourceResult, p: Platform, localize: Localizer)
    ensures FetchWithCompletion(source, p, localize).Success? <==>
      source.Success? && source.value != [] && forall i :: 0 <= i < |source.value| ==> IsValid(source.value[i], p)
    ensures FetchWithCompletion(source, p, localize).Success? ==>
      var rs := FetchWithCompletion(source, p, localize).value;
      |rs| == |source.value| && forall i :: 0 <= i < |rs| ==> rs[i] == ToRecipe(source.value[i])
  {
  }

  /** The error case tells which stage failed: validation errors come only from a delivered list. */
  lemma ErrorCaseNamesTheStage(source: SourceResult, p: Platform, localize: Localizer)
    requires FetchWithCompletion(source, p, localize).Failure?
    ensures FetchWithCompletion(source, p, localize).error.ValidationError? <==> source.Success?
    ensures FetchWithCompletion(source, p, localize).error.DecodingError? <==>
      source.Failure? && source.error.DecodingFailure?
    ensures FetchWithCompletion(source, p, localize).error.NetworkError? <==>
      source.Failure? && source.error.OtherFailure?
  {
  }

  /** An empty list is a validation error, never a success. */
  lemma EmptyListIsValidationError(p: Platform, localize: Localizer)
    ensures FetchWithCompletion(Success([]), p, localize) ==
      Failure(ValidationError(localize(InvalidRecipesList("No recipes found in the data"))))
  {
  }

  // ---------------------------------------------------------------------------
  // The publisher variant, stage by stage

  /** The type-erased `Error` flowing between `tryMap` and the last `mapError`. */
  datatype PipelineError = Thrown(error: ServiceError) | Foreign(description: string)

  /** The first `mapError`: upstream errors become decoding or network errors. */
  function UpstreamStage(source: SourceResult): (r: Result<seq<RecipeDTO>, ServiceError>)
    ensures source.Success? <==> r.Success?
    ensures r.Success? ==> r.value == source.value
    ensures r.Failure? ==> r.error.DecodingError? || r.error.NetworkError?
  {
    match source
    case Success(dto) => Success(dto)
    case Failure(e) =>
      if e.DecodingFailure? then Failure(DecodingError(e.description)) else Failure(NetworkError(e.description))
  }

  /** `tryMap`: validates a delivered list; an upstream error passes through as thrown. */
  function TryMapStage(s: Result<seq<RecipeDTO>, ServiceError>, p: Platform, localize: Localizer): (r: Result<seq<Recipe>, PipelineError>)
    ensures r.Failure? ==> r.error.Thrown?
    ensures s.Failure? ==> r == Failure(Thrown(s.error))
  {
    match s
    case Failure(e) => Failure(Thrown(e))
    case Success(dto) =>
      match ValidateAll(dto, p)
      case Success(recipes) => Success(recipes)
      case Failure(v) => Failure(Thrown(ValidationError(localize(v))))
  }

  /** The last `mapError`: a service error is kept, anything else becomes a validation error. */
  function FinalStage(s: Result<seq<Recipe>, PipelineError>): (r: Result<seq<Recipe>, ServiceError>)
    ensures s.Success? <==> r.Success?
    ensures s.Success? ==> r.value == s.value
    ensures s.Failure? && s.error.Thrown? ==> r.error == s.error.error
    ensures s.Failure? && s.error.Foreign? ==> r.error == ValidationError(s.error.description)
  {
    match s
    case Success(recipes) => Success(recipes)
    case Failure(Thrown(e)) => Failure(e)
    case Failure(Foreign(d)) => Failure(ValidationError(d))
  }

  /**
   * `fetchRecipes()`: the value or failure the publisher emits. A validated
   * list is the value; a validation failure reaches the subscriber as a
   * `ValidationError` with the localized message, and an upstream failure as
   * a decoding or network error carrying its description.
   */
  function FetchWithPublisher(source: SourceResult, p: Platform, localize: Localizer): (r: Result<seq<Recipe>, ServiceError>)
    ensures r.Success? <==> source.Success? && ValidateAll(source.value, p).Success?
    ensures r.Success? ==> r.value == ValidateAll(source.value, p).value
    ensures source.Success? && r.Failure? ==>
      r.error == ValidationError(localize(ValidateAll(source.value, p).error))
    ensures source.Failure? ==>
      && r.Failure?
      && (r.error.DecodingError? <==> source.error.DecodingFailure?)
      && (r.error.NetworkError? <==> source.error.OtherFailure?)
      && r.error.message == source.error.description
  {
    FinalStage(TryMapStage(UpstreamStage(source), p, localize))
  }

  /** Both variants classify every data-source outcome identically. */
  lemma PublisherAgreesWithCompletion(source: SourceResult, p: Platform, localize: Localizer)
    ensures FetchWithPublisher(source, p, localize) == FetchWithCompletion(source, p, localize)
  {
  }
}
