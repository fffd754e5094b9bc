/**
 * The server action behind the "Suggest" button: it asks the suggestion
 * service for repositories related to a given one and sorts the outcome into
 * one of three result shapes.
 */
module Actions {
  import opened Js

  /**
   * What the suggestion service does with a repository name: it resolves with
   * a list of names (possibly missing, which the caller checks for), or throws.
   * The service itself is an oracle `string -> Suggestion`.
   */
  datatype Suggestion = Returned(names: Option<seq<string>>) | Threw

  /** The plain object the action returns; an absent property is None. */
  datatype RelatedResult = RelatedResult(data: Option<seq<string>>, message: Option<string>, error: Option<string>)

  const NoSuggestionsMessage := "No suggestions found for this repository."
  const FailureMessage := "Failed to fetch related repositories. Please try again later."

  /** `{ data: suggestions }` with a non-empty list. */
  predicate IsSuggestions(r: RelatedResult) {
    r.data.Some? && r.data.value != [] && r.message.None? && r.error.None?
  }

  /** `{ data: [], message: ... }`. */
  predicate IsNoSuggestions(r: RelatedResult) {
    r.data == Some([]) && r.message == Some(NoSuggestionsMessage) && r.error.None?
  }

  /** `{ error: ... }`. */
  predicate IsFailure(r: RelatedResult) {
    r.data.None? && r.message.None? && r.error == Some(FailureMessage)
  }

  /**
   * The body of the action once the service has answered: a thrown failure
   * becomes the error shape, a missing or empty list the "no suggestions"
   * shape, and anything else is handed on unchanged.
   */
  function Classify(outcome: Suggestion): (r: RelatedResult)
    ensures outcome.Threw? <==> IsFailure(r)
    ensures outcome.Returned? && outcome.names.Some? && outcome.names.value != [] ==>
      IsSuggestions(r) && r.data == outcome.names
    ensures outcome.Returned? && (outcome.names.None? || outcome.names.value == []) <==> IsNoSuggestions(r)
  {
    match outcome
    case Threw => RelatedResult(None, None, Some(FailureMessage))
    case Returned(names) =>
      if names.None? || |names.value| == 0 then RelatedResult(Some([]), Some(NoSuggestionsMessage), None)
      else RelatedResult(names, None, None)
  }

  /**
   * `getRelatedRepos(repoName)`: the service is asked about `repoName` itself,
   * and the answer is always exactly one of the three shapes, so an error
   * never comes with data.
   */
  function GetRelatedRepos(repoName: string, suggest: string -> Suggestion): (r: RelatedResult)
    ensures IsSuggestions(r) || IsNoSuggestions(r) || IsFailure(r)
    ensures IsFailure(r) <==> suggest(repoName).Threw?
    ensures IsSuggestions(r) ==> r.data == suggest(repoName).names
    ensures r.error.Some? ==> r.data.None?
  {
    Classify(suggest(repoName))
  }

  /** The three shapes exclude one another. */
  lemma ShapesDisjoint(r: RelatedResult)
    ensures !(IsSuggestions(r) && IsNoSuggestions(r))
    ensures !(IsSuggestions(r) && IsFailure(r))
    ensures !(IsNoSuggestions(r) && IsFailure(r))
  {
  }

  /** Which shape comes back is decided by the service's answer alone, and every answer has one. */
  lemma ClassifyShape(outcome: Suggestion)
    ensures IsSuggestions(Classify(outcome)) <==>
      outcome.Returned? && outcome.names.Some? && outcome.names.value != []
    ensures IsNoSuggestions(Classify(outcome)) <==>
      outcome.Returned? && (outcome.names.None? || outcome.names.value == [])
    ensures IsFailure(Classify(outcome)) <==> outcome.Threw?
  {
    ShapesDisjoint(Classify(outcome));
  }
}
