/**
 * The search form: a query picks one of two GitHub REST URLs, the response
 * status is turned into an error message or a list of repositories, and four
 * pieces of view state (`repos`, `loading`, `error`, `searched`) decide which
 * panel the page shows.
 */
module GithubSearch {
  import opened Js
  import opened Http
  import opened Types

  /** What a search response body parses to: one repository object, or an array. */
  datatype Json = JRepo(repo: Repo) | JArray(items: seq<Json>)

  /** `value.length`: arrays have one, a repository object has none. */
  function Length(j: Json): Option<nat> {
    if j.JArray? then Some(|j.items|) else None
  }

  const ValidationMessage := "Please enter a GitHub username or repository."
  const NotFoundMessage := "Repository or user not found. Please check the name and try again."
  const UnexpectedMessage := "An unexpected error occurred while fetching data."
  const UnknownMessage := "An unknown error occurred."
  const RateLimitHeader := "x-ratelimit-reset"

  const RepoUrlPrefix := "https://api.github.com/repos/"
  const UserUrlPrefix := "https://api.github.com/users/"
  const UserUrlSuffix := "/repos?sort=updated&per_page=10"

  // ---------------------------------------------------------------------------
  // Choosing the request

  /** The form's only validation rule: the query has at least one character. */
  function Validate(query: string): (problem: Option<string>)
    ensures problem.Some? <==> query == []
    ensures problem.Some? ==> problem.value == ValidationMessage
  {
    if |query| < 1 then Some(ValidationMessage) else None
  }

  /** A query naming a single repository ("owner/repo") contains a slash. */
  predicate IsRepoQuery(query: string) {
    '/' in query
  }

  /**
   * The URL a query is sent to. It says which endpoint it addresses and
   * carries the query unchanged, so the query can be read back from it.
   */
  function RequestUrl(query: string): (url: string)
    ensures RepoUrlPrefix <= url <==> IsRepoQuery(query)
    ensures IsRepoQuery(query) ==> url[|RepoUrlPrefix|..] == query
    ensures !IsRepoQuery(query) ==>
      && UserUrlPrefix <= url
      && |url| == |UserUrlPrefix| + |query| + |UserUrlSuffix|
      && url[|UserUrlPrefix|..|UserUrlPrefix| + |query|] == query
      && url[|UserUrlPrefix| + |query|..] == UserUrlSuffix
  {
    if IsRepoQuery(query) then
      RepoUrlPrefix + query
    else
      var url := UserUrlPrefix + query + UserUrlSuffix;
      assert url[23] == 'u' && RepoUrlPrefix[23] == 'r';
      assert url[|UserUrlPrefix|..|UserUrlPrefix| + |query|] == query;
      url
  }

  /** Different queries are sent to different URLs. */
  lemma RequestUrlInjective(q1: string, q2: string)
    requires RequestUrl(q1) == RequestUrl(q2)
    ensures q1 == q2
  {
    assert IsRepoQuery(q1) == IsRepoQuery(q2);
    if !IsRepoQuery(q1) {
      var u := RequestUrl(q1);
      assert |q1| == |q2|;
      assert q1 == u[|UserUrlPrefix|..|UserUrlPrefix| + |q1|];
    }
  }

  // ---------------------------------------------------------------------------
  // Interpreting the response

  /** The outcome of one search: an error message, or the new value of `repos`. */
  datatype Resolution = Failure(message: string) | Loaded(repos: Json)

  /** The catch block: an Error's message, or a fixed text for anything else thrown. */
  function CaughtMessage(t: Thrown): string {
    match t
    case ErrorObject(m) => m
    case NonError => UnknownMessage
  }

  /**
   * The reset time shown in the rate-limit message. A present and non-empty
   * `x-ratelimit-reset` header is parsed as seconds and turned into
   * milliseconds; `localeTime` stands for `new Date(ms).toLocaleTimeString()`,
   * whose argument None is NaN ("Invalid Date").
   */
  function ResetTime(header: Option<string>, localeTime: Option<int> -> string): string {
    if Truthy(header) then
      match ParseInt(header.value, Auto)
      case Some(seconds) => localeTime(Some(seconds * 1000))
      case None => localeTime(None)
    else
      "later"
  }

  function RateLimitMessage(resetTime: string): string {
    "API rate limit exceeded. Please try again " + resetTime + "."
  }

  /** The header the server sends, in seconds, is shown as that many milliseconds. */
  lemma ResetTimeOfSeconds(seconds: nat, localeTime: Option<int> -> string)
    ensures ResetTime(Some(DecimalString(seconds)), localeTime) == localeTime(Some(seconds * 1000))
  {
    ParseIntDecimalString(seconds, Auto);
  }

  /**
   * How `onSubmit` reads one response. 404 and 403 have their own messages,
   * every other status outside 200-299 the generic one; a rejected fetch or a
   * body that does not parse gives the caught message; otherwise a repository
   * query wraps the body in a one-element list and a user query keeps it.
   */
  function Resolve(isRepo: bool, fetched: Fetched<Json>, localeTime: Option<int> -> string): (r: Resolution)
    ensures r.Loaded? <==>
      fetched.Received? && Ok(fetched.response.status) && fetched.response.body.Json?
    ensures r.Loaded? && isRepo ==> r.repos == JArray([fetched.response.body.value])
    ensures r.Loaded? && !isRepo ==> r.repos == fetched.response.body.value
    ensures fetched.Rejected? ==> r == Failure(CaughtMessage(fetched.thrown))
    ensures fetched.Received? && fetched.response.status == 404 ==> r == Failure(NotFoundMessage)
    ensures fetched.Received? && fetched.response.status == 403 ==>
      r == Failure(RateLimitMessage(ResetTime(Header(fetched.response, RateLimitHeader), localeTime)))
    ensures (fetched.Received? && fetched.response.status != 404 && fetched.response.status != 403
             && !Ok(fetched.response.status)) ==> r == Failure(UnexpectedMessage)
    ensures fetched.Received? && Ok(fetched.response.status) && fetched.response.body.Unparseable? ==>
      r == Failure(CaughtMessage(fetched.response.body.thrown))
  {
    match fetched
    case Rejected(t) => Failure(CaughtMessage(t))
    case Received(response) =>
      if response.status == 404 then
        Failure(NotFoundMessage)
      else if response.status == 403 then
        Failure(RateLimitMessage(ResetTime(Header(response, RateLimitHeader), localeTime)))
      else if !Ok(response.status) then
        Failure(UnexpectedMessage)
      else
        match response.body
        case Unparseable(t) => Failure(CaughtMessage(t))
        case Json(data) => Loaded(if isRepo then JArray([data]) else data)
  }

  /** A failing status is decided without looking at the body. */
  lemma StatusFailureIgnoresBody(isRepo: bool, status: int, headers: map<string, string>,
                                 b1: Body<Json>, b2: Body<Json>, localeTime: Option<int> -> string)
    requires !Ok(status)
    ensures Resolve(isRepo, Received(Response(status, headers, b1)), localeTime)
         == Resolve(isRepo, Received(Response(status, headers, b2)), localeTime)
    ensures Resolve(isRepo, Received(Response(status, headers, b1)), localeTime).Failure?
  {
  }

  // ---------------------------------------------------------------------------
  // View state and what it renders

  datatype SearchState = SearchState(repos: Json, loading: bool, error: Option<string>, searched: bool)

  const Initial := SearchState(JArray([]), false, None, false)

  /** The state right after the four setters at the top of `onSubmit`. */
  const Started := SearchState(JArray([]), true, None, true)

  /** The state once the response has been read and the `finally` block has run. */
  function Settle(s: SearchState, r: Resolution): SearchState {
    match r
    case Failure(m) => s.(error := Some(m), loading := false)
    case Loaded(v) => s.(repos := v, loading := false)
  }

  /**
   * The combinations the flags can be in: while loading nothing else is set;
   * an error comes with no repositories; before the first search everything
   * is as initialised.
   */
  ghost predicate Consistent(s: SearchState) {
    && (s.loading ==> s.repos == JArray([]) && s.error == None && s.searched)
    && (s.error.Some? ==> s.repos == JArray([]))
    && (!s.searched ==> s == Initial)
  }

  datatype Panel = Skeleton | ErrorAlert | ResultsGrid | EmptyNotice

  /** The four render guards of the page. */
  predicate Shows(s: SearchState, p: Panel) {
    match p
    case Skeleton => s.loading
    case ErrorAlert => Truthy(s.error)
    case ResultsGrid => !s.loading && !Truthy(s.error) && Length(s.repos).Some? && Length(s.repos).value > 0
    case EmptyNotice => !s.loading && !Truthy(s.error) && Length(s.repos) == Some(0) && s.searched
  }

  function Panels(s: SearchState): set<Panel> {
    (if Shows(s, Skeleton) then {Skeleton} else {})
    + (if Shows(s, ErrorAlert) then {ErrorAlert} else {})
    + (if Shows(s, ResultsGrid) then {ResultsGrid} else {})
    + (if Shows(s, EmptyNotice) then {EmptyNotice} else {})
  }

  /** The search button is disabled exactly while a search is loading. */
  predicate SubmitDisabled(s: SearchState) {
    s.loading
  }

  lemma InitialConsistent()
    ensures Consistent(Initial) && Consistent(Started)
    ensures Panels(Initial) == {}
  {
  }

  /** Settling a started search keeps the flags consistent and ends loading. */
  lemma SettleConsistent(s: SearchState, r: Resolution)
    requires Consistent(s) && s.loading
    ensures Consistent(Settle(s, r))
    ensures !Settle(s, r).loading && Settle(s, r).searched
    ensures Settle(s, r).error.Some? ==> Settle(s, r).repos == JArray([])
  {
  }

  /** In every consistent state at most one panel is visible. */
  lemma AtMostOnePanel(s: SearchState)
    requires Consistent(s)
    ensures |Panels(s)| <= 1
  {
    if s.loading {
      assert Panels(s) == {Skeleton};
    } else if Truthy(s.error) {
      assert Panels(s) == {ErrorAlert};
    } else if Length(s.repos).Some? && Length(s.repos).value > 0 {
      assert Panels(s) == {ResultsGrid};
    } else if Length(s.repos) == Some(0) && s.searched {
      assert Panels(s) == {EmptyNotice};
    } else {
      assert Panels(s) == {};
    }
  }

  /** While a search is loading only the skeleton shows and submitting is disabled. */
  lemma LoadingView(s: SearchState)
    requires Consistent(s) && s.loading
    ensures Panels(s) == {Skeleton} && SubmitDisabled(s)
  {
  }

  /**
   * Which panel a finished search shows: the error alert for a non-empty
   * message (an empty one is falsy, so the empty notice shows instead), the
   * results grid for a non-empty array, the empty notice for an empty one,
   * and nothing for a user query whose body is a single object.
   */
  lemma SettledPanels(s: SearchState, r: Resolution)
    requires Consistent(s) && s.loading
    ensures !SubmitDisabled(Settle(s, r))
    ensures r.Failure? && r.message != "" ==> Panels(Settle(s, r)) == {ErrorAlert}
    ensures r.Failure? && r.message == "" ==> Panels(Settle(s, r)) == {EmptyNotice}
    ensures r.Loaded? && r.repos.JArray? && r.repos.items != [] ==> Panels(Settle(s, r)) == {ResultsGrid}
    ensures r.Loaded? && r.repos == JArray([]) ==> Panels(Settle(s, r)) == {EmptyNotice}
    ensures r.Loaded? && r.repos.JRepo? ==> Panels(Settle(s, r)) == {}
  {
  }

  /**
   * A whole search: every status the code names ends with its message in an
   * alert and no repositories; a successful repository query shows exactly
   * one card.
   */
  lemma SearchOutcome(query: string, fetched: Fetched<Json>, localeTime: Option<int> -> string)
    ensures var s := Settle(Started, Resolve(IsRepoQuery(query), fetched, localeTime));
      && Consistent(s) && !s.loading && s.searched
      && (fetched.Received? && !Ok(fetched.response.status) ==>
            s.repos == JArray([]) && Panels(s) == {ErrorAlert})
      && (IsRepoQuery(query) && fetched.Received? && Ok(fetched.response.status)
          && fetched.response.body.Json? ==>
            s.error == None && Length(s.repos) == Some(1) && Panels(s) == {ResultsGrid})
  {
    var r := Resolve(IsRepoQuery(query), fetched, localeTime);
    SettleConsistent(Started, r);
    SettledPanels(Started, r);
  }

  // ---------------------------------------------------------------------------
  // The component

  /** The search component's state hooks and its submit handler. */
  class SearchForm {
    var repos: Json
    var loading: bool
    var error: Option<string>
    var searched: bool

    function State(): SearchState
      reads this
    {
      SearchState(repos, loading, error, searched)
    }

    constructor ()
      ensures State() == Initial
    {
      repos := JArray([]);
      loading := false;
      error := None;
      searched := false;
    }

    /** The synchronous start of `onSubmit`: reset the view and choose the URL. */
    method BeginSubmit(query: string) returns (url: string)
      modifies this
      ensures State() == Started
      ensures url == RequestUrl(query)
    {
      loading := true;
      error := None;
      repos := JArray([]);
      searched := true;
      var isRepo := IsRepoQuery(query);
      url := if isRepo then RepoUrlPrefix + query else UserUrlPrefix + query + UserUrlSuffix;
    }

    /** The rest of `onSubmit`, once the fetch has settled. */
    method FinishSubmit(isRepo: bool, fetched: Fetched<Json>, localeTime: Option<int> -> string)
      modifies this
      ensures State() == Settle(old(State()), Resolve(isRepo, fetched, localeTime))
    {
      match fetched {
        case Rejected(t) =>
          error := Some(CaughtMessage(t));
        case Received(response) =>
          if response.status == 404 {
            error := Some(NotFoundMessage);
            loading := false;
            return;
          }
          if response.status == 403 {
            var reset := Header(response, RateLimitHeader);
            error := Some(RateLimitMessage(ResetTime(reset, localeTime)));
            loading := false;
            return;
          }
          if !Ok(response.status) {
            error := Some(UnexpectedMessage);
          } else {
            match response.body {
              case Unparseable(t) =>
                error := Some(CaughtMessage(t));
              case Json(data) =>
                repos := if isRepo then JArray([data]) else data;
            }
          }
      }
      loading := false;
    }

    /** `onSubmit` for a query that passed validation; `fetch` answers the request. */
    method OnSubmit(query: string, fetch: string -> Fetched<Json>, localeTime: Option<int> -> string)
      modifies this
      ensures State() == Settle(Started, Resolve(IsRepoQuery(query), fetch(RequestUrl(query)), localeTime))
      ensures Consistent(State()) && !loading && searched
    {
      var url := BeginSubmit(query);
      var fetched := fetch(url);
      FinishSubmit(IsRepoQuery(query), fetched, localeTime);
      SettleConsistent(Started, Resolve(IsRepoQuery(query), fetched, localeTime));
    }

    /** The form's submit: an empty query is stopped by validation and changes nothing. */
    method HandleSubmit(query: string, fetch: string -> Fetched<Json>, localeTime: Option<int> -> string)
      returns (problem: Option<string>)
      modifies this
      ensures problem == Validate(query)
      ensures problem.Some? ==> State() == old(State())
      ensures problem.None? ==>
        State() == Settle(Started, Resolve(IsRepoQuery(query), fetch(RequestUrl(query)), localeTime))
    {
      problem := Validate(query);
      if problem.None? {
        OnSubmit(query, fetch, localeTime);
      }
    }
  }
}
