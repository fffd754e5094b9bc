/**
 * The repository card: compact star, fork and contributor counts, the
 * contributor count read from the `Link` header or the response body, the
 * languages map, and the "Suggest" panel with its three pieces of state.
 */
module RepoCard {
  import opened Js
  import opened Http
  import opened Types
  import LastPageLink
  import opened Actions

  // ---------------------------------------------------------------------------
  // formatStat

  /**
   * `formatStat(n)`: millions and thousands get one decimal and an `m` or `k`,
   * smaller counts are written out. `fixed1` stands for `toFixed(1)` of the
   * floating-point quotient.
   */
  function FormatStat(n: nat, fixed1: real -> string): (r: string)
    ensures r != []
    ensures r[|r| - 1] == 'm' <==> n >= 1000000
    ensures r[|r| - 1] == 'k' <==> 1000 <= n < 1000000
    ensures n >= 1000000 ==> r == fixed1(n as real / 1000000.0) + "m"
    ensures 1000 <= n < 1000000 ==> r == fixed1(n as real / 1000.0) + "k"
    ensures n < 1000 ==> |r| <= 3 && AllDigits(r, false) && DigitsValue(r, false) == n
  {
    if n >= 1000000 then fixed1(n as real / 1000000.0) + "m"
    else if n >= 1000 then fixed1(n as real / 1000.0) + "k"
    else
      var s := DecimalString(n);
      DecimalStringValue(n);
      assert n >= 100 ==> s == DecimalString(n / 10) + [DigitChar(n % 10)];
      s
  }

  /** A count below 1000 is shown as its own decimal digits, which read back as the count. */
  lemma FormatStatSmall(n: nat, fixed1: real -> string)
    requires n < 1000
    ensures FormatStat(n, fixed1) == DecimalString(n)
    ensures ParseInt(FormatStat(n, fixed1), Decimal) == Some(n)
  {
    ParseIntDecimalString(n, Decimal);
  }

  /** Different counts below 1000 are shown differently. */
  lemma FormatStatSmallInjective(m: nat, n: nat, fixed1: real -> string)
    requires m < 1000 && n < 1000 && FormatStat(m, fixed1) == FormatStat(n, fixed1)
    ensures m == n
  {
    FormatStatSmall(m, fixed1);
    FormatStatSmall(n, fixed1);
    DecimalStringInjective(m, n);
  }

  // ---------------------------------------------------------------------------
  // Contributors

  /** What `res.json()` gives for the contributors endpoint: an array (its length), or anything else. */
  datatype ContributorsBody = ArrayBody(length: nat) | OtherBody

  const PerPageOne := "?per_page=1"
  const LinkHeader := "link"
  const NotAvailable := "N/A"
  const Pending := "..."

  /** The request asks for one contributor per page, so the last page number is the count. */
  function ContributorsRequest(contributorsUrl: string): (url: string)
    ensures |url| == |contributorsUrl| + |PerPageOne|
    ensures url[..|contributorsUrl|] == contributorsUrl && url[|contributorsUrl|..] == PerPageOne
  {
    contributorsUrl + PerPageOne
  }

  /** Different repositories send their contributor requests to different URLs. */
  lemma ContributorsRequestInjective(u1: string, u2: string)
    requires ContributorsRequest(u1) == ContributorsRequest(u2)
    ensures u1 == u2
  {
    assert |u1| == |u2|;
    assert u1 == ContributorsRequest(u1)[..|u1|];
  }

  /** The count a parsed body gives: an array's length; anything else has none. */
  function BodyCount(body: Body<ContributorsBody>): (count: Option<nat>)
    ensures count.Some? <==> body.Json? && body.value.ArrayBody?
    ensures count.Some? ==> count.value == body.value.length
  {
    match body
    case Json(ArrayBody(k)) => Some(k)
    case _ => None
  }

  /**
   * The number of contributors the card works out, None where it shows "N/A":
   * a rejected fetch or a status outside 200-299 gives none; a non-empty
   * `Link` header whose `rel="last"` link matches gives that page number,
   * read by `parseInt(..., 10)`; otherwise the body decides.
   */
  function ContributorCount(fetched: Fetched<ContributorsBody>): (count: Option<nat>)
    ensures fetched.Rejected? ==> count.None?
    ensures fetched.Received? && !Ok(fetched.response.status) ==> count.None?
    ensures fetched.Received? && Ok(fetched.response.status) ==>
      var link := Header(fetched.response, LinkHeader);
      if Truthy(link) && LastPageLink.LastPage(link.value).Some? then
        count == Some(DigitsValue(LastPageLink.LastPage(link.value).value, false))
      else
        count == BodyCount(fetched.response.body)
  {
    match fetched
    case Rejected(_) => None
    case Received(response) =>
      if !Ok(response.status) then None
      else
        var link := Header(response, LinkHeader);
        if Truthy(link) then
          match LastPageLink.LastPage(link.value)
          case Some(page) =>
            ParseIntDigits(page, Decimal);
            var n := ParseInt(page, Decimal).value;
            Some(n)
          case None => BodyCount(response.body)
        else
          BodyCount(response.body)
  }

  /** The text the card shows: "N/A" without a count, the formatted count otherwise. */
  function ContributorsText(fetched: Fetched<ContributorsBody>, fixed1: real -> string): (text: string)
    ensures text == NotAvailable <==> ContributorCount(fetched).None?
    ensures ContributorCount(fetched).Some? ==> text == FormatStat(ContributorCount(fetched).value, fixed1)
    ensures text != Pending
  {
    match ContributorCount(fetched)
    case None => NotAvailable
    case Some(n) =>
      var t := FormatStat(n, fixed1);
      assert t[|t| - 1] != 'A' by {
        if n < 1000 { assert IsDecimalDigit(t[|t| - 1]); }
      }
      assert t[|t| - 1] != '.' by {
        if n < 1000 { assert IsDecimalDigit(t[|t| - 1]); }
      }
      t
  }

  /** A matching `Link` header decides the count; the body is not read. */
  lemma LinkOverridesBody(status: int, headers: map<string, string>, b1: Body<ContributorsBody>, b2: Body<ContributorsBody>)
    requires Ok(status) && LinkHeader in headers && headers[LinkHeader] != ""
    requires LastPageLink.LastPage(headers[LinkHeader]).Some?
    ensures ContributorCount(Received(Response(status, headers, b1)))
         == ContributorCount(Received(Response(status, headers, b2)))
    ensures ContributorCount(Received(Response(status, headers, b1))).Some?
  {
  }

  /** Without a `Link` header the body decides: an array's length, "N/A" for anything else. */
  lemma NoLinkUsesBody(status: int, headers: map<string, string>, body: Body<ContributorsBody>)
    requires Ok(status) && LinkHeader !in headers
    ensures ContributorCount(Received(Response(status, headers, body))) == BodyCount(body)
  {
  }

  /**
   * GitHub's header for one contributor per page, with a single
   * `rel="last"` link to page N, gives N contributors.
   */
  lemma LastLinkCount(status: int, headers: map<string, string>, body: Body<ContributorsBody>, url: string, n: nat)
    requires Ok(status) && LastPageLink.Plain(url)
    requires LinkHeader in headers
    requires headers[LinkHeader] == "<" + (url + (LastPageLink.PageKey + (DecimalString(n) + LastPageLink.RelLast)))
    ensures ContributorCount(Received(Response(status, headers, body))) == Some(n)
  {
    LastPageLink.SingleLink(headers[LinkHeader], url, n);
    DecimalStringValue(n);
  }

  /** The same with a `rel="next"` link in front, as on every page but the last. */
  lemma NextAndLastLinkCount(status: int, headers: map<string, string>, body: Body<ContributorsBody>,
                             url1: string, a: nat, url2: string, n: nat)
    requires Ok(status) && LastPageLink.Plain(url1) && LastPageLink.Plain(url2)
    requires LinkHeader in headers
    requires headers[LinkHeader] == "<" + (url1 + (LastPageLink.PageKey + (DecimalString(a) + (LastPageLink.RelNext
                                    + (url2 + (LastPageLink.PageKey + (DecimalString(n) + LastPageLink.RelLast)))))))
    ensures ContributorCount(Received(Response(status, headers, body))) == Some(n)
  {
    LastPageLink.NextAndLastLinks(headers[LinkHeader], url1, a, url2, n);
    DecimalStringValue(n);
  }

  /** A last link to `page=42` shows "42". */
  lemma Page42(status: int, headers: map<string, string>, body: Body<ContributorsBody>, url: string,
               fixed1: real -> string)
    requires Ok(status) && LastPageLink.Plain(url)
    requires LinkHeader in headers
    requires headers[LinkHeader] == "<" + (url + (LastPageLink.PageKey + ("42" + LastPageLink.RelLast)))
    ensures ContributorsText(Received(Response(status, headers, body)), fixed1) == "42"
  {
    assert DecimalString(42) == "42";
    LastLinkCount(status, headers, body, url, 42);
  }

  // ---------------------------------------------------------------------------
  // Languages

  /** The languages map, or None for null. */
  type Languages = Option<map<string, nat>>

  /**
   * What `languages` becomes after the languages request: the parsed map when
   * the status is in 200-299 and the map has a key; in every other case,
   * failures included, it is left as it was.
   */
  function LanguagesAfter(current: Languages, fetched: Fetched<map<string, nat>>): (next: Languages)
    ensures next != current ==>
      && fetched.Received? && Ok(fetched.response.status)
      && fetched.response.body.Json? && |fetched.response.body.value| > 0
      && next == Some(fetched.response.body.value)
    ensures (fetched.Received? && Ok(fetched.response.status) && fetched.response.body.Json?
             && |fetched.response.body.value| > 0) ==> next == Some(fetched.response.body.value)
  {
    match fetched
    case Rejected(_) => current
    case Received(response) =>
      if Ok(response.status) then
        match response.body
        case Json(data) => if |data.Keys| > 0 then Some(data) else current
        case Unparseable(_) => current
      else current
  }

  /** From null, the card ends with languages only for an accepted, non-empty map. */
  lemma LanguagesFromNull(fetched: Fetched<map<string, nat>>)
    ensures LanguagesAfter(None, fetched).Some? <==>
      fetched.Received? && Ok(fetched.response.status) && fetched.response.body.Json?
      && fetched.response.body.value != map[]
    ensures LanguagesAfter(None, fetched).Some? ==> LanguagesAfter(None, fetched).value != map[]
  {
    if fetched.Received? && fetched.response.body.Json? && fetched.response.body.value != map[] {
      var data := fetched.response.body.value;
      var k :| k in data;
      assert k in data.Keys;
    }
  }

  // ---------------------------------------------------------------------------
  // Suggestions

  datatype RelatedState = RelatedState(repos: seq<string>, fetching: bool, message: Option<string>)

  const RelatedInitial := RelatedState([], false, None)

  /** The state right after the three setters at the top of `handleFetchRelated`. */
  const RelatedStarted := RelatedState([], true, None)

  /** `result.data || []`. */
  function DataOrEmpty(data: Option<seq<string>>): seq<string> {
    if data.Some? then data.value else []
  }

  /**
   * The state once the action has answered: an error goes to the message
   * line and the list stays as it was; a message goes there with the list;
   * otherwise only the list is set. Fetching ends in every case.
   */
  function RelatedAfter(s: RelatedState, result: RelatedResult): (t: RelatedState)
    ensures !t.fetching
    ensures Truthy(result.error) ==> t == s.(fetching := false, message := result.error)
    ensures !Truthy(result.error) && Truthy(result.message) ==>
      t == RelatedState(DataOrEmpty(result.data), false, result.message)
    ensures !Truthy(result.error) && !Truthy(result.message) ==>
      t == s.(repos := DataOrEmpty(result.data), fetching := false)
  {
    if Truthy(result.error) then s.(message := result.error, fetching := false)
    else if Truthy(result.message) then s.(message := result.message, repos := DataOrEmpty(result.data), fetching := false)
    else s.(repos := DataOrEmpty(result.data), fetching := false)
  }

  /** The badges the card shows: none while fetching, else one per name in list order. */
  function Badges(s: RelatedState): (names: seq<string>)
    ensures names != [] <==> !s.fetching && s.repos != []
    ensures names != [] ==> names == s.repos
  {
    if !s.fetching && |s.repos| > 0 then s.repos else []
  }

  /** The "Suggest" button is disabled while fetching. */
  predicate SuggestDisabled(s: RelatedState) {
    s.fetching
  }

  /** The "Finding related repositories..." line shows while fetching. */
  predicate ShowsSpinner(s: RelatedState) {
    s.fetching
  }

  /** The message line shows a non-empty message. */
  predicate ShowsMessage(s: RelatedState) {
    Truthy(s.message)
  }

  /**
   * While fetching, the button is disabled, the spinner line shows and nothing
   * else does. A rejected call to the server action leaves the card here.
   */
  lemma FetchingView()
    ensures SuggestDisabled(RelatedStarted) && ShowsSpinner(RelatedStarted)
    ensures !ShowsMessage(RelatedStarted) && Badges(RelatedStarted) == []
  {
  }

  /**
   * A whole round of `handleFetchRelated` for each answer of the service: a
   * failure shows the error and no badges; no suggestions show their message
   * and no badges; suggestions show one badge per name, in order, and no message.
   */
  lemma RelatedOutcome(repoName: string, suggest: string -> Suggestion)
    ensures var t := RelatedAfter(RelatedStarted, GetRelatedRepos(repoName, suggest));
      && !SuggestDisabled(t) && !ShowsSpinner(t)
      && (suggest(repoName).Threw? ==>
            t.message == Some(FailureMessage) && ShowsMessage(t) && Badges(t) == [])
      && (suggest(repoName).Returned? && (suggest(repoName).names.None? || suggest(repoName).names.value == []) ==>
            t.message == Some(NoSuggestionsMessage) && ShowsMessage(t) && Badges(t) == [])
      && (suggest(repoName).Returned? && suggest(repoName).names.Some? && suggest(repoName).names.value != [] ==>
            t.message.None? && !ShowsMessage(t) && Badges(t) == suggest(repoName).names.value)
  {
    ClassifyShape(suggest(repoName));
  }

  /** The answer "torvalds/subsurface", "git/git" for the Linux repository gives exactly those two badges. */
  lemma LinuxSuggestions(suggest: string -> Suggestion)
    requires suggest("torvalds/linux") == Returned(Some(["torvalds/subsurface", "git/git"]))
    ensures Badges(RelatedAfter(RelatedStarted, GetRelatedRepos("torvalds/linux", suggest)))
         == ["torvalds/subsurface", "git/git"]
  {
    RelatedOutcome("torvalds/linux", suggest);
  }

  // ---------------------------------------------------------------------------
  // The component

  /** One card's state hooks and its two asynchronous handlers. */
  class Card {
    const repo: Repo
    var contributors: string
    var languages: Languages
    var relatedRepos: seq<string>
    var isFetchingRelated: bool
    var relatedMessage: Option<string>

    function Related(): RelatedState
      reads this
    {
      RelatedState(relatedRepos, isFetchingRelated, relatedMessage)
    }

    constructor (r: Repo)
      ensures repo == r && contributors == Pending && languages.None? && Related() == RelatedInitial
    {
      repo := r;
      contributors := Pending;
      languages := None;
      relatedRepos := [];
      isFetchingRelated := false;
      relatedMessage := None;
    }

    /** The contributors half of `fetchExtraData`, once its fetch has settled. */
    method SetContributors(fetched: Fetched<ContributorsBody>, fixed1: real -> string)
      modifies this
      ensures contributors == ContributorsText(fetched, fixed1)
      ensures languages == old(languages) && Related() == old(Related())
    {
      match fetched {
        case Rejected(_) =>
          contributors := NotAvailable;
        case Received(res) =>
          if !Ok(res.status) {
            contributors := NotAvailable;
          } else {
            var linkHeader := Header(res, LinkHeader);
            var lastPageMatch: Option<string> := None;
            if Truthy(linkHeader) {
              lastPageMatch := LastPageLink.LastPage(linkHeader.value);
            }
            if lastPageMatch.Some? {
              ParseIntDigits(lastPageMatch.value, Decimal);
              var n := ParseInt(lastPageMatch.value, Decimal).value;
              contributors := FormatStat(n, fixed1);
            } else {
              match res.body {
                case Unparseable(_) =>
                  contributors := NotAvailable;
                case Json(data) =>
                  contributors := if data.ArrayBody? then FormatStat(data.length, fixed1) else NotAvailable;
              }
            }
          }
      }
    }

    /** The languages half of `fetchExtraData`, once its fetch has settled. */
    method SetLanguages(fetched: Fetched<map<string, nat>>)
      modifies this
      ensures languages == LanguagesAfter(old(languages), fetched)
      ensures contributors == old(contributors) && Related() == old(Related())
    {
      if fetched.Received? && Ok(fetched.response.status) {
        var body := fetched.response.body;
        if body.Json? && |body.value.Keys| > 0 {
          languages := Some(body.value);
        }
      }
    }

    /**
     * `fetchExtraData`: the contributors request, then the languages request.
     * `fetchContributors` and `fetchLanguages` answer the two URLs.
     */
    method FetchExtraData(fetchContributors: string -> Fetched<ContributorsBody>,
                          fetchLanguages: string -> Fetched<map<string, nat>>, fixed1: real -> string)
      modifies this
      ensures contributors == ContributorsText(fetchContributors(ContributorsRequest(repo.contributorsUrl)), fixed1)
      ensures languages == LanguagesAfter(old(languages), fetchLanguages(repo.languagesUrl))
      ensures Related() == old(Related())
    {
      var res := fetchContributors(repo.contributorsUrl + PerPageOne);
      SetContributors(res, fixed1);
      var langRes := fetchLanguages(repo.languagesUrl);
      SetLanguages(langRes);
    }

    /** The synchronous start of `handleFetchRelated`. */
    method BeginFetchRelated()
      modifies this
      ensures Related() == RelatedStarted
      ensures contributors == old(contributors) && languages == old(languages)
    {
      isFetchingRelated := true;
      relatedMessage := None;
      relatedRepos := [];
    }

    /** The rest of `handleFetchRelated`, once the action has answered. */
    method CompleteFetchRelated(result: RelatedResult)
      modifies this
      ensures Related() == RelatedAfter(old(Related()), result)
      ensures contributors == old(contributors) && languages == old(languages)
    {
      if Truthy(result.error) {
        relatedMessage := result.error;
      } else if Truthy(result.message) {
        relatedMessage := result.message;
        relatedRepos := DataOrEmpty(result.data);
      } else {
        relatedRepos := DataOrEmpty(result.data);
      }
      isFetchingRelated := false;
    }

    /**
     * `handleFetchRelated`: `suggest` answers for the card's repository.
     * `callRejects` says whether the call to the server action itself rejects
     * (a network failure, or a server error outside the action's own `try`).
     * No `try` surrounds that `await`, so the handler then stops after its
     * first three setters and fetching never ends.
     */
    method HandleFetchRelated(suggest: string -> Suggestion, callRejects: bool)
      modifies this
      ensures callRejects ==> Related() == RelatedStarted
      ensures !callRejects ==> Related() == RelatedAfter(RelatedStarted, GetRelatedRepos(repo.fullName, suggest))
      ensures contributors == old(contributors) && languages == old(languages)
    {
      BeginFetchRelated();
      if callRejects {
        return;
      }
      var result := GetRelatedRepos(repo.fullName, suggest);
      CompleteFetchRelated(result);
    }
  }
}
