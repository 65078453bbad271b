/**
 fetchTopLanguages: the GraphQL replies for one user are taken page by page,
 an error reply is mapped to the error the call fails with, and the pages
 taken are aggregated and ranked.

 The replies are the upstream answers in request order; the request itself
 (query text, batch size, cursor) is not modelled.
 */
module TopLanguages {
  import opened Wrappers
  import opened Repositories
  import opened Aggregation
  import opened Ranking

  /** One entry of a GraphQL `errors` list: its optional `type` and `message`. */
  datatype ErrorItem = ErrorItem(kind: Option<string>, message: Option<string>)

  /** A reply carries either a page of data or a non-empty list of errors. */
  datatype Reply = Data(page: Page) | Errors(first: ErrorItem, more: seq<ErrorItem>)

  /** The error the call fails with. */
  datatype Fault = UserNotFound(message: string) | QueryFailed(message: string)

  /** The weights a caller gets by leaving them out: rank by total size. */
  const DefaultSizeWeight: nat := 1
  const DefaultCountWeight: nat := 0

  const NotFoundType: string := "NOT_FOUND"
  const FallbackMessage: string := "Something went wrong while trying to retrieve the language data using the GraphQL API."

  /**
   Maps the first error of a reply: a NOT_FOUND error becomes UserNotFound
   with the upstream message, any other error keeps its own message, and an
   error without a message gets the fallback message.
   */
  function ToFault(e: ErrorItem): (f: Fault)
    ensures f.message == e.message.GetOr(FallbackMessage)
    ensures f.UserNotFound? <==> e.kind == Some(NotFoundType) && e.message.Some?
  {
    if e.kind == Some(NotFoundType) && e.message.Some? then UserNotFound(e.message.value)
    else QueryFailed(e.message.GetOr(FallbackMessage))
  }

  /** Another page is requested only when the switch is on and the page says there is one. */
  predicate Continues(p: Page, multiPage: bool)
  {
    multiPage && p.hasNextPage
  }

  /**
   The pages the call takes: the first reply, then one more for as long as
   the last page taken continues and replies remain. The first error reply
   reached fails the whole call; pages already taken are dropped.
   */
  function Collect(replies: seq<Reply>, multiPage: bool): (r: Result<seq<Page>, Fault>)
    ensures r.Success? ==>
      && |r.value| <= |replies|
      && (|replies| > 0 ==> |r.value| >= 1)
      && (forall i :: 0 <= i < |r.value| ==> replies[i] == Data(r.value[i]))
      && (forall i :: 0 <= i < |r.value| - 1 ==> Continues(r.value[i], multiPage))
      && (0 < |r.value| < |replies| ==> !Continues(r.value[|r.value| - 1], multiPage))
    ensures r.Failure? ==>
      exists i :: 0 <= i < |replies| && replies[i].Errors? && r.error == ToFault(replies[i].first)
        && forall j :: 0 <= j < i ==> replies[j].Data? && Continues(replies[j].page, multiPage)
  {
    if |replies| == 0 then Success([])
    else
      match replies[0]
      case Errors(e, _) => Failure(ToFault(e))
      case Data(p) =>
        if !Continues(p, multiPage) then Success([p])
        else
          match Collect(replies[1..], multiPage)
          case Success(rest) => Success([p] + rest)
          case Failure(f) => Failure(f)
  }

  /** The entry point: the ranked languages of the pages taken, or the error that stopped the call. */
  function FetchTopLanguages(replies: seq<Reply>, excludedRepos: set<string>, excludedLangs: set<string>,
                             sizeWeight: nat, countWeight: nat, multiPage: bool): (r: Result<map<string, TopLang>, Fault>)
    ensures r.Success? <==> Collect(replies, multiPage).Success?
    ensures r.Failure? ==> r.error == Collect(replies, multiPage).error
  {
    match Collect(replies, multiPage)
    case Failure(f) => Failure(f)
    case Success(pages) => Success(Rank(Aggregate(AllRepos(pages), excludedRepos, excludedLangs), sizeWeight, countWeight))
  }

  /**
   Each entry of a successful result: exactly the languages of the pages
   taken that some non-excluded repository uses, named by their key, with
   the count of their edges whatever the weights, and the weighted score of
   their total size and count.
   */
  lemma ResultEntries(replies: seq<Reply>, pages: seq<Page>, excludedRepos: set<string>, excludedLangs: set<string>,
                      sizeWeight: nat, countWeight: nat, multiPage: bool, lang: string)
    requires Collect(replies, multiPage) == Success(pages)
    ensures FetchTopLanguages(replies, excludedRepos, excludedLangs, sizeWeight, countWeight, multiPage).Success?
    ensures
      var r := FetchTopLanguages(replies, excludedRepos, excludedLangs, sizeWeight, countWeight, multiPage).value;
      && (lang in r <==> LanguageRepos(AllRepos(pages), excludedRepos, excludedLangs, lang) > 0)
      && (lang in r ==>
            && r[lang].name == lang
            && r[lang].count == LanguageEdges(AllRepos(pages), excludedRepos, excludedLangs, lang)
            && r[lang].size == Pow(LanguageBytes(AllRepos(pages), excludedRepos, excludedLangs, lang), sizeWeight)
                             * Pow(LanguageEdges(AllRepos(pages), excludedRepos, excludedLangs, lang), countWeight))
  {
    AggregateSpec(AllRepos(pages), excludedRepos, excludedLangs, lang);
  }

  /** With weights (1, 0) a language scores the total size of its edges over the non-excluded repositories. */
  lemma RankBySize(replies: seq<Reply>, excludedRepos: set<string>, excludedLangs: set<string>, multiPage: bool, lang: string)
    requires FetchTopLanguages(replies, excludedRepos, excludedLangs, 1, 0, multiPage).Success?
    requires lang in FetchTopLanguages(replies, excludedRepos, excludedLangs, 1, 0, multiPage).value
    ensures FetchTopLanguages(replies, excludedRepos, excludedLangs, 1, 0, multiPage).value[lang].size
         == LanguageBytes(AllRepos(Collect(replies, multiPage).value), excludedRepos, excludedLangs, lang)
  {
    ResultEntries(replies, Collect(replies, multiPage).value, excludedRepos, excludedLangs, 1, 0, multiPage, lang);
  }

  /** With weights (0, 1) a language scores the number of repositories that use it. */
  lemma RankByRepositories(replies: seq<Reply>, excludedRepos: set<string>, excludedLangs: set<string>, multiPage: bool, lang: string)
    requires FetchTopLanguages(replies, excludedRepos, excludedLangs, 0, 1, multiPage).Success?
    requires lang in FetchTopLanguages(replies, excludedRepos, excludedLangs, 0, 1, multiPage).value
    requires AllDistinctLanguages(AllRepos(Collect(replies, multiPage).value))
    ensures FetchTopLanguages(replies, excludedRepos, excludedLangs, 0, 1, multiPage).value[lang].size
         == LanguageRepos(AllRepos(Collect(replies, multiPage).value), excludedRepos, excludedLangs, lang)
  {
    var pages := Collect(replies, multiPage).value;
    ResultEntries(replies, pages, excludedRepos, excludedLangs, 0, 1, multiPage, lang);
    AggregateSpec(AllRepos(pages), excludedRepos, excludedLangs, lang);
  }

  /** The first reply failing fails the call with that reply's mapped error, whatever the other arguments. */
  lemma FirstReplyFails(replies: seq<Reply>, excludedRepos: set<string>, excludedLangs: set<string>,
                        sizeWeight: nat, countWeight: nat, multiPage: bool)
    requires |replies| > 0 && replies[0].Errors?
    ensures FetchTopLanguages(replies, excludedRepos, excludedLangs, sizeWeight, countWeight, multiPage)
         == Failure(ToFault(replies[0].first))
  {
  }

  /** With the switch off only the first page counts, even when it says another page exists. */
  lemma SwitchOffTakesFirstPage(replies: seq<Reply>, excludedRepos: set<string>, excludedLangs: set<string>,
                                sizeWeight: nat, countWeight: nat)
    requires |replies| > 0 && replies[0].Data?
    ensures FetchTopLanguages(replies, excludedRepos, excludedLangs, sizeWeight, countWeight, false)
         == Success(Rank(Aggregate(replies[0].page.repos, excludedRepos, excludedLangs), sizeWeight, countWeight))
  {
    var p := replies[0].page;
    assert Collect(replies, false) == Success([p]);
    assert AllRepos([p]) == p.repos + AllRepos([]);
    assert p.repos + [] == p.repos;
  }

  /**
   With the switch on, a first page that says another page exists is merged
   with the pages after it: per language, sizes and counts add up, and a
   language seen on one side only keeps that side's size and count.
   */
  lemma SwitchOnMergesPages(replies: seq<Reply>, excludedRepos: set<string>, excludedLangs: set<string>, lang: string)
    requires |replies| > 0 && replies[0].Data? && replies[0].page.hasNextPage
    requires Collect(replies[1..], true).Success?
    ensures FetchTopLanguages(replies, excludedRepos, excludedLangs, 1, 0, true).Success?
    ensures
      var r := FetchTopLanguages(replies, excludedRepos, excludedLangs, 1, 0, true).value;
      var first := Aggregate(replies[0].page.repos, excludedRepos, excludedLangs);
      var later := Aggregate(AllRepos(Collect(replies[1..], true).value), excludedRepos, excludedLangs);
      && (lang in r <==> lang in first || lang in later)
      && (lang in r ==> r[lang].size == BytesIn(first, lang) + BytesIn(later, lang))
      && (lang in r ==> r[lang].count == CountIn(first, lang) + CountIn(later, lang))
  {
    var p := replies[0].page;
    var rest := Collect(replies[1..], true).value;
    assert Collect(replies, true) == Success([p] + rest);
    MergePages([p], rest, excludedRepos, excludedLangs, lang);
    assert AllRepos([p]) == p.repos + AllRepos([]);
    assert p.repos + [] == p.repos;
  }
}
