/** The replies and expected results of the fetchTopLanguages test cases, with natural-number weights. */
module Scenarios {
  import opened Wrappers
  import opened Repositories
  import opened Aggregation
  import opened Ranking
  import opened TopLanguages

  function HtmlEdge(size: nat): Edge { Edge(size, "#0f0", "HTML") }
  function JsEdge(size: nat): Edge { Edge(size, "#0ff", "javascript") }
  function PythonEdge(size: nat): Edge { Edge(size, "#f00", "Python") }

  /** Four repositories, two with 100 bytes of HTML and two with 100 bytes of javascript, on one page. */
  const LangsPage: Page := Page([
    Repo("test-repo-1", [HtmlEdge(100)]),
    Repo("test-repo-2", [HtmlEdge(100)]),
    Repo("test-repo-3", [JsEdge(100)]),
    Repo("test-repo-4", [JsEdge(100)])], false)

  /** The first of two pages: it says another page exists. */
  const FirstPage: Page := Page([
    Repo("test-repo-1", [HtmlEdge(100)]),
    Repo("test-repo-2", [JsEdge(150)])], true)

  const SecondPage: Page := Page([
    Repo("test-repo-3", [HtmlEdge(200)]),
    Repo("test-repo-4", [PythonEdge(250)])], false)

  /** A single page that says another page exists. */
  const OnlyPage: Page := Page([Repo("test-repo-1", [HtmlEdge(100)])], true)

  lemma OnePage(p: Page, multiPage: bool)
    requires !Continues(p, multiPage)
    ensures Collect([Data(p)], multiPage) == Success([p])
    ensures AllRepos([p]) == p.repos
  {
    assert AllRepos([p]) == p.repos + AllRepos([]);
  }

  /** Unfolds the flattening by one repository with a single edge. */
  lemma ConsOne(r: Repo, rest: seq<Repo>, excluded: set<string>)
    requires |r.edges| == 1
    ensures Contributing([r] + rest, excluded, {}) == (if r.name in excluded then [] else r.edges) + Contributing(rest, excluded, {})
  {
    assert ([r] + rest)[0] == r;
    assert ([r] + rest)[1..] == rest;
    KeptNone(r.edges, {});
  }

  lemma TallySnoc(es: seq<Edge>, e: Edge)
    ensures TallyEdges(es + [e]) == AddEdge(TallyEdges(es), e)
  {
    assert (es + [e])[..|es|] == es;
  }

  lemma RankOne(k: string, t: Tally, sizeWeight: nat, countWeight: nat)
    ensures Rank(map[k := t], sizeWeight, countWeight)
         == map[k := TopLang(t.name, t.color, t.count, Score(t, sizeWeight, countWeight))]
  {
  }

  lemma RankTwo(k1: string, t1: Tally, k2: string, t2: Tally, sizeWeight: nat, countWeight: nat)
    requires k1 != k2
    ensures Rank(map[k1 := t1, k2 := t2], sizeWeight, countWeight)
         == map[k1 := TopLang(t1.name, t1.color, t1.count, Score(t1, sizeWeight, countWeight)),
                k2 := TopLang(t2.name, t2.color, t2.count, Score(t2, sizeWeight, countWeight))]
  {
  }

  lemma RankThree(k1: string, t1: Tally, k2: string, t2: Tally, k3: string, t3: Tally, sizeWeight: nat, countWeight: nat)
    requires k1 != k2 && k1 != k3 && k2 != k3
    ensures Rank(map[k1 := t1, k2 := t2, k3 := t3], sizeWeight, countWeight)
         == map[k1 := TopLang(t1.name, t1.color, t1.count, Score(t1, sizeWeight, countWeight)),
                k2 := TopLang(t2.name, t2.color, t2.count, Score(t2, sizeWeight, countWeight)),
                k3 := TopLang(t3.name, t3.color, t3.count, Score(t3, sizeWeight, countWeight))]
  {
  }

  /** The edges of the one-page reply that reach the accumulator, with or without test-repo-1. */
  lemma LangsPageEdges(excluded: set<string>)
    requires "test-repo-2" !in excluded && "test-repo-3" !in excluded && "test-repo-4" !in excluded
    ensures Contributing(LangsPage.repos, excluded, {})
         == (if "test-repo-1" in excluded then [] else [HtmlEdge(100)]) + [HtmlEdge(100), JsEdge(100), JsEdge(100)]
  {
    var r1 := Repo("test-repo-1", [HtmlEdge(100)]);
    var r2 := Repo("test-repo-2", [HtmlEdge(100)]);
    var r3 := Repo("test-repo-3", [JsEdge(100)]);
    var r4 := Repo("test-repo-4", [JsEdge(100)]);
    assert LangsPage.repos == [r1] + ([r2] + ([r3] + ([r4] + [])));
    ConsOne(r4, [], excluded);
    ConsOne(r3, [r4] + [], excluded);
    ConsOne(r2, [r3] + ([r4] + []), excluded);
    ConsOne(r1, [r2] + ([r3] + ([r4] + [])), excluded);
  }

  /** The tally of the four edges of the one-page reply. */
  lemma LangsPageEdgesTally()
    ensures TallyEdges([HtmlEdge(100), HtmlEdge(100), JsEdge(100), JsEdge(100)])
         == map["HTML" := Tally("HTML", "#0f0", 2, 200), "javascript" := Tally("javascript", "#0ff", 2, 200)]
  {
    var e1 := [HtmlEdge(100)];
    var e2 := e1 + [HtmlEdge(100)];
    var e3 := e2 + [JsEdge(100)];
    var e4 := e3 + [JsEdge(100)];
    var t1 := map["HTML" := Tally("HTML", "#0f0", 1, 100)];
    var t2 := map["HTML" := Tally("HTML", "#0f0", 2, 200)];
    var t3 := t2["javascript" := Tally("javascript", "#0ff", 1, 100)];
    var t4 := t3["javascript" := Tally("javascript", "#0ff", 2, 200)];
    assert e4 == [HtmlEdge(100), HtmlEdge(100), JsEdge(100), JsEdge(100)];
    assert TallyEdges(e1) == t1 by {
      TallySnoc([], HtmlEdge(100));
      assert [] + [HtmlEdge(100)] == e1;
    }
    assert TallyEdges(e2) == t2 by {
      TallySnoc(e1, HtmlEdge(100));
    }
    assert TallyEdges(e3) == t3 by {
      TallySnoc(e2, JsEdge(100));
    }
    assert TallyEdges(e4) == t4 by {
      TallySnoc(e3, JsEdge(100));
    }
  }

  /** The one-page tally with no exclusion. */
  lemma LangsPageTally()
    ensures Aggregate(LangsPage.repos, {}, {})
         == map["HTML" := Tally("HTML", "#0f0", 2, 200), "javascript" := Tally("javascript", "#0ff", 2, 200)]
  {
    LangsPageEdges({});
    assert "test-repo-1" !in {};
    assert [HtmlEdge(100)] + [HtmlEdge(100), JsEdge(100), JsEdge(100)]
        == [HtmlEdge(100), HtmlEdge(100), JsEdge(100), JsEdge(100)];
    LangsPageEdgesTally();
  }

  /** The one-page tally without test-repo-1. */
  lemma LangsPageTallyExcluding()
    ensures Aggregate(LangsPage.repos, {"test-repo-1"}, {})
         == map["HTML" := Tally("HTML", "#0f0", 1, 100), "javascript" := Tally("javascript", "#0ff", 2, 200)]
  {
    LangsPageEdges({"test-repo-1"});
    var e1 := [HtmlEdge(100)];
    var e2 := e1 + [JsEdge(100)];
    var e3 := e2 + [JsEdge(100)];
    assert e3 == [] + [HtmlEdge(100), JsEdge(100), JsEdge(100)];
    assert "test-repo-1" in {"test-repo-1"};
    TallySnoc([], HtmlEdge(100));
    assert [] + [HtmlEdge(100)] == e1;
    TallySnoc(e1, JsEdge(100));
    TallySnoc(e2, JsEdge(100));
    var t2 := map["HTML" := Tally("HTML", "#0f0", 1, 100), "javascript" := Tally("javascript", "#0ff", 1, 100)];
    assert TallyEdges(e1) == map["HTML" := Tally("HTML", "#0f0", 1, 100)];
    assert TallyEdges(e2) == t2;
    assert AddEdge(t2, JsEdge(100)) == t2["javascript" := Tally("javascript", "#0ff", 2, 200)];
  }

  lemma SizeWeighting()
    ensures FetchTopLanguages([Data(LangsPage)], {}, {}, 1, 0, false)
         == Success(map["HTML" := TopLang("HTML", "#0f0", 2, 200), "javascript" := TopLang("javascript", "#0ff", 2, 200)])
  {
    OnePage(LangsPage, false);
    LangsPageTally();
    RankTwo("HTML", Tally("HTML", "#0f0", 2, 200), "javascript", Tally("javascript", "#0ff", 2, 200), 1, 0);
  }

  lemma CountWeighting()
    ensures FetchTopLanguages([Data(LangsPage)], {}, {}, 0, 1, false)
         == Success(map["HTML" := TopLang("HTML", "#0f0", 2, 2), "javascript" := TopLang("javascript", "#0ff", 2, 2)])
  {
    OnePage(LangsPage, false);
    LangsPageTally();
    RankTwo("HTML", Tally("HTML", "#0f0", 2, 200), "javascript", Tally("javascript", "#0ff", 2, 200), 0, 1);
  }

  lemma ExcludingTestRepo1()
    ensures FetchTopLanguages([Data(LangsPage)], {"test-repo-1"}, {}, DefaultSizeWeight, DefaultCountWeight, false)
         == Success(map["HTML" := TopLang("HTML", "#0f0", 1, 100), "javascript" := TopLang("javascript", "#0ff", 2, 200)])
  {
    OnePage(LangsPage, false);
    LangsPageTallyExcluding();
    RankTwo("HTML", Tally("HTML", "#0f0", 1, 100), "javascript", Tally("javascript", "#0ff", 2, 200), 1, 0);
  }

  lemma TwoPagesEdges()
    ensures Collect([Data(FirstPage), Data(SecondPage)], true) == Success([FirstPage, SecondPage])
    ensures Contributing(AllRepos([FirstPage, SecondPage]), {}, {})
         == [HtmlEdge(100), JsEdge(150), HtmlEdge(200), PythonEdge(250)]
  {
    var replies := [Data(FirstPage), Data(SecondPage)];
    assert replies[1..] == [Data(SecondPage)];
    OnePage(SecondPage, true);
    assert Collect(replies, true) == Success([FirstPage] + [SecondPage]);
    assert [FirstPage] + [SecondPage] == [FirstPage, SecondPage];
    assert [FirstPage, SecondPage][1..] == [SecondPage];
    assert AllRepos([FirstPage, SecondPage]) == FirstPage.repos + AllRepos([SecondPage]);
    var r1 := Repo("test-repo-1", [HtmlEdge(100)]);
    var r2 := Repo("test-repo-2", [JsEdge(150)]);
    var r3 := Repo("test-repo-3", [HtmlEdge(200)]);
    var r4 := Repo("test-repo-4", [PythonEdge(250)]);
    assert FirstPage.repos + SecondPage.repos == [r1] + ([r2] + ([r3] + ([r4] + [])));
    ConsOne(r4, [], {});
    ConsOne(r3, [r4] + [], {});
    ConsOne(r2, [r3] + ([r4] + []), {});
    ConsOne(r1, [r2] + ([r3] + ([r4] + [])), {});
  }

  /** The tally of the two pages together. */
  lemma TwoPagesTally()
    ensures Aggregate(AllRepos([FirstPage, SecondPage]), {}, {})
         == map["HTML" := Tally("HTML", "#0f0", 2, 300), "javascript" := Tally("javascript", "#0ff", 1, 150),
                "Python" := Tally("Python", "#f00", 1, 250)]
  {
    var e1 := [HtmlEdge(100)];
    var e2 := e1 + [JsEdge(150)];
    var e3 := e2 + [HtmlEdge(200)];
    var e4 := e3 + [PythonEdge(250)];
    var t1 := map["HTML" := Tally("HTML", "#0f0", 1, 100)];
    var t2 := t1["javascript" := Tally("javascript", "#0ff", 1, 150)];
    var t3 := t2["HTML" := Tally("HTML", "#0f0", 2, 300)];
    var t4 := t3["Python" := Tally("Python", "#f00", 1, 250)];
    assert Contributing(AllRepos([FirstPage, SecondPage]), {}, {}) == e4 by {
      TwoPagesEdges();
      assert e4 == [HtmlEdge(100), JsEdge(150), HtmlEdge(200), PythonEdge(250)];
    }
    assert TallyEdges(e1) == t1 by {
      TallySnoc([], HtmlEdge(100));
      assert [] + [HtmlEdge(100)] == e1;
    }
    assert TallyEdges(e2) == t2 by {
      TallySnoc(e1, JsEdge(150));
    }
    assert TallyEdges(e3) == t3 by {
      TallySnoc(e2, HtmlEdge(200));
    }
    assert TallyEdges(e4) == t4 by {
      TallySnoc(e3, PythonEdge(250));
    }
  }

  lemma TwoPagesMerged()
    ensures FetchTopLanguages([Data(FirstPage), Data(SecondPage)], {}, {}, 1, 0, true)
         == Success(map[
              "HTML" := TopLang("HTML", "#0f0", 2, 300),
              "javascript" := TopLang("javascript", "#0ff", 1, 150),
              "Python" := TopLang("Python", "#f00", 1, 250)])
  {
    TwoPagesEdges();
    TwoPagesTally();
    RankThree("HTML", Tally("HTML", "#0f0", 2, 300), "javascript", Tally("javascript", "#0ff", 1, 150),
              "Python", Tally("Python", "#f00", 1, 250), 1, 0);
  }

  /** The switch off: the second reply is never looked at, although the first page says it exists. */
  lemma FirstPageOnly()
    ensures FetchTopLanguages([Data(OnlyPage), Data(SecondPage)], {}, {}, 1, 0, false)
         == Success(map["HTML" := TopLang("HTML", "#0f0", 1, 100)])
  {
    SwitchOffTakesFirstPage([Data(OnlyPage), Data(SecondPage)], {}, {}, 1, 0);
    ConsOne(Repo("test-repo-1", [HtmlEdge(100)]), [], {});
    assert OnlyPage.repos == [Repo("test-repo-1", [HtmlEdge(100)])] + [];
    TallySnoc([], HtmlEdge(100));
    assert [] + [HtmlEdge(100)] == [HtmlEdge(100)];
    var t := Tally("HTML", "#0f0", 1, 100);
    assert TallyEdges([HtmlEdge(100)]) == map["HTML" := t];
    RankOne("HTML", t, 1, 0);
  }

  lemma UserNotFoundMessage()
    ensures FetchTopLanguages(
              [Errors(ErrorItem(Some("NOT_FOUND"), Some("Could not resolve to a User with the login of 'noname'.")), [])],
              {}, {}, DefaultSizeWeight, DefaultCountWeight, false)
         == Failure(UserNotFound("Could not resolve to a User with the login of 'noname'."))
  {
  }

  lemma OtherErrorMessage()
    ensures FetchTopLanguages([Errors(ErrorItem(None, Some("Some test GraphQL error")), [])], {}, {}, DefaultSizeWeight, DefaultCountWeight, false)
         == Failure(QueryFailed("Some test GraphQL error"))
  {
  }

  lemma MissingMessage()
    ensures FetchTopLanguages([Errors(ErrorItem(Some("TEST"), None), [])], {}, {}, DefaultSizeWeight, DefaultCountWeight, false)
         == Failure(QueryFailed("Something went wrong while trying to retrieve the language data using the GraphQL API."))
  {
  }
}
