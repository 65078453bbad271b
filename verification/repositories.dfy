/**
 The data the upstream GraphQL query returns for one user: pages of
 repositories, each with its per-language size breakdown, together with the
 reference measures the aggregation is specified against.
 */
module Repositories {

  /** One language of a repository: bytes of code, display color, language name. */
  datatype Edge = Edge(size: nat, color: string, lang: string)

  /** A repository node: its name and its language edges, in reply order. */
  datatype Repo = Repo(name: string, edges: seq<Edge>)

  /** One reply's worth of repositories and the `pageInfo.hasNextPage` flag. */
  datatype Page = Page(repos: seq<Repo>, hasNextPage: bool)

  /** All repositories of the pages, page after page. */
  function AllRepos(pages: seq<Page>): seq<Repo>
  {
    if |pages| == 0 then [] else pages[0].repos + AllRepos(pages[1..])
  }

  /** Total size of the edges of `lang` in `es`. */
  function BytesOf(es: seq<Edge>, lang: string): nat
  {
    if |es| == 0 then 0
    else BytesOf(es[..|es| - 1], lang) + (if es[|es| - 1].lang == lang then es[|es| - 1].size else 0)
  }

  /** Number of edges of `lang` in `es`. */
  function CountOf(es: seq<Edge>, lang: string): nat
  {
    if |es| == 0 then 0
    else CountOf(es[..|es| - 1], lang) + (if es[|es| - 1].lang == lang then 1 else 0)
  }

  /** True when `es` has an edge of `lang`. */
  predicate HasLang(es: seq<Edge>, lang: string)
  {
    exists i :: 0 <= i < |es| && es[i].lang == lang
  }

  /** No repository lists the same language twice (as in every reply of the test file). */
  predicate DistinctLanguages(r: Repo)
  {
    forall i, j :: 0 <= i < j < |r.edges| ==> r.edges[i].lang != r.edges[j].lang
  }

  predicate AllDistinctLanguages(repos: seq<Repo>)
  {
    forall k :: 0 <= k < |repos| ==> DistinctLanguages(repos[k])
  }

  /** True when the repository contributes to `lang` under the exclusions. */
  predicate Contributes(r: Repo, excludedRepos: set<string>, excludedLangs: set<string>, lang: string)
  {
    r.name !in excludedRepos && lang !in excludedLangs && HasLang(r.edges, lang)
  }

  /**
   Reference total: the sum of the sizes of `lang`'s edges over the
   repositories that are not excluded, or 0 when the language is excluded.
   */
  function LanguageBytes(repos: seq<Repo>, excludedRepos: set<string>, excludedLangs: set<string>, lang: string): nat
  {
    if |repos| == 0 || lang in excludedLangs then 0
    else
      var own := if repos[0].name in excludedRepos then 0 else BytesOf(repos[0].edges, lang);
      own + LanguageBytes(repos[1..], excludedRepos, excludedLangs, lang)
  }

  /** Reference edge count: the edges of `lang` over the repositories that are not excluded. */
  function LanguageEdges(repos: seq<Repo>, excludedRepos: set<string>, excludedLangs: set<string>, lang: string): nat
  {
    if |repos| == 0 || lang in excludedLangs then 0
    else
      var own := if repos[0].name in excludedRepos then 0 else CountOf(repos[0].edges, lang);
      own + LanguageEdges(repos[1..], excludedRepos, excludedLangs, lang)
  }

  /** Reference repository count: the repositories that contribute to `lang`. */
  function LanguageRepos(repos: seq<Repo>, excludedRepos: set<string>, excludedLangs: set<string>, lang: string): nat
  {
    if |repos| == 0 then 0
    else
      var own := if Contributes(repos[0], excludedRepos, excludedLangs, lang) then 1 else 0;
      own + LanguageRepos(repos[1..], excludedRepos, excludedLangs, lang)
  }

  /** Size of `lang` in the repositories named `name` (what excluding that name takes away). */
  function NamedBytes(repos: seq<Repo>, name: string, excludedLangs: set<string>, lang: string): nat
  {
    if |repos| == 0 || lang in excludedLangs then 0
    else
      var own := if repos[0].name == name then BytesOf(repos[0].edges, lang) else 0;
      own + NamedBytes(repos[1..], name, excludedLangs, lang)
  }

  /** Edges of `lang` in the repositories named `name`. */
  function NamedEdges(repos: seq<Repo>, name: string, excludedLangs: set<string>, lang: string): nat
  {
    if |repos| == 0 || lang in excludedLangs then 0
    else
      var own := if repos[0].name == name then CountOf(repos[0].edges, lang) else 0;
      own + NamedEdges(repos[1..], name, excludedLangs, lang)
  }

  lemma {:induction false} CountOfZero(es: seq<Edge>, lang: string)
    ensures CountOf(es, lang) == 0 <==> !HasLang(es, lang)
  {
    if |es| > 0 {
      var init := es[..|es| - 1];
      CountOfZero(init, lang);
      if HasLang(init, lang) {
        var i :| 0 <= i < |init| && init[i].lang == lang;
        assert es[i].lang == lang;
      }
      if HasLang(es, lang) && es[|es| - 1].lang != lang {
        var i :| 0 <= i < |es| && es[i].lang == lang;
        assert init[i].lang == lang;
      }
    }
  }

  /** In a repository that lists each language once, a language has at most one edge. */
  lemma {:induction false} CountOfDistinct(r: Repo, lang: string)
    requires DistinctLanguages(r)
    ensures CountOf(r.edges, lang) == (if HasLang(r.edges, lang) then 1 else 0)
    decreases |r.edges|
  {
    var es := r.edges;
    CountOfZero(es, lang);
    if |es| > 0 {
      var init := es[..|es| - 1];
      assert DistinctLanguages(Repo(r.name, init)) by {
        forall i, j | 0 <= i < j < |init| ensures init[i].lang != init[j].lang {
          assert init[i] == es[i] && init[j] == es[j];
        }
      }
      CountOfDistinct(Repo(r.name, init), lang);
      CountOfZero(init, lang);
    }
  }

  /**
   When no repository lists a language twice, the edge count of a language
   is the number of repositories that contribute to it.
   */
  lemma {:induction false} EdgesAreRepos(repos: seq<Repo>, excludedRepos: set<string>, excludedLangs: set<string>, lang: string)
    requires AllDistinctLanguages(repos)
    ensures LanguageEdges(repos, excludedRepos, excludedLangs, lang) == LanguageRepos(repos, excludedRepos, excludedLangs, lang)
  {
    if |repos| > 0 {
      CountOfDistinct(repos[0], lang);
      assert AllDistinctLanguages(repos[1..]) by {
        forall k | 0 <= k < |repos[1..]| ensures DistinctLanguages(repos[1..][k]) {
          assert repos[1..][k] == repos[k + 1];
        }
      }
      EdgesAreRepos(repos[1..], excludedRepos, excludedLangs, lang);
    }
  }

  lemma {:induction false} BytesOfAppend(a: seq<Edge>, b: seq<Edge>, lang: string)
    ensures BytesOf(a + b, lang) == BytesOf(a, lang) + BytesOf(b, lang)
    ensures CountOf(a + b, lang) == CountOf(a, lang) + CountOf(b, lang)
    decreases |b|
  {
    if |b| == 0 {
      assert a + b == a;
    } else {
      var init := b[..|b| - 1];
      assert (a + b)[..|a + b| - 1] == a + init;
      assert (a + b)[|a + b| - 1] == b[|b| - 1];
      BytesOfAppend(a, init, lang);
    }
  }

  lemma {:induction false} AllReposAppend(p: seq<Page>, q: seq<Page>)
    ensures AllRepos(p + q) == AllRepos(p) + AllRepos(q)
  {
    if |p| == 0 {
      assert p + q == q;
    } else {
      assert (p + q)[1..] == p[1..] + q;
      AllReposAppend(p[1..], q);
    }
  }

  lemma {:induction false} LanguageSumsAppend(a: seq<Repo>, b: seq<Repo>, excludedRepos: set<string>, excludedLangs: set<string>, lang: string)
    ensures LanguageBytes(a + b, excludedRepos, excludedLangs, lang)
         == LanguageBytes(a, excludedRepos, excludedLangs, lang) + LanguageBytes(b, excludedRepos, excludedLangs, lang)
    ensures LanguageEdges(a + b, excludedRepos, excludedLangs, lang)
         == LanguageEdges(a, excludedRepos, excludedLangs, lang) + LanguageEdges(b, excludedRepos, excludedLangs, lang)
    ensures LanguageRepos(a + b, excludedRepos, excludedLangs, lang)
         == LanguageRepos(a, excludedRepos, excludedLangs, lang) + LanguageRepos(b, excludedRepos, excludedLangs, lang)
  {
    if |a| == 0 {
      assert a + b == b;
    } else {
      assert (a + b)[0] == a[0];
      assert (a + b)[1..] == a[1..] + b;
      LanguageSumsAppend(a[1..], b, excludedRepos, excludedLangs, lang);
    }
  }

  /**
   Excluding one more repository name takes away exactly the size and edges
   that the repositories of that name contributed, and nothing else.
   */
  lemma {:induction false} ExcludeOneMore(repos: seq<Repo>, name: string, excludedRepos: set<string>, excludedLangs: set<string>, lang: string)
    requires name !in excludedRepos
    ensures LanguageBytes(repos, excludedRepos, excludedLangs, lang)
         == LanguageBytes(repos, excludedRepos + {name}, excludedLangs, lang) + NamedBytes(repos, name, excludedLangs, lang)
    ensures LanguageEdges(repos, excludedRepos, excludedLangs, lang)
         == LanguageEdges(repos, excludedRepos + {name}, excludedLangs, lang) + NamedEdges(repos, name, excludedLangs, lang)
  {
    if |repos| > 0 {
      ExcludeOneMore(repos[1..], name, excludedRepos, excludedLangs, lang);
    }
  }
}
