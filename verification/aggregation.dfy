/**
 The per-language accumulator: every edge of every repository that is not
 excluded is folded, in reply order, into a map from language name to a
 running tally of size, count and display color.
 */
module Aggregation {
  import opened Repositories

  /** The running record of one language. */
  datatype Tally = Tally(name: string, color: string, count: nat, bytes: nat)

  /** The total size recorded for `lang`, 0 when it has no entry. */
  function BytesIn(m: map<string, Tally>, lang: string): nat
  {
    if lang in m then m[lang].bytes else 0
  }

  /** The count recorded for `lang`, 0 when it has no entry. */
  function CountIn(m: map<string, Tally>, lang: string): nat
  {
    if lang in m then m[lang].count else 0
  }

  /** The edges whose language is not excluded, in order. */
  function Kept(es: seq<Edge>, excludedLangs: set<string>): seq<Edge>
  {
    if |es| == 0 then []
    else
      var last := es[|es| - 1];
      Kept(es[..|es| - 1], excludedLangs) + (if last.lang in excludedLangs then [] else [last])
  }

  /** The edges that reach the accumulator: those of non-excluded repositories and languages. */
  function Contributing(repos: seq<Repo>, excludedRepos: set<string>, excludedLangs: set<string>): seq<Edge>
  {
    if |repos| == 0 then []
    else
      var own := if repos[0].name in excludedRepos then [] else Kept(repos[0].edges, excludedLangs);
      own + Contributing(repos[1..], excludedRepos, excludedLangs)
  }

  /** Merges one edge: a new entry with count 1, or size added, count incremented and color overwritten. */
  function AddEdge(m: map<string, Tally>, e: Edge): (r: map<string, Tally>)
    ensures r.Keys == m.Keys + {e.lang}
    ensures BytesIn(r, e.lang) == BytesIn(m, e.lang) + e.size
    ensures CountIn(r, e.lang) == CountIn(m, e.lang) + 1
    ensures r[e.lang].name == e.lang && r[e.lang].color == e.color
    ensures forall k :: k in m && k != e.lang ==> r[k] == m[k]
  {
    if e.lang in m then
      m[e.lang := Tally(e.lang, e.color, m[e.lang].count + 1, m[e.lang].bytes + e.size)]
    else
      m[e.lang := Tally(e.lang, e.color, 1, e.size)]
  }

  /** Folds the edges, first to last, into an initially empty accumulator. */
  function TallyEdges(es: seq<Edge>): (r: map<string, Tally>)
    ensures forall k :: k in r ==> r[k].name == k && r[k].count >= 1
  {
    if |es| == 0 then map[] else AddEdge(TallyEdges(es[..|es| - 1]), es[|es| - 1])
  }

  /** The accumulator after all repositories have been merged. */
  function Aggregate(repos: seq<Repo>, excludedRepos: set<string>, excludedLangs: set<string>): map<string, Tally>
  {
    TallyEdges(Contributing(repos, excludedRepos, excludedLangs))
  }

  /** The edges of `lang` in `es`, in order. */
  function OnLang(es: seq<Edge>, lang: string): seq<Edge>
  {
    if |es| == 0 then []
    else
      var last := es[|es| - 1];
      OnLang(es[..|es| - 1], lang) + (if last.lang == lang then [last] else [])
  }

  /** The fold records, for each language, exactly the sum and number of its edges. */
  lemma {:induction false} TallyEdgesSpec(es: seq<Edge>, lang: string)
    ensures lang in TallyEdges(es) <==> CountOf(es, lang) > 0
    ensures BytesIn(TallyEdges(es), lang) == BytesOf(es, lang)
    ensures CountIn(TallyEdges(es), lang) == CountOf(es, lang)
    ensures lang in TallyEdges(es) ==>
      exists i :: 0 <= i < |es| && es[i].lang == lang && es[i].color == TallyEdges(es)[lang].color
  {
    if |es| > 0 {
      var init := es[..|es| - 1];
      TallyEdgesSpec(init, lang);
      var r := TallyEdges(es);
      if lang in r {
        if es[|es| - 1].lang == lang {
          assert es[|es| - 1].color == r[lang].color;
        } else {
          var i :| 0 <= i < |init| && init[i].lang == lang && init[i].color == TallyEdges(init)[lang].color;
          assert es[i] == init[i];
        }
      }
    }
  }

  /** Merging the same edge into two accumulators that agree on `lang` keeps them agreeing on `lang`. */
  lemma AddEdgeLocal(m1: map<string, Tally>, m2: map<string, Tally>, e: Edge, lang: string)
    requires lang in m1 <==> lang in m2
    requires lang in m1 ==> m1[lang] == m2[lang]
    ensures lang in AddEdge(m1, e) <==> lang in AddEdge(m2, e)
    ensures lang in AddEdge(m1, e) ==> AddEdge(m1, e)[lang] == AddEdge(m2, e)[lang]
  {
  }

  /** The entry of a language depends on that language's edges alone. */
  lemma {:induction false} TallyLocal(es: seq<Edge>, lang: string)
    ensures lang in TallyEdges(es) <==> lang in TallyEdges(OnLang(es, lang))
    ensures lang in TallyEdges(es) ==> TallyEdges(es)[lang] == TallyEdges(OnLang(es, lang))[lang]
  {
    if |es| > 0 {
      var init := es[..|es| - 1];
      var last := es[|es| - 1];
      TallyLocal(init, lang);
      if last.lang == lang {
        var f := OnLang(init, lang) + [last];
        assert OnLang(es, lang) == f;
        assert f[..|f| - 1] == OnLang(init, lang) && f[|f| - 1] == last;
        AddEdgeLocal(TallyEdges(init), TallyEdges(OnLang(init, lang)), last, lang);
      } else {
        assert OnLang(es, lang) == OnLang(init, lang);
      }
    }
  }

  lemma {:induction false} OnLangAppend(a: seq<Edge>, b: seq<Edge>, lang: string)
    ensures OnLang(a + b, lang) == OnLang(a, lang) + OnLang(b, lang)
    decreases |b|
  {
    if |b| == 0 {
      assert a + b == a;
    } else {
      var init := b[..|b| - 1];
      assert (a + b)[..|a + b| - 1] == a + init;
      assert (a + b)[|a + b| - 1] == b[|b| - 1];
      OnLangAppend(a, init, lang);
    }
  }

  lemma {:induction false} OnLangAbsent(es: seq<Edge>, lang: string)
    requires !HasLang(es, lang)
    ensures OnLang(es, lang) == []
  {
    if |es| > 0 {
      var init := es[..|es| - 1];
      assert !HasLang(init, lang);
      OnLangAbsent(init, lang);
    }
  }

  /** Nothing is dropped from edges none of whose languages is excluded. */
  lemma {:induction false} KeptNone(es: seq<Edge>, excludedLangs: set<string>)
    requires forall i :: 0 <= i < |es| ==> es[i].lang !in excludedLangs
    ensures Kept(es, excludedLangs) == es
  {
    if |es| > 0 {
      var init := es[..|es| - 1];
      var last := es[|es| - 1];
      KeptNone(init, excludedLangs);
      assert init + [last] == es;
    }
  }

  lemma {:induction false} KeptSums(es: seq<Edge>, excludedLangs: set<string>, lang: string)
    ensures BytesOf(Kept(es, excludedLangs), lang) == (if lang in excludedLangs then 0 else BytesOf(es, lang))
    ensures CountOf(Kept(es, excludedLangs), lang) == (if lang in excludedLangs then 0 else CountOf(es, lang))
  {
    if |es| > 0 {
      var init := es[..|es| - 1];
      var last := es[|es| - 1];
      KeptSums(init, excludedLangs, lang);
      if last.lang in excludedLangs {
        assert Kept(es, excludedLangs) == Kept(init, excludedLangs);
      } else {
        var k := Kept(init, excludedLangs) + [last];
        assert Kept(es, excludedLangs) == k;
        assert k[..|k| - 1] == Kept(init, excludedLangs) && k[|k| - 1] == last;
      }
    }
  }

  lemma {:induction false} KeptOnLang(es: seq<Edge>, excludedLangs: set<string>, lang: string)
    ensures OnLang(Kept(es, excludedLangs), lang) == (if lang in excludedLangs then [] else OnLang(es, lang))
  {
    if |es| > 0 {
      var init := es[..|es| - 1];
      var last := es[|es| - 1];
      var tail := if last.lang in excludedLangs then [] else [last];
      KeptOnLang(init, excludedLangs, lang);
      OnLangAppend(Kept(init, excludedLangs), tail, lang);
      assert OnLang(tail, lang) == OnLang([] + tail, lang);
    }
  }

  lemma {:induction false} KeptOrigin(es: seq<Edge>, excludedLangs: set<string>)
    ensures forall e :: e in Kept(es, excludedLangs) ==> e in es && e.lang !in excludedLangs
  {
    if |es| > 0 {
      var init := es[..|es| - 1];
      KeptOrigin(init, excludedLangs);
      forall e | e in Kept(es, excludedLangs) ensures e in es && e.lang !in excludedLangs {
        if e in Kept(init, excludedLangs) {
          var i :| 0 <= i < |init| && init[i] == e;
          assert es[i] == e;
        }
      }
    }
  }

  /** The flattened edges carry exactly the reference sums over the repositories. */
  lemma {:induction false} ContributingSpec(repos: seq<Repo>, excludedRepos: set<string>, excludedLangs: set<string>, lang: string)
    ensures BytesOf(Contributing(repos, excludedRepos, excludedLangs), lang) == LanguageBytes(repos, excludedRepos, excludedLangs, lang)
    ensures CountOf(Contributing(repos, excludedRepos, excludedLangs), lang) == LanguageEdges(repos, excludedRepos, excludedLangs, lang)
  {
    if |repos| > 0 {
      var own := if repos[0].name in excludedRepos then [] else Kept(repos[0].edges, excludedLangs);
      KeptSums(repos[0].edges, excludedLangs, lang);
      BytesOfAppend(own, Contributing(repos[1..], excludedRepos, excludedLangs), lang);
      ContributingSpec(repos[1..], excludedRepos, excludedLangs, lang);
      if lang in excludedLangs {
        assert BytesOf(own, lang) == 0 && CountOf(own, lang) == 0;
      }
    }
  }

  /** Every edge that reaches the accumulator is an edge of a repository and language that are not excluded. */
  lemma {:induction false} ContributingOrigin(repos: seq<Repo>, excludedRepos: set<string>, excludedLangs: set<string>, e: Edge)
    requires e in Contributing(repos, excludedRepos, excludedLangs)
    ensures e.lang !in excludedLangs
    ensures exists k :: 0 <= k < |repos| && repos[k].name !in excludedRepos && e in repos[k].edges
  {
    var own := if repos[0].name in excludedRepos then [] else Kept(repos[0].edges, excludedLangs);
    KeptOrigin(repos[0].edges, excludedLangs);
    if e in own {
      assert repos[0].name !in excludedRepos && e in repos[0].edges;
    } else {
      ContributingOrigin(repos[1..], excludedRepos, excludedLangs, e);
      var k :| 0 <= k < |repos[1..]| && repos[1..][k].name !in excludedRepos && e in repos[1..][k].edges;
      assert repos[k + 1] == repos[1..][k];
    }
  }

  lemma {:induction false} EdgesZeroIffReposZero(repos: seq<Repo>, excludedRepos: set<string>, excludedLangs: set<string>, lang: string)
    ensures LanguageEdges(repos, excludedRepos, excludedLangs, lang) == 0 <==> LanguageRepos(repos, excludedRepos, excludedLangs, lang) == 0
  {
    if |repos| > 0 {
      CountOfZero(repos[0].edges, lang);
      EdgesZeroIffReposZero(repos[1..], excludedRepos, excludedLangs, lang);
    }
  }

  /**
   The accumulator has an entry for exactly the languages some non-excluded
   repository uses; the entry is named by its key, its size is the sum of
   the language's edge sizes, its count the number of those edges (the
   number of repositories when none lists a language twice), and its color
   the color of one of those edges.
   */
  lemma AggregateSpec(repos: seq<Repo>, excludedRepos: set<string>, excludedLangs: set<string>, lang: string)
    ensures lang in Aggregate(repos, excludedRepos, excludedLangs) <==> LanguageRepos(repos, excludedRepos, excludedLangs, lang) > 0
    ensures BytesIn(Aggregate(repos, excludedRepos, excludedLangs), lang) == LanguageBytes(repos, excludedRepos, excludedLangs, lang)
    ensures CountIn(Aggregate(repos, excludedRepos, excludedLangs), lang) == LanguageEdges(repos, excludedRepos, excludedLangs, lang)
    ensures AllDistinctLanguages(repos) ==>
      CountIn(Aggregate(repos, excludedRepos, excludedLangs), lang) == LanguageRepos(repos, excludedRepos, excludedLangs, lang)
    ensures lang in Aggregate(repos, excludedRepos, excludedLangs) ==>
      var t := Aggregate(repos, excludedRepos, excludedLangs)[lang];
      && t.name == lang
      && t.count >= 1
      && lang !in excludedLangs
      && exists k, i :: 0 <= k < |repos| && repos[k].name !in excludedRepos && 0 <= i < |repos[k].edges|
           && repos[k].edges[i].lang == lang && repos[k].edges[i].color == t.color
  {
    var es := Contributing(repos, excludedRepos, excludedLangs);
    TallyEdgesSpec(es, lang);
    ContributingSpec(repos, excludedRepos, excludedLangs, lang);
    EdgesZeroIffReposZero(repos, excludedRepos, excludedLangs, lang);
    if AllDistinctLanguages(repos) {
      EdgesAreRepos(repos, excludedRepos, excludedLangs, lang);
    }
    var m := TallyEdges(es);
    if lang in m {
      var i :| 0 <= i < |es| && es[i].lang == lang && es[i].color == m[lang].color;
      ContributingOrigin(repos, excludedRepos, excludedLangs, es[i]);
      var k :| 0 <= k < |repos| && repos[k].name !in excludedRepos && es[i] in repos[k].edges;
      var j :| 0 <= j < |repos[k].edges| && repos[k].edges[j] == es[i];
    }
  }

  lemma {:induction false} ContributingUnchanged(repos: seq<Repo>, name: string, excludedRepos: set<string>, excludedLangs: set<string>, lang: string)
    requires forall k :: 0 <= k < |repos| && repos[k].name == name ==> !HasLang(repos[k].edges, lang)
    ensures OnLang(Contributing(repos, excludedRepos, excludedLangs), lang)
         == OnLang(Contributing(repos, excludedRepos + {name}, excludedLangs), lang)
  {
    if |repos| > 0 {
      var r := repos[0];
      var a := if r.name in excludedRepos then [] else Kept(r.edges, excludedLangs);
      var b := if r.name in excludedRepos + {name} then [] else Kept(r.edges, excludedLangs);
      OnLangAppend(a, Contributing(repos[1..], excludedRepos, excludedLangs), lang);
      OnLangAppend(b, Contributing(repos[1..], excludedRepos + {name}, excludedLangs), lang);
      KeptOnLang(r.edges, excludedLangs, lang);
      if r.name == name {
        OnLangAbsent(r.edges, lang);
      }
      assert OnLang(a, lang) == OnLang(b, lang);
      ContributingUnchanged(repos[1..], name, excludedRepos, excludedLangs, lang);
    }
  }

  /**
   Excluding one more repository name removes exactly that repository's
   size and count from each language, and leaves the entry of every
   language that repository does not use exactly as it was.
   */
  lemma ExcludeRepository(repos: seq<Repo>, name: string, excludedRepos: set<string>, excludedLangs: set<string>, lang: string)
    requires name !in excludedRepos
    ensures BytesIn(Aggregate(repos, excludedRepos, excludedLangs), lang)
         == BytesIn(Aggregate(repos, excludedRepos + {name}, excludedLangs), lang) + NamedBytes(repos, name, excludedLangs, lang)
    ensures CountIn(Aggregate(repos, excludedRepos, excludedLangs), lang)
         == CountIn(Aggregate(repos, excludedRepos + {name}, excludedLangs), lang) + NamedEdges(repos, name, excludedLangs, lang)
    ensures (forall k :: 0 <= k < |repos| && repos[k].name == name ==> !HasLang(repos[k].edges, lang)) ==>
      && (lang in Aggregate(repos, excludedRepos, excludedLangs) <==> lang in Aggregate(repos, excludedRepos + {name}, excludedLangs))
      && (lang in Aggregate(repos, excludedRepos, excludedLangs) ==>
            Aggregate(repos, excludedRepos, excludedLangs)[lang] == Aggregate(repos, excludedRepos + {name}, excludedLangs)[lang])
  {
    AggregateSpec(repos, excludedRepos, excludedLangs, lang);
    AggregateSpec(repos, excludedRepos + {name}, excludedLangs, lang);
    ExcludeOneMore(repos, name, excludedRepos, excludedLangs, lang);
    if forall k :: 0 <= k < |repos| && repos[k].name == name ==> !HasLang(repos[k].edges, lang) {
      ContributingUnchanged(repos, name, excludedRepos, excludedLangs, lang);
      TallyLocal(Contributing(repos, excludedRepos, excludedLangs), lang);
      TallyLocal(Contributing(repos, excludedRepos + {name}, excludedLangs), lang);
    }
  }

  /**
   Aggregating several pages adds up per language: sizes and counts of the
   pages sum, and a language has an entry when either part has one.
   */
  lemma MergePages(first: seq<Page>, rest: seq<Page>, excludedRepos: set<string>, excludedLangs: set<string>, lang: string)
    ensures BytesIn(Aggregate(AllRepos(first + rest), excludedRepos, excludedLangs), lang)
         == BytesIn(Aggregate(AllRepos(first), excludedRepos, excludedLangs), lang)
          + BytesIn(Aggregate(AllRepos(rest), excludedRepos, excludedLangs), lang)
    ensures CountIn(Aggregate(AllRepos(first + rest), excludedRepos, excludedLangs), lang)
         == CountIn(Aggregate(AllRepos(first), excludedRepos, excludedLangs), lang)
          + CountIn(Aggregate(AllRepos(rest), excludedRepos, excludedLangs), lang)
    ensures lang in Aggregate(AllRepos(first + rest), excludedRepos, excludedLangs) <==>
      (lang in Aggregate(AllRepos(first), excludedRepos, excludedLangs)
       || lang in Aggregate(AllRepos(rest), excludedRepos, excludedLangs))
  {
    AllReposAppend(first, rest);
    LanguageSumsAppend(AllRepos(first), AllRepos(rest), excludedRepos, excludedLangs, lang);
    AggregateSpec(AllRepos(first + rest), excludedRepos, excludedLangs, lang);
    AggregateSpec(AllRepos(first), excludedRepos, excludedLangs, lang);
    AggregateSpec(AllRepos(rest), excludedRepos, excludedLangs, lang);
  }
}
