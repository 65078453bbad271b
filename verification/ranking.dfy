/**
 The weighted rank score of a language, `size^sizeWeight * count^countWeight`,
 with natural-number weights and `0^0 = 1`.
 */
module Ranking {
  import opened Aggregation

  /** One entry of the result: the score goes in `size`, next to the repository count. */
  datatype TopLang = TopLang(name: string, color: string, count: nat, size: nat)

  function Pow(b: nat, e: nat): (r: nat)
    ensures e == 0 ==> r == 1
    ensures e == 1 ==> r == b
    ensures b >= 1 ==> r >= 1
  {
    if e == 0 then 1 else b * Pow(b, e - 1)
  }

  /** The score of one tally under the two weights. */
  function Score(t: Tally, sizeWeight: nat, countWeight: nat): nat
  {
    Pow(t.bytes, sizeWeight) * Pow(t.count, countWeight)
  }

  /** Converts every tally into its result entry; keys, names, colors and counts carry over. */
  function Rank(m: map<string, Tally>, sizeWeight: nat, countWeight: nat): (r: map<string, TopLang>)
    ensures r.Keys == m.Keys
    ensures forall k :: k in r ==>
      && r[k].name == m[k].name
      && r[k].color == m[k].color
      && r[k].count == m[k].count
      && r[k].size == Score(m[k], sizeWeight, countWeight)
  {
    map k | k in m :: TopLang(m[k].name, m[k].color, m[k].count, Score(m[k], sizeWeight, countWeight))
  }

  /**
   The weights decide the score alone: weights (1, 0) rank by total size,
   (0, 1) by count, (0, 0) give every language 1, and the count is the
   same under every weighting.
   */
  lemma RankWeights(m: map<string, Tally>, lang: string, sizeWeight: nat, countWeight: nat)
    requires lang in m
    requires m[lang].count >= 1
    ensures Rank(m, 1, 0)[lang].size == m[lang].bytes
    ensures Rank(m, 0, 1)[lang].size == m[lang].count
    ensures Rank(m, 0, 0)[lang].size == 1
    ensures Rank(m, sizeWeight, countWeight)[lang].count == Rank(m, 1, 0)[lang].count
    ensures m[lang].bytes >= 1 ==> Rank(m, sizeWeight, countWeight)[lang].size >= 1
  {
  }
}
