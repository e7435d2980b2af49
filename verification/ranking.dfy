/** The ranking half of a GET: attach each review's sentiment and order by
    compound score, highest first, ties in filtered order. */
module Ranking {
  import opened Seqs
  import opened StableSort
  import opened Reviews

  /** Each review paired with the scorer's verdict on its body, in order. */
  function Attach(rs: seq<Review>, scorer: string -> Sentiment): (r: seq<Scored>)
    ensures |r| == |rs|
    ensures forall i :: 0 <= i < |rs| ==> r[i].review == rs[i] && r[i].sentiment == scorer(rs[i].body)
  {
    seq(|rs|, i requires 0 <= i < |rs| => Scored(rs[i], scorer(rs[i].body)))
  }

  /** `sort(key=compound, reverse=True)` over the scored reviews: a
      rearrangement of them, compound scores non-increasing, and each group
      of equal scores in the order the reviews were filtered. */
  function Rank(rs: seq<Review>, scorer: string -> Sentiment): (r: seq<Scored>)
    ensures multiset(r) == multiset(Attach(rs, scorer))
    ensures SortedDesc(r, Compound)
    ensures forall k :: KeyClass(r, Compound, k) == KeyClass(Attach(rs, scorer), Compound, k)
  {
    var scored := Attach(rs, scorer);
    forall k
      ensures KeyClass(Sort(scored, Compound), Compound, k) == KeyClass(scored, Compound, k)
    {
      SortIsStable(scored, Compound, k);
    }
    Sort(scored, Compound)
  }

  /** The ranking is determined: any arrangement of the scored reviews that
      is sorted by non-increasing compound score and keeps ties in filtered
      order is `Rank`'s. */
  lemma RankIsTheStableSort(rs: seq<Review>, scorer: string -> Sentiment, other: seq<Scored>)
    requires SortedDesc(other, Compound)
    requires forall k :: KeyClass(other, Compound, k) == KeyClass(Attach(rs, scorer), Compound, k)
    ensures other == Rank(rs, scorer)
  {
    SortedUnique(other, Rank(rs, scorer), Compound);
  }
}
