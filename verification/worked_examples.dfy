/** Concrete requests worked through the model. */
module Examples {
  import opened Wrappers
  import opened DateTimes
  import opened Seqs
  import opened Reviews
  import opened QueryFilter
  import opened Router

  /** The strict parser refuses unpadded fields. */
  lemma UnpaddedDateRejected()
    ensures ParseDate("2024-3-5") == None
  {
    assert |"2024-3-5"| == 8;
  }

  /** A query `end_date=<e>` whose date parses is well formed and bounds
      only the end. */
  lemma EndDateQuery(e: string, q: Params)
    requires ParseDate(e).Some?
    requires q == map["end_date" := [e]]
    ensures WellFormedParams(q) && !DateParamMalformed(q)
    ensures Bound(q, "start_date") == None && Bound(q, "end_date") == ParseDate(e)
  {
    assert |e| == 10;
  }

  /** Under `end_date=<e>`, a review stamped at midnight of day `e` is
      admitted and one stamped a second later is not. */
  lemma EndOfDayAdmission(e: string, q: Params, late: Review, edge: Review)
    requires ParseDate(e).Some?
    requires q == map["end_date" := [e]]
    requires ParseTimestamp(edge.timestamp) == ParseDate(e)
    requires ParseTimestamp(late.timestamp) == Some(ParseDate(e).value.(second := 1))
    ensures !Admits(q, late) && Admits(q, edge)
  {
    EndDateQuery(e, q);
  }

  lemma PairTimestampsParse(a: Review, b: Review)
    requires ParseTimestamp(a.timestamp).Some? && ParseTimestamp(b.timestamp).Some?
    ensures AllTimestampsParse([a, b])
  {
  }

  /** Of two elements, a filter that rejects the first and keeps the second
      gives the second alone. */
  lemma FilterSecondOfTwo<T(!new)>(a: T, b: T, p: T -> bool)
    requires !p(a) && p(b)
    ensures Filter([a, b], p) == [b]
  {
    assert [a, b][1..] == [b];
    assert [b][1..] == [];
  }

  /** The end date means midnight: with `end_date` set to a day, a review
      from one second past midnight on that day is not listed, and one from
      midnight exactly is. */
  lemma EndDateIsMidnightExample(e: string, q: Params, late: Review, edge: Review, scorer: string -> Sentiment)
    requires ParseDate(e).Some?
    requires q == map["end_date" := [e]]
    requires ParseTimestamp(edge.timestamp) == ParseDate(e)
    requires ParseTimestamp(late.timestamp) == Some(ParseDate(e).value.(second := 1))
    ensures GetDefined([late, edge], q)
    ensures HandleGet([late, edge], q, scorer).reviews == [Scored(edge, scorer(edge.body))]
  {
    EndDateQuery(e, q);
    EndOfDayAdmission(e, q, late, edge);
    PairTimestampsParse(late, edge);
    FilterSecondOfTwo(late, edge, AdmittedBy(q));
    OneAdmittedIsListed([late, edge], q, scorer, edge);
  }

  /** When a query admits a single review, the listing is that review with
      its sentiment. */
  lemma OneAdmittedIsListed(store: seq<Review>, q: Params, scorer: string -> Sentiment, x: Review)
    requires GetDefined(store, q)
    requires Filter(store, AdmittedBy(q)) == [x]
    ensures HandleGet(store, q, scorer).reviews == [Scored(x, scorer(x.body))]
  {
    var y := Scored(x, scorer(x.body));
    assert Ranking.Attach([x], scorer) == [y];
    assert StableSort.Sort([y], Compound) == StableSort.Insert(y, [], Compound);
  }

  /** A form naming an unlisted location is refused and stores nothing. */
  lemma UnknownLocationRejected(store: seq<Review>, freshId: string, now: DateTime, scorer: string -> Sentiment)
    requires Valid(now)
    ensures var form := map["ReviewBody" := ["Great stay"], "Location" := ["Nowhere"]];
            var out := HandlePost(store, form, freshId, now, scorer);
            out.response == Some(BadRequest("Invalid location provided")) && out.store == store
  {
    var form := map["ReviewBody" := ["Great stay"], "Location" := ["Nowhere"]];
    assert WellFormedParams(form);
    assert !IsAllowed("Nowhere");
  }

  /** A form with a listed location is stored under that exact location. */
  lemma DenverAccepted(store: seq<Review>, freshId: string, now: DateTime, scorer: string -> Sentiment)
    requires Valid(now)
    ensures var form := map["ReviewBody" := ["Great stay"], "Location" := ["Denver, Colorado"]];
            var out := HandlePost(store, form, freshId, now, scorer);
            && out.response.value.Status() == 201
            && out.response.value.review.review.location == "Denver, Colorado"
            && |out.store| == |store| + 1
  {
    var form := map["ReviewBody" := ["Great stay"], "Location" := ["Denver, Colorado"]];
    assert WellFormedParams(form);
    assert IsAllowed("Denver, Colorado");
  }

  /** A start date later than every stored review lists nothing, whatever
      else the query asks. */
  lemma StartAfterEverythingListsNothing(store: seq<Review>, q: Params, scorer: string -> Sentiment)
    requires WellFormedParams(q)
    requires "start_date" in q && !DateParamMalformed(q)
    requires forall i :: 0 <= i < |store| ==>
               var t := ParseTimestamp(store[i].timestamp);
               t.Some? && !NotAfter(Bound(q, "start_date").value, t.value)
    ensures GetDefined(store, q) && HandleGet(store, q, scorer).reviews == []
  {
    var located := FilterByLocation(store, q);
    forall i | 0 <= i < |located|
      ensures ParseTimestamp(located[i].timestamp).Some?
    {
      assert multiset(located)[located[i]] > 0;
      assert located[i] in store;
    }
    FilterNone(store, AdmittedBy(q));
    assert multiset(HandleGet(store, q, scorer).reviews) == multiset{};
  }
}
