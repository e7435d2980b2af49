/** The request handler: a GET reads and ranks a snapshot of the store, a
    POST validates a form and appends one review. The sentiment scorer, the
    fresh review id and the clock reading are parameters. */
module Router {
  import opened Wrappers
  import opened DateTimes
  import opened Seqs
  import opened StableSort
  import opened Reviews
  import opened QueryFilter
  import opened Ranking
  import opened Validator

  datatype Request = Get(query: Params) | Post(form: Params) | Unsupported(verb: string)

  /** The dispatch on `REQUEST_METHOD`: an exact, case-sensitive comparison
      with `GET`, then with `POST`; the query string feeds a GET and the
      form body a POST. */
  function Classify(verb: string, query: Params, form: Params): (r: Request)
    ensures r.Get? <==> verb == "GET"
    ensures r.Post? <==> verb == "POST"
    ensures r.Unsupported? <==> verb != "GET" && verb != "POST"
    ensures r.Get? ==> r.query == query
    ensures r.Post? ==> r.form == form
    ensures r.Unsupported? ==> r.verb == verb
  {
    if verb == "GET" then Get(query)
    else if verb == "POST" then Post(form)
    else Unsupported(verb)
  }

  /** What goes back to the client, before JSON encoding. */
  datatype Response = Listing(reviews: seq<Scored>) | Created(review: Scored) | BadRequest(error: string)
  {
    function Status(): int
    {
      match this
      case Listing(_) => 200
      case Created(_) => 201
      case BadRequest(_) => 400
    }
  }

  /** One handled request: the response (none for methods the server does
      not handle) and the store afterwards. */
  datatype Exchange = Exchange(response: Option<Response>, store: seq<Review>)

  /** What a GET can be asked of `store` without the date filter failing on
      an unreadable stored timestamp. */
  predicate GetDefined(store: seq<Review>, q: Params)
  {
    WellFormedParams(q) && (DateBoundsApply(q) ==> AllTimestampsParse(FilterByLocation(store, q)))
  }

  /** GET: select, score, rank. An unknown location yields an empty list
      whatever the store holds; otherwise the listing is the admitted
      reviews, scored, in non-increasing compound order with ties in store
      order. */
  function HandleGet(store: seq<Review>, q: Params, scorer: string -> Sentiment): (resp: Response)
    requires GetDefined(store, q)
    ensures resp.Listing?
    ensures "location" in q && !IsAllowed(First(q, "location")) ==> resp.reviews == []
    ensures multiset(resp.reviews) == multiset(Attach(Filter(store, AdmittedBy(q)), scorer))
    ensures SortedDesc(resp.reviews, Compound)
    ensures forall k :: KeyClass(resp.reviews, Compound, k) == KeyClass(Attach(Filter(store, AdmittedBy(q)), scorer), Compound, k)
  {
    Listing(Rank(Select(store, q), scorer))
  }

  /** The review a successful POST stores. */
  function NewReview(s: Submission, freshId: string, now: DateTime): Review
    requires Valid(now)
  {
    Review(Some(freshId), s.body, s.location, FormatTimestamp(now))
  }

  /** POST: a missing field or an unknown location is a 400 with a fixed
      message and leaves the store alone; otherwise the new review, with
      the given id and the clock's time, goes on the end of the store and
      comes back with its sentiment in a 201. */
  function HandlePost(store: seq<Review>, form: Params, freshId: string, now: DateTime,
                      scorer: string -> Sentiment): (out: Exchange)
    requires WellFormedParams(form) && Valid(now)
    ensures out.response.Some?
    ensures "ReviewBody" !in form || "Location" !in form ==>
              out == Exchange(Some(BadRequest("ReviewBody and Location are required")), store)
    ensures "ReviewBody" in form && "Location" in form && !IsAllowed(First(form, "Location")) ==>
              out == Exchange(Some(BadRequest("Invalid location provided")), store)
    ensures out.response.value.Created? ==>
              var r := out.response.value.review.review;
              && out.store == store + [r]
              && r.id == Some(freshId)
              && r.body == First(form, "ReviewBody")
              && r.location == First(form, "Location")
              && ParseTimestamp(r.timestamp) == Some(now)
              && out.response.value.review.sentiment == scorer(r.body)
    ensures out.response.value.Status() == 201 <==>
              "ReviewBody" in form && "Location" in form && IsAllowed(First(form, "Location"))
  {
    match Validate(form)
    case Failure(e) => Exchange(Some(BadRequest(Message(e))), store)
    case Success(s) =>
      var r := NewReview(s, freshId, now);
      ParseFormatTimestamp(now);
      Exchange(Some(Created(Scored(r, scorer(r.body)))), store + [r])
  }

  predicate RequestDefined(store: seq<Review>, req: Request, now: DateTime)
  {
    match req
    case Get(q) => GetDefined(store, q)
    case Post(form) => WellFormedParams(form) && Valid(now)
    case Unsupported(_) => true
  }

  /** The dispatcher. A GET never changes the store; a POST only ever adds
      one review at the end; any other method gets no response and changes
      nothing. */
  function Handle(store: seq<Review>, req: Request, freshId: string, now: DateTime,
                  scorer: string -> Sentiment): (out: Exchange)
    requires RequestDefined(store, req, now)
    ensures req.Get? ==> out.store == store && out.response.Some? && out.response.value.Status() == 200
    ensures req.Unsupported? ==> out == Exchange(None, store)
    ensures req.Post? ==> out.response.Some? && store <= out.store && |out.store| <= |store| + 1
    ensures out.store != store ==> req.Post? && out.response.value.Status() == 201
  {
    match req
    case Get(q) => Exchange(Some(HandleGet(store, q, scorer)), store)
    case Post(form) => HandlePost(store, form, freshId, now, scorer)
    case Unsupported(_) => Exchange(None, store)
  }

  /** A store whose timestamps all parse keeps that property across any
      request, so date-range queries on it are always defined. */
  lemma HandlePreservesReadableTimestamps(store: seq<Review>, req: Request, freshId: string, now: DateTime,
                                          scorer: string -> Sentiment)
    requires RequestDefined(store, req, now)
    requires AllTimestampsParse(store)
    ensures AllTimestampsParse(Handle(store, req, freshId, now, scorer).store)
  {
    var out := Handle(store, req, freshId, now, scorer);
    if req.Post? && out.store != store {
      var r := out.response.value.review.review;
      assert out.store == store + [r];
      assert ParseTimestamp(r.timestamp).Some?;
    }
  }

  /** Every review the query admits appears in the listing, carrying the
      scorer's sentiment for its body. */
  lemma AdmittedIsListed(store: seq<Review>, q: Params, scorer: string -> Sentiment, x: Review)
    requires GetDefined(store, q)
    requires x in Filter(store, AdmittedBy(q))
    ensures Scored(x, scorer(x.body)) in HandleGet(store, q, scorer).reviews
  {
    var selected := Filter(store, AdmittedBy(q));
    var i :| 0 <= i < |selected| && selected[i] == x;
    assert Attach(selected, scorer)[i] == Scored(x, scorer(x.body));
    assert Scored(x, scorer(x.body)) in multiset(HandleGet(store, q, scorer).reviews);
  }

  /** A location-only query for an allowed location: defined on any store,
      and it admits exactly the reviews filed there. */
  lemma LocationQuery(location: string, x: Review)
    requires location != "" && IsAllowed(location)
    ensures var q := map["location" := [location]];
            && WellFormedParams(q) && !DateParamMalformed(q) && !DateBoundsApply(q)
            && (Admits(q, x) <==> x.location == location)
  {
  }

  /** A review created by POST is returned, with the sentiment the POST
      reported, by any later GET for its location, whatever was appended to
      the store in between. */
  lemma CreatedReviewIsListed(store: seq<Review>, form: Params, freshId: string, now: DateTime,
                              scorer: string -> Sentiment, later: seq<Review>)
    requires WellFormedParams(form) && Valid(now)
    requires "ReviewBody" in form && "Location" in form && IsAllowed(First(form, "Location"))
    requires HandlePost(store, form, freshId, now, scorer).store <= later
    ensures var out := HandlePost(store, form, freshId, now, scorer);
            var created := out.response.value.review;
            var q := map["location" := [created.review.location]];
            GetDefined(later, q) && created in HandleGet(later, q, scorer).reviews
  {
    var out := HandlePost(store, form, freshId, now, scorer);
    var created := out.response.value.review;
    var r := created.review;
    var q := map["location" := [r.location]];
    LocationQuery(r.location, r);
    FilterKeepsAppended(store, r, later, AdmittedBy(q));
    AdmittedIsListed(later, q, scorer, r);
  }
}
