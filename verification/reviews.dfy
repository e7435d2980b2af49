/** The records the server keeps and returns, the decoded request
    parameters, and the fixed allow-list of locations. */
module Reviews {
  import opened Wrappers
  import opened DateTimes

  /** One stored review. Seeded rows may lack an id; `timestamp` is kept as
      the `YYYY-MM-DD HH:MM:SS` text the server stores and returns. */
  datatype Review = Review(id: Option<string>, body: string, location: string, timestamp: string)

  /** The four polarity scores of the sentiment analyser. */
  datatype Sentiment = Sentiment(neg: real, neu: real, pos: real, compound: real)

  /** A review as returned to a client, with its sentiment attached. */
  datatype Scored = Scored(review: Review, sentiment: Sentiment)

  /** The ranking key. */
  function Compound(x: Scored): real
  {
    x.sentiment.compound
  }

  /** Decoded query-string or form parameters: each name maps to the list
      of its values, in order of appearance. */
  type Params = map<string, seq<string>>

  /** What URL decoding with blank values dropped produces: no name with an
      empty list of values, and no empty value. */
  predicate WellFormedParams(q: Params)
  {
    forall k :: k in q ==> |q[k]| > 0 && forall j :: 0 <= j < |q[k]| ==> q[k][j] != ""
  }

  /** The first value given for `k`, which is the one the server reads. */
  function First(q: Params, k: string): string
    requires WellFormedParams(q) && k in q
  {
    q[k][0]
  }

  /** The locations the server accepts, as listed in its source, including
      the repeated Salt Lake City line. */
  const AllowedLocations: seq<string> := [
    "Albuquerque, New Mexico",
    "Carlsbad, California",
    "Chula Vista, California",
    "Colorado Springs, Colorado",
    "Denver, Colorado",
    "El Cajon, California",
    "El Paso, Texas",
    "Escondido, California",
    "Fresno, California",
    "La Mesa, California",
    "Las Vegas, Nevada",
    "Los Angeles, California",
    "Oceanside, California",
    "Phoenix, Arizona",
    "Sacramento, California",
    "Salt Lake City, Utah",
    "Salt Lake City, Utah",
    "San Diego, California",
    "Tucson, Arizona"
  ]

  /** Exact, case-sensitive membership in the allow-list. */
  predicate IsAllowed(location: string)
  {
    location in AllowedLocations
  }

  /** The same locations with the duplicate removed. */
  const DistinctLocations: set<string> := {
    "Albuquerque, New Mexico", "Carlsbad, California", "Chula Vista, California",
    "Colorado Springs, Colorado", "Denver, Colorado", "El Cajon, California",
    "El Paso, Texas", "Escondido, California", "Fresno, California",
    "La Mesa, California", "Las Vegas, Nevada", "Los Angeles, California",
    "Oceanside, California", "Phoenix, Arizona", "Sacramento, California",
    "Salt Lake City, Utah", "San Diego, California", "Tucson, Arizona"
  }

  /** The duplicated line has no effect: membership in the listed sequence
      is membership in the deduplicated set. */
  lemma AllowListIgnoresDuplicate(location: string)
    ensures IsAllowed(location) <==> location in DistinctLocations
  {
  }

  /** Every stored timestamp is in the form the date filter can parse. */
  predicate AllTimestampsParse(rs: seq<Review>)
  {
    forall i :: 0 <= i < |rs| ==> ParseTimestamp(rs[i].timestamp).Some?
  }
}
