# Review API server — Dafny model

A model of the request-handling core of a small review service (`server.py`).
The server keeps an in-memory list of customer reviews (body, location,
timestamp, optional id). A GET narrows that list by an exact `location`
and by an inclusive `start_date`/`end_date` window. An unknown location
empties the result. The remaining reviews are scored by a sentiment
analyser and returned sorted by compound score, highest first, ties in
list order. A POST checks that `ReviewBody` and `Location` are present and
that the location is on a fixed allow-list, then appends a new review
stamped with the current time and a fresh id.

The model is functional. The store is a `seq<Review>`. A request maps
(store, request, fresh id, clock reading, scorer) to (response, store
afterwards).

Modules:

- `Wrappers`: `Option` and `Result`.
- `Seqs`: order-preserving `Filter`, the shape of every list comprehension in the server. `IsSubsequence` and `IsFilterOf` characterise it: the same elements, with multiplicity, in the same order.
- `StableSort`: the stable non-increasing sort that `list.sort(key=..., reverse=True)` performs, with sortedness, permutation, stability (each class of equal keys keeps its input order) and uniqueness.
- `DateTimes`: date-times, the strict `YYYY-MM-DD` and `YYYY-MM-DD HH:MM:SS` parsers and printers, and the chronological order.
- `Reviews`: the records, the decoded parameters and the location allow-list.
- `QueryFilter`: the location filter, `filter_by_date_range`, the allow-list gate, and their composition `Select`.
- `Ranking`: attaching sentiment and ranking.
- `Validator`: the POST field and location checks.
- `Router`: the GET, POST and dispatch handlers, and properties spanning several requests.
- `Examples`: concrete requests.

Collaborators that are parameters:

- The sentiment analyser is a function `string -> Sentiment`. Only its compound score is used for ordering.
- The id from `uuid.uuid4()` is a `freshId: string` argument.
- The clock reading from `datetime.now()` is a `now: DateTime` argument, at whole seconds. `datetime.now()` also carries microseconds, which `strftime` drops. So "parses back to the clock reading" means the reading truncated to the second.
- `parse_qs` output is the input: a `map<string, seq<string>>` in which every name has at least one value and no value is empty. Blank values are dropped by default, so an empty `ReviewBody=` arrives as an absent field.

Three behaviours of the code worth knowing:

- The allow-list holds full names such as `"Denver, Colorado"`, with `"Salt Lake City, Utah"` listed twice (`Reviews.AllowListIgnoresDuplicate`).
- A malformed `start_date` or `end_date` makes `filter_by_date_range` return its input unchanged, so the other bound is ignored too.
- Both date bounds mean midnight of the given day, so reviews stamped later on the end day are excluded.

## Model

| member | source | states |
|---|---|---|
| Seqs.FilterIsFilterOf | server.py:96-98 | a list comprehension's result is an order-preserving subsequence of its input holding every occurrence of each element satisfying the condition and nothing else |
| Seqs.FilterConcat | server.py:96-98 | filtering a list extended by an append equals filtering the old part and the new part separately |
| Seqs.FilterFilter | server.py:94-100 | two successive comprehensions equal one comprehension by the conjunction of their conditions |
| Seqs.FilterPrefix | server.py:196 | once the list grows by appends, what a comprehension kept from the old list is still kept, in front and in the same order |
| Seqs.FilterKeepsAppended | server.py:96-98 | an appended element that satisfies the condition is kept by the comprehension over any later extension of the list |
| QueryFilter.FilterByLocation | server.py:94-98 | without a `location` parameter the list passes through unchanged; with one, the result is the subsequence of reviews whose location equals its first value exactly, in original order, with every such occurrence kept |
| QueryFilter.FilterByDateRange | server.py:24-68 | a malformed supplied date returns the input unchanged, dropping the other bound too; with no date parameter the input is returned; otherwise the result equals one filter by the closed window built from whichever bounds are supplied (start only, end only or both), unifying the three comprehensions |
| QueryFilter.DateFilterKeepsWindow | server.py:49-66 | with well-formed dates, the date filter keeps exactly the reviews whose parsed timestamp lies in `[start, end]` (an absent bound imposes nothing), in original order |
| QueryFilter.EndDateExcludesRestOfDay | server.py:44-53 | the end bound is midnight of the end day, so a review stamped on that day at any time after midnight is not returned |
| QueryFilter.Select | server.py:91-124 | location filter, date filter and allow-list gate (`AllowListGate`, server.py:123-124) together equal a single filter of the store by `Admits`: location requested and allowed and equal, timestamp in the window unless a date is malformed; an unknown location gives the empty list whatever the store holds |
| QueryFilter.SelectIsOneFilter | server.py:94-124 | the three-stage narrowing in the source's order is the single filter by `Admits` |
| Reviews.AllowListIgnoresDuplicate | server.py:103-121 | membership in the listed allow-list, with its repeated Salt Lake City line, is membership in the 18-element set of distinct locations |
| StableSort.Sort | server.py:129 | the sorted list is a permutation of the input with keys non-increasing from left to right |
| StableSort.InsertKeyClass | server.py:129 | inserting an element puts it ahead of every element of equal key and leaves every key class of the rest in order |
| StableSort.SortIsStable | server.py:129 | for every key value, the elements with that key appear in the output in the same relative order as in the input (Python's stable sort, also under `reverse=True`) |
| StableSort.SortedUnique | server.py:129 | two non-increasing lists whose key classes agree are equal, so a stable descending sort has exactly one possible result |
| Ranking.Rank | server.py:126-129 | the ranked list holds each filtered review once with the scorer's sentiment, compound scores non-increasing, equal scores in filtered order |
| Ranking.Attach | server.py:127-128 | scoring keeps the list's length and order and pairs each review with the scorer's verdict on its own body |
| Ranking.RankIsTheStableSort | server.py:129 | any list of the scored reviews that is sorted by non-increasing compound score and keeps ties in filtered order is the ranking, so the response order is fully determined |
| Validator.Validate | server.py:145-186 | the missing-field error happens exactly when `ReviewBody` or `Location` is absent; the invalid-location error exactly when both are present and the first `Location` value is not on the allow-list; on success the first values come back unchanged, the body non-empty and the location allowed |
| Router.HandleGet | server.py:88-129 | a GET lists a permutation of the admitted reviews with their sentiment, sorted by non-increasing compound score, ties in store order, and lists nothing for an unknown location |
| Router.Classify | server.py:88-141 | a request is a GET exactly when the method is the exact string `GET`, a POST exactly when it is `POST`, and otherwise unsupported; the query string feeds a GET and the form a POST |
| Router.HandlePost | server.py:141-197 | a missing field gives 400 `ReviewBody and Location are required` and an unlisted location 400 `Invalid location provided`, both leaving the store unchanged; otherwise 201, and the store becomes the old store plus one new review (`NewReview`, server.py:189-195) at the end, with the given body, location and id, a timestamp that parses back to the clock reading, and the scorer's sentiment; 201 happens exactly when both fields are present and the location is allowed |
| Router.Handle | server.py:88-208 | a GET answers 200 and leaves the store as it was; a POST keeps the old store as a prefix and adds at most one review; any other method gets no response and changes nothing; the store changes only on a 201 POST |
| Router.HandlePreservesReadableTimestamps | server.py:53 | if every stored timestamp parses, it still does after any request, so later date-range queries never fail on a review the server created |
| Router.CreatedReviewIsListed | server.py:188-197 | a review created by POST is in the listing of every later GET for its location, on any store that extends the store the POST left, with the same sentiment the POST returned |
| DateTimes.ParseDate | server.py:37 | an accepted date string yields a valid calendar day at midnight |
| DateTimes.ParseTimestamp | server.py:53 | an accepted stored timestamp yields a valid date-time; with the two round-trip rows below, it accepts exactly the canonical `YYYY-MM-DD HH:MM:SS` texts and reads the instant they print |
| DateTimes.ParseFormatDate | server.py:37 | printing a valid date as `YYYY-MM-DD` and parsing it back gives that day at midnight |
| DateTimes.FormatParseDate | server.py:44 | the strict date parser accepts only the canonical form: printing what it parsed gives the original string |
| DateTimes.ParseFormatTime | server.py:193 | the `HH:MM:SS` part written for a new review reads back as the same hour, minute and second |
| DateTimes.ParseFormatTimestamp | server.py:193 | the `YYYY-MM-DD HH:MM:SS` text that `FormatTimestamp` writes for a new review parses back to the same instant |
| DateTimes.FormatParseTimestamp | server.py:53 | every timestamp the parser accepts is canonical: printing what it parsed gives the original string |
| DateTimes.FieldsUnfields | server.py:193 | three numbers printed zero-padded with separators read back as the same numbers |
| DateTimes.UnfieldsFields | server.py:53 | a three-field digit string is the zero-padded printing of its own fields |
| DateTimes.Join3Layout | server.py:193 | in `a x b y c`, each field and separator sits at the position its predecessors' lengths give |
| DateTimes.DecodeEncode | server.py:193 | a number printed zero-padded to a width it fits reads back as itself |
| DateTimes.EncodeDecode | server.py:53 | a digit field is the zero-padded printing of its own value |
| DateTimes.NotAfterIsTotalOrder | server.py:53 | the date-time comparison is reflexive, total, antisymmetric and transitive |
| Router.AdmittedIsListed | server.py:94-129 | every review a query admits appears in the GET listing with the scorer's sentiment for its body |
| Router.LocationQuery | server.py:94-98 | a query with only an allowed `location` is defined on any store, never reads a timestamp, and admits exactly the reviews filed at that location |
| Examples.UnpaddedDateRejected | server.py:37 | `2024-3-5` is rejected by the strict parser |
| Examples.EndDateQuery | server.py:42-47 | a query `end_date=<e>` with a parseable `e` is well formed and bounds only the end, at midnight of day `e` |
| Examples.EndOfDayAdmission | server.py:61-66 | under `end_date=<e>`, a review stamped at midnight of day `e` is admitted and one stamped a second later is not |
| Examples.EndDateIsMidnightExample | server.py:61-66 | with `end_date` set to a day, a GET over a review at that midnight and one at one second past lists only the first |
| Examples.OneAdmittedIsListed | server.py:126-129 | when a query admits a single review, the listing is that review with its sentiment |
| Examples.UnknownLocationRejected | server.py:180-186 | a POST with `Location=Nowhere` answers 400 `Invalid location provided` and stores nothing |
| Examples.DenverAccepted | server.py:188-203 | a POST for `Denver, Colorado` answers 201 with that exact location and grows the store by one |
| Examples.StartAfterEverythingListsNothing | server.py:55-60 | a start date later than every stored timestamp gives an empty listing |

## Left out

- Sentiment analysis (VADER via nltk, server.py:1-3, 13-20, 75-77) is a foreign library with floating-point output. It is a parameter `string -> Sentiment`, assumed deterministic.
- Loading the seed CSV with pandas (server.py:22) is file I/O. The initial store is an arbitrary `seq<Review>`.
- WSGI plumbing is I/O and serialisation done by libraries: `start_response`, headers, `Content-Length`, JSON encoding, reading `wsgi.input`, the listener and `PORT` (server.py:131-139, 143, 200-215). Responses are modelled before encoding.
- `parse_qs` URL and form decoding (server.py:90, 144) is a library call. Its decoded output is the input.
- `uuid.uuid4()` and `datetime.now()` (server.py:190, 193) are nondeterministic. They are parameters.
- `strptime` leniency, such as unpadded fields like `2024-3-5`, is library behaviour. The parsers here are strict fixed-width ones with years 1 to 9999, and no equivalence to `strptime` is claimed.
- `strftime("%Y")` zero-pads to four digits here. Some C libraries print years below 1000 without padding, and the model does not follow that.
- An unparseable stored timestamp makes `strptime` raise inside the date filter (server.py:53, 59, 65), which fails the request. This is a precondition (`GetDefined`, and the second `requires` of `FilterByDateRange`), not an error response.
- Writing `sentiment` into the stored dicts through the shallow copy (server.py:91, 128) is an aliasing artefact, and the `sentiment` key a POST stores with the new review (server.py:194) is never read back. Sentiment is response-only in the model.
- Scorer failures are not modelled: the scorer is a total function.
- HTTP methods other than GET and POST fall through with no response. They are modelled as no response and an unchanged store, with no status code invented. This is the application's return value (`None`). What the client sees, the WSGI server's 500 error, is not modelled.
- Concurrent, unsynchronised appends to the global list are out of scope; requests are handled one at a time.
- The unused globals `adj_noun_pairs_count` and `stop_words` (server.py:18, 20) are not modelled.
