# Cortex search front-end: result pipeline

A Dafny model of the result pipeline of a Streamlit search page over a Snowflake Cortex
Search service (`streamlit_app.py`). The service answers a query with an ordered list of
records (`app_id`, `title`, `unique_views`, `owner`, `@CONFIDENCE_SCORE`). The page then:

- interleaves that list with itself (every hit twice in a row);
- scores each record with `int(confidence) / 3`;
- ranks the list by one of three strategies:
  - `relevancy`: returned unsorted;
  - `relevancy+views`: boosted by views, then stably sorted by the integer part of the new score;
  - `unique_views`: stably sorted by views;
- removes repeated `app_id`s, first occurrence winning;
- drops records under a minimum view count;
- cuts the list into display groups of three.

Two builders sit beside this pipeline. One turns the selected dependencies, components and
owner into a boolean filter tree (`@and` / `@or` / `@contains` / `@eq`). The other parses the
tab-separated option lists the selections come from.

Modules, one per pipeline stage:

- `Common`: `Option`, subsequence, flattening.
- `Interleaving`: line 114.
- `Records`: the record and the per-record scores (lines 115 and 120).
- `Ranking`: the stable descending sort (lines 121 and 123).
- `Deduplication`: `deduplicate`.
- `PostFiltering`: `post_filter`.
- `Batching`: `batch`.
- `SearchPipeline`: the `order_by` dispatch and the top-level flow of lines 173-175.
- `FilterTree`: the filter builder.
- `OptionLines`: `load_options`.

## Model

| member | source | states |
|---|---|---|
| `Interleaving.Interleave` | streamlit_app.py:114 | the round-robin merge is exactly as long as both inputs together |
| `Interleaving.InterleaveMultiset` | streamlit_app.py:114 | the merge holds every element of both inputs, each as often as the two inputs together hold it |
| `Interleaving.InterleaveAt` | streamlit_app.py:114 | while both inputs last, position 2i holds a[i] and position 2i+1 holds b[i] |
| `Interleaving.InterleaveRest` | streamlit_app.py:114 | once the shorter input is used up, the rest of the longer one follows unchanged and no padding survives |
| `Interleaving.Doubled` | streamlit_app.py:114 | interleaving the results with themselves gives length 2n, and position k holds results[k / 2] |
| `Records.Scored` | streamlit_app.py:115 | scoring changes only the relevancy score, which is then present and equals the integer confidence divided by 3 |
| `Records.ScoreAll` | streamlit_app.py:115 | the scored list has the same hits in the same order, each with score confidence / 3 |
| `Records.Boosted` | streamlit_app.py:120 | boosting changes only the relevancy score; a record with zero views gets score 0, whatever its relevancy |
| `Records.BoostAll` | streamlit_app.py:120 | the boosted list has the same hits in the same order, each with score views * pow(old score) |
| `Records.TruncToInt` | streamlit_app.py:121 | `int()` on a float truncates toward zero: the result lies within 1 of x, on the zero side |
| `Ranking.SortDesc` | streamlit_app.py:121-123 | `sorted` with key `-k(x)` returns a permutation of its input that is non-increasing in k |
| `Ranking.SortDescStable` | streamlit_app.py:121-123 | the sort is stable: for every key value, the records with that key keep their input order |
| `Ranking.StableSortUnique` | streamlit_app.py:121-123 | two lists that are sorted and agree on the order within every key are equal, so the sort's result is determined |
| `Ranking.SortDescIds` | streamlit_app.py:121-123 | sorting leaves the multiset of `app_id`s unchanged |
| `Ranking.SortDescDoubled` | streamlit_app.py:114-123 | sorting the doubled list gives the doubled sorted list: both copies of a record stay adjacent |
| `Deduplication.DedupFromShape` | streamlit_app.py:126-127 | the scan with a set of already seen ids keeps a subsequence with distinct ids, none of them seen, covering every other input id |
| `Deduplication.Dedup` | streamlit_app.py:125-127 | `deduplicate` returns a subsequence of its input with pairwise distinct ids and every input id |
| `Deduplication.DedupSpec` | streamlit_app.py:125-127 | besides the above, each kept record is the record at the first position of its id, the kept records are ordered by those first positions, and each first record is kept |
| `Deduplication.DedupIdempotent` | streamlit_app.py:125-127 | deduplicating an already deduplicated list returns it unchanged |
| `Deduplication.DedupDoubled` | streamlit_app.py:125-127 | deduplicating the doubled list of line 114 equals deduplicating the results once |
| `Deduplication.Deduplicate` | streamlit_app.py:125-127 | the scan with a growing set of seen ids returns exactly the deduplicated list |
| `PostFiltering.PostFilter` | streamlit_app.py:130-131 | the result is an order-preserving subsequence that holds each record with at least the minimum views as often as the input does, and no other record |
| `PostFiltering.PostFilterAllPass` | streamlit_app.py:130-131 | a list whose records all have enough views is returned unchanged |
| `PostFiltering.PostFilterIdempotent` | streamlit_app.py:130-131 | filtering twice with the same threshold equals filtering once |
| `PostFiltering.PostFilterKeepsRecords` | streamlit_app.py:131 | a record survives exactly when it is in the input and has at least the minimum views |
| `Batching.Chunks` | streamlit_app.py:134-137 | the groups concatenate back to the input; each holds 1 to `batch_size` records, and all but the last hold exactly `batch_size` |
| `Batching.ChunksCount` | streamlit_app.py:134-137 | there are ceil(l / `batch_size`) groups, none for an empty input |
| `Batching.ChunksAt` | streamlit_app.py:136-137 | group k is the slice `items[k*size : min(k*size + size, l)]` |
| `Batching.Batch` | streamlit_app.py:134-137 | a zero batch size fails, as `range` with step 0 raises; a negative one yields no group; a positive one yields the chunk list |
| `SearchPipeline.Dispatch` | streamlit_app.py:117-123 | a list comes back exactly for `relevancy`, `relevancy+views` and `unique_views`; it is as long as the scored list and holds the same `app_id`s, as often |
| `SearchPipeline.Search` | streamlit_app.py:111-123 | `search` answers exactly for the three known orders, with 2n records holding each `app_id` of the results twice as often |
| `SearchPipeline.SearchByRelevancy` | streamlit_app.py:114-118 | `relevancy` returns the doubled list unsorted and unboosted: position k is result k/2 scored with confidence/3 |
| `SearchPipeline.BoostedScores` | streamlit_app.py:114-120 | the rescored list has length 2n, and position k is result k/2 with score views * pow(confidence/3) |
| `SearchPipeline.SearchByBoostedScore` | streamlit_app.py:119-121 | `relevancy+views` returns a permutation of the boosted list, non-increasing in the truncated score and stable |
| `SearchPipeline.SearchByViews` | streamlit_app.py:122-123 | `unique_views` returns a permutation of the scored list, non-increasing in views and stable |
| `SearchPipeline.Shown` | streamlit_app.py:173-175 | a list is shown exactly for a known order; it has distinct ids, only records with at least the minimum views, and only ids the service returned |
| `SearchPipeline.ShownIgnoresDoubling` | streamlit_app.py:173-175 | for every strategy, the shown list equals the one obtained without the self-interleaving of line 114 |
| `FilterTree.AnyContains` | streamlit_app.py:164-166 | one `@contains` per selected name, in selection order, under an `@or` that matches a row exactly when the column lists one of the selected names |
| `FilterTree.BuildFilters` | streamlit_app.py:160-170 | no filter exactly when nothing is selected; otherwise an `@and` of the present conjuncts in the order dependencies, components, owner; the filter admits a row exactly when the row has a selected dependency, a selected component and the given owner, for each kind that is selected |
| `OptionLines.Words` | streamlit_app.py:16 | `split()` yields non-empty whitespace-free words that together hold all non-whitespace characters in order |
| `OptionLines.WordsInterspersed` | streamlit_app.py:16 | splitting words separated by non-empty whitespace runs, with any whitespace before and after, returns the words |
| `OptionLines.StripQuotes` | streamlit_app.py:17 | `replace('"', '')` leaves no double quote and keeps every other character, in order and with its count |
| `OptionLines.ParseLine` | streamlit_app.py:16-17 | a line parses exactly when it splits into two words; the name then has no double quote and the usage is a word |
| `OptionLines.ParseLineRoundTrip` | streamlit_app.py:16-17 | a name and a usage word separated by whitespace, with any whitespace around them, parse to the quote-free name and the usage |
| `OptionLines.LoadOptions` | streamlit_app.py:12-18 | loading succeeds exactly when every line parses; entry i is then the parse of line i |

## Left out

- The service call and its request (lines 73-108, 112) are not modelled: `search` receives
  `response.results` as a parameter. The options are passed through unchanged.
  `returnConfidenceScores` is always set. The header boost, the reranker switch and the
  score weight are added only when their setting is truthy.
- `search`'s default arguments (`filters=None`, `order_by="relevancy+views"`, line 111) are
  not modelled. The only call, on line 173, passes every argument.
- The Streamlit page is not modelled: `serialize`, `serialize_batch`, the widgets and the
  layout (lines 10, 51-71, 140-158, 177-178). The page's settings appear only as parameters.
- The Snowflake connection and credentials are not modelled (`load_private_key`, `get_root`,
  `get_service`, `st.secrets`, caching; lines 9, 21-49).
- The file read in `load_options` (`open`, `read`, `splitlines`) is not modelled. `LoadOptions`
  receives the lines.
- Records.Scored: the score is the exact rational confidence/3. Python computes a float, so
  rounding is not modelled.
- Records.Boosted: the fractional power `r ** (1/(boost_views/15 + 1))` is the parameter
  `pow`. The formula itself is not verified. Python's complex result for a negative base is
  not modelled, and neither is the resulting `TypeError` in `int()`.
- Records.TruncToInt: `int()` on an infinite or NaN float raises an error in Python; this is
  not modelled.
- `unique_views` and `@CONFIDENCE_SCORE` are integers in the model, i.e. already passed through
  `int()`. The `ValueError` for a non-numeric value and the `KeyError` for a missing column are
  not modelled.
- `Records.Relevancy` reads an absent score as 0. The pipeline reads scores only after line
  115 has set every one.
- Batching.Batch: the generator is lazy. The model returns all its groups at once, and the
  `ValueError` for step 0 is returned as a value.
- FilterTree.Holds is a reference meaning for the filter tree, used to state what
  `BuildFilters` selects. The search service's own evaluation of filters is not part of this
  model.
