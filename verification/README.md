# SHL assessment recommender: verified model of the retrieval core

This project models, in Dafny, the deterministic logic inside the SHL
assessment recommendation system:

- **Result assembly** (`find_assessments` in `backend/search_assessments.py`).
  The embedding service's answer is unwrapped into a one-row query batch.
  The nearest-neighbour index answers with `(id, distance)` columns.
  Sentinel ids (`-1`) are skipped. Every other id is looked up in the
  id-aligned product table (`vector_texts`), and one result record is built
  per hit with `Score = round(1 / (1 + distance), 4)`. The index's order is kept.
- **Query rebuild** (`build_refined_query` in `rag_pipeline.py`), together with
  the fallback of `extract_structured_query`: model output that is not valid
  JSON gives the empty intent.
- **Retrieval metrics** (`precision_at_k`, `recall_at_k`, `hit_at_k` in `evaluation.py`).
- **Job-level splitting** in the catalogue crawler
  (`extract_data/extract_data/spiders/products.py`, `parse_product`).

Modules:

- `Wrappers`: `Option` and `Result`.
- `Text`: Python's `str.isspace`, `str.strip()`, `str.split(c)` and `sep.join`.
- `Ratios`: two facts about real division.
- `Search`: the embedding unwrap (`QueryBatch`), the score of line 80 (`Score`),
  and the result assembly (`Assemble`). The product
  table is the class `VectorTexts`, whose `rows` field is read-only. The loop of
  `find_assessments` is the method `VectorTexts.AssembleResults`, proved equal
  to the recursive specification `Assemble`.
- `RagPipeline`: `build_refined_query` is `RefinedQuery`, and the parse fallback of
  `extract_structured_query` is `StructuredIntent`. Intent values are JSON values (`Json`), so that Python
  truthiness and the `TypeError`s raised by `str.join` are modelled. A typed
  view (`TypedIntent`) states the intended query directly.
- `Evaluation`: the three metrics (`PrecisionAtK`, `RecallAtK`, `HitAtK`), with Python's `s[:k]` slicing for any
  integer `k`. Ratios are exact reals.
- `ProductsSpider`: the `job_levels` comprehension is `JobLevels` over the extracted
  text and `ScrapedJobLevels` over the optional selector result.

Behaviour of the code that the model keeps as written:

- An empty refined query is passed on as is. There is no fallback to the raw text.
- There is no dimension check on the embedding.
- A rounded score can be 0 for a very large distance. The rounded score lies
  in [0, 1], not (0, 1].

## Model

| member | source | states |
|---|---|---|
| Search.QueryBatch | backend/search_assessments.py:46-52 | the answer is unwrapped to its first vector when nested and kept when flat; the batch has exactly one row; an empty answer raises |
| Search.QueryBatchShapes | backend/search_assessments.py:48-52 | a flat vector and the same vector nested one level give the same single-row batch |
| Search.Str | backend/search_assessments.py:74-78 | `str()` of a text field is that text |
| Search.Round4 | backend/search_assessments.py:80 | rounding to 4 decimals moves a value by at most 0.00005 |
| Search.RawScore | backend/search_assessments.py:80 | `1/(1+d)` is the number that multiplied by `1 + d` gives 1; bounds and decrease are stated by RawScoreRange and RawScoreDecreasing |
| Search.Score | backend/search_assessments.py:80 | the score is `1/(1+d)` up to the rounding error 0.00005; bounds and order are stated by ScoreRange and ScoreNonIncreasing |
| Search.RawScoreRange | backend/search_assessments.py:80 | for distance ≥ 0, `1/(1+d)` lies in (0, 1] and equals 1 exactly at distance 0 |
| Search.RawScoreDecreasing | backend/search_assessments.py:80 | `1/(1+d)` strictly decreases as the distance grows |
| Search.Round4Monotone | backend/search_assessments.py:80 | rounding preserves order |
| Search.Round4Unit | backend/search_assessments.py:80 | rounding keeps [0, 1] inside [0, 1] and leaves 1 at 1 |
| Search.ScoreRange | backend/search_assessments.py:80 | the rounded score of a non-negative distance lies in [0, 1]; distance 0 scores exactly 1 |
| Search.ScoreNonIncreasing | backend/search_assessments.py:80 | a larger distance never gets a higher rounded score |
| Search.ToAssessment | backend/search_assessments.py:71-80 | name, url, description and remote are the stringified row fields; test type and job levels are passed through unchanged; the score is the rounded score of the distance |
| Search.Assemble | backend/search_assessments.py:65-86 | the number of results equals the number of non-sentinel columns |
| Search.AssembleAppend | backend/search_assessments.py:67-83 | assembly works column by column: two consecutive stretches of the answer give concatenated results |
| Search.AssembleAt | backend/search_assessments.py:67-83 | every non-sentinel column i yields its record, placed at position "number of non-sentinel columns before i"; this keeps the index's order |
| Search.AssembleOrigin | backend/search_assessments.py:67-83 | every result comes from a non-sentinel column, the one with exactly that many non-sentinel columns before it; no result comes from a sentinel |
| Search.AllSentinels | backend/search_assessments.py:68-69 | an answer made only of sentinels yields no results |
| Search.AssembleScoresFollowDistances | backend/search_assessments.py:67-83 | when the distances of the real (non-sentinel) columns ascend, result scores never increase, whatever the padding distances; there is no re-sort |
| Search.AssembleScoresInUnit | backend/search_assessments.py:80 | every result score lies in [0, 1] when distances are non-negative |
| Search.AtMostKResults | backend/search_assessments.py:63-86 | an answer of at most k columns gives at most k results |
| Search.PaddedAnswer | backend/search_assessments.py:63-86 | real hits followed by sentinel padding give exactly one result per real hit, e.g. 3 results for k = 5 over 3 entries |
| Search.ExactMatchFirst | backend/search_assessments.py:67-83 | a first hit at distance 0 becomes the first result, with score exactly 1 |
| Search.VectorTexts.constructor | backend/search_assessments.py:26-28 | the table holds exactly the loaded rows |
| Search.VectorTexts.AssembleResults | backend/search_assessments.py:65-86 | the loop's results equal `Assemble` of the answer: one record per non-sentinel column, in order, at most as many as there are columns |
| Search.VectorTexts.FindAssessments | backend/search_assessments.py:55-86 | fails exactly when the embedding answer is empty; otherwise returns the assembled results of the index's answer for the unwrapped batch and k |
| RagPipeline.StructuredIntent | rag_pipeline.py:44-48 | unparseable model output gives the empty intent; a parsed object is used as is |
| RagPipeline.RefinedQuery | rag_pipeline.py:53-72 | `build_refined_query` raises only TypeError, and does so whenever joining the skills raises; its result is stated by TypedIntentQuery, EmptyQueryIff, OtherKeysIgnored, RemoteYesAppends, RemoteNotYesIgnored and NonStringRoleRaises |
| RagPipeline.Iterate | rag_pipeline.py:63-64 | strings, lists and objects can be iterated (a list yields its items); other values raise |
| RagPipeline.AsStrings | rag_pipeline.py:64-72 | `join`'s type check passes exactly when every item is a string, and then gives those strings in order |
| RagPipeline.FallbackGivesEmptyQuery | rag_pipeline.py:44-72 | the fallback intent `{}` rebuilds to the empty query "" |
| RagPipeline.TypedIntentQuery | rag_pipeline.py:53-72 | a well-typed intent never raises and gives the non-empty role, skills joined by ", ", the non-empty level and "remote testing" on "Yes", in that order, joined by single spaces |
| RagPipeline.ToJson | rag_pipeline.py:60-69 | `get` reads back each typed field of the written-out intent, and absent fields read as None |
| RagPipeline.AsStringsWrap | rag_pipeline.py:64 | a list of strings passes `join`'s type check unchanged |
| RagPipeline.OtherKeysIgnored | rag_pipeline.py:60-70 | `assessment_preferences`, and any key other than the four read ones, never changes the query |
| RagPipeline.RemoteNotYesIgnored | rag_pipeline.py:69-70 | a remote value other than exactly the string "Yes" contributes nothing |
| RagPipeline.RemoteYesAppends | rag_pipeline.py:69-70 | "Yes" appends "remote testing" as the last part and changes nothing else |
| RagPipeline.SameFields | rag_pipeline.py:60-67 | the role, skills and level parts depend only on those three fields |
| RagPipeline.EmptyQueryIff | rag_pipeline.py:58-72 | the query is "" exactly when no part was contributed, or when the only part is an empty skills join |
| RagPipeline.SkillsStringJoinsCharacters | rag_pipeline.py:63-64 | skills given as a non-empty string are joined character by character with ", " |
| RagPipeline.SqlSkills | rag_pipeline.py:63-64 | skills given as the string "SQL" become "S, Q, L" |
| RagPipeline.NonStringRoleRaises | rag_pipeline.py:60-72 | any truthy non-string role makes `build_refined_query` raise TypeError |
| RagPipeline.NonStringLevelRaises | rag_pipeline.py:66-72 | any truthy non-string level makes `build_refined_query` raise TypeError |
| RagPipeline.RoleSkillRemote | rag_pipeline.py:53-72 | a role, one skill and remote "Yes" read as role, skill and "remote testing" joined by single spaces, the role left out when empty |
| RagPipeline.FinanceGraduateExpected | rag_pipeline.py:53-72 | role "Finance Graduate", skills ["accounting"] and remote "Yes" read as "Finance Graduate accounting remote testing" |
| RagPipeline.FinanceGraduateExample | rag_pipeline.py:53-72 | `build_refined_query` gives "Finance Graduate accounting remote testing" for that intent |
| Evaluation.Head | evaluation.py:8 | `s[:k]` is a prefix: of length min(k, n) for k ≥ 0, and dropping -k items from the end for k < 0 |
| Evaluation.HitCount | evaluation.py:10 | the hit count never exceeds the number of URLs counted |
| Evaluation.PrecisionAtK | evaluation.py:7-11 | precision is 0 when k is 0 and lies in [0, 1] when k > 0 |
| Evaluation.RecallAtK | evaluation.py:14-18 | recall is 0 when there are no relevant URLs and never negative |
| Evaluation.HitAtK | evaluation.py:21-23 | a hit needs a non-empty head `retrieved[:k]` and a non-empty relevant list; HitIffHits ties it to the hit count |
| Evaluation.HitCountPositive | evaluation.py:10 | the hit count is positive exactly when some counted URL is relevant |
| Evaluation.HitIffHits | evaluation.py:21-23 | `hit_at_k` holds exactly when the hit count used by precision and recall is positive |
| Evaluation.HitsBound | evaluation.py:8-10 | hits are at most k and at most the number of retrieved URLs |
| Evaluation.OnlyTopKCounts | evaluation.py:7-23 | URLs after the first k change none of the three metrics |
| Evaluation.RelevantAsSet | evaluation.py:7-23 | repeating or reordering relevant URLs changes no metric |
| Evaluation.PrecisionOfShortList | evaluation.py:11 | with fewer than k URLs retrieved, the denominator is still k |
| Evaluation.HitCountOfDistinct | evaluation.py:17 | for distinct URLs, the hit count is the number of relevant URLs among them |
| Evaluation.RecallBoundWhenDistinct | evaluation.py:14-18 | recall lies in [0, 1] when the first k URLs are distinct |
| Evaluation.RecallCountsRepeats | evaluation.py:17-18 | a relevant URL retrieved twice counts twice: recall 2 |
| Evaluation.DistinctRecallAtK | evaluation.py:14-18 | recall that counts each found relevant URL once lies in [0, 1], and is 0 without relevant URLs |
| Evaluation.DistinctRecallAgrees | evaluation.py:14-18 | that recall equals `recall_at_k` whenever the first k URLs are distinct |
| ProductsSpider.KeptCount | extract_data/extract_data/spiders/products.py:43 | no more pieces survive the filter than there are pieces |
| ProductsSpider.CleanPieces | extract_data/extract_data/spiders/products.py:43 | one element per surviving piece; every element is non-empty with no whitespace at either end |
| ProductsSpider.JobLevels | extract_data/extract_data/spiders/products.py:43 | no more job levels than comma pieces, each non-empty with no surrounding whitespace; order and origin are stated by CleanPiecesOrigin and JobLevelsInOrder |
| ProductsSpider.ScrapedJobLevels | extract_data/extract_data/spiders/products.py:42-43 | a missing node (the `.get(default="")` path) gives no job levels |
| ProductsSpider.NoTextNoLevels | extract_data/extract_data/spiders/products.py:42-43 | missing or empty text gives no job levels |
| ProductsSpider.JobLevelsClean | extract_data/extract_data/spiders/products.py:43 | every job level is non-empty, has no surrounding whitespace and contains no comma |
| ProductsSpider.StripKeepsOut | extract_data/extract_data/spiders/products.py:43 | stripping never introduces a character |
| ProductsSpider.CleanPiecesAt | extract_data/extract_data/spiders/products.py:43 | each surviving piece, stripped, sits at the position given by the survivors before it |
| ProductsSpider.CleanPiecesOrigin | extract_data/extract_data/spiders/products.py:43 | each element is the stripped form of the comma piece with exactly that many survivors before it |
| ProductsSpider.JobLevelsInOrder | extract_data/extract_data/spiders/products.py:43 | two surviving pieces keep their left-to-right order among the job levels |
| ProductsSpider.CleanPiecesAppend | extract_data/extract_data/spiders/products.py:43 | the comprehension distributes over concatenation of piece lists |
| ProductsSpider.CleanPiece | extract_data/extract_data/spiders/products.py:43 | one piece gives its stripped form, or nothing when that is empty |
| Text.LeadingSpaces | extract_data/extract_data/spiders/products.py:43 | counts exactly the leading whitespace characters |
| Text.TrailingSpaces | extract_data/extract_data/spiders/products.py:43 | counts exactly the trailing whitespace characters |
| Text.Strip | extract_data/extract_data/spiders/products.py:43 | `strip()` is a slice of the text with no whitespace at either end, and only whitespace is cut away |
| Text.StripIdempotent | extract_data/extract_data/spiders/products.py:43 | stripping twice is stripping once |
| Text.StripTrimmed | extract_data/extract_data/spiders/products.py:43 | a text without surrounding whitespace is left as it is |
| Text.StripLeadingSpace | extract_data/extract_data/spiders/products.py:43 | a leading whitespace character does not change the stripped form |
| Text.Split | extract_data/extract_data/spiders/products.py:43 | `split(",")` gives at least one piece and no piece contains the separator |
| Text.JoinSplit | extract_data/extract_data/spiders/products.py:43 | joining the pieces with the separator gives the text back |
| Text.SplitUnique | extract_data/extract_data/spiders/products.py:43 | any separator-free pieces that join back to the text are exactly its split |
| Text.SplitOfSeparatorFree | extract_data/extract_data/spiders/products.py:43 | a text without the separator splits into itself alone |
| Text.Join | rag_pipeline.py:64-72 | joining a single part gives that part |
| Text.JoinSnoc | rag_pipeline.py:72 | joining one more part appends the separator and that part |
| Text.JoinEmptyIff | rag_pipeline.py:72 | with a non-empty separator, the join is empty exactly for no parts or one empty part |
| Ratios.ShareInUnit | evaluation.py:11-18 | the bound behind `hits / k` and `hits / len(relevant_set)`: a part no larger than a positive whole gives a ratio in [0, 1] |

## Left out

- The HTTP embedding request, its credentials and `raise_for_status`. The service's answer is an input (`EmbeddingResponse`).
- The conversion to a `float32` numpy array. Vectors are sequences of reals.
- The FAISS `index.search`. It is a function parameter, and nothing is claimed about nearest-neighbour correctness or distance order.
- Loading `products_cleaned.csv`, `vector.index` and `vector_texts.pkl` at import time. The table is the constructor's argument, and `products_df` is unused by the core.
- `json.loads` itself. Its outcome is an `Option`. A parse that yields a non-object (a list, say) crashes `.get` in the code and is not modelled.
- The two Gemini calls and the prompt text. `explain_and_filter` returns the model's text verbatim, so there is nothing to verify.
- `run_rag_pipeline` and `retrieve_candidates`: they pass values straight through, and no fallback to the raw text exists.
- `print_assessments`, the command-line blocks, the Flask app and the Streamlit front end.
- `evaluate_model`: it makes network calls and averages and rounds floats.
- The Scrapy crawl, its CSS/XPath selectors, the other item fields and `saveasCSV`.
- Floating point in general. Distances, scores and ratios are exact reals, so NaN and infinity are not modelled.
- Search.Round4: rounds ties upward, while Python's `round` is half-to-even on binary doubles. Only its error bound, order preservation and [0, 1] bounds are claimed, not bit-exact values.
- Search.VectorTexts.AssembleResults: requires every non-sentinel id to be in range and its distance to differ from -1. An out-of-range id is not modelled as an error; at -1 it divides by zero.
- Search.VectorTexts.FindAssessments: the index's answer columns are given as `(id, distance)` pairs. The code zips two equal-length rows into those pairs.
- Python object keys with duplicates: `JObj` holds the entries as `json.loads` leaves them, already deduplicated and in insertion order.

## Findings

| source | as written | input that shows it | evidently intended | confidence | as-written member | corrected member |
|---|---|---|---|---|---|---|
| evaluation.py:17-18 | `recall_at_k` counts every retrieved occurrence of a relevant URL but divides by the number of distinct relevant URLs | retrieved ["u", "u"], relevant ["u"], k = 2 gives recall 2.0 | recall is the share of relevant URLs found, in [0, 1] | medium; not executed (duplicate URLs need a catalogue with a repeated product) | Evaluation.RecallCountsRepeats | Evaluation.DistinctRecallAtK |
