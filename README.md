# Course search engine: a Dafny model

This project models the ranking core of `CourseSearchEngine` in the course search
app (`smart_search_app.py`). The engine is built once from the course catalog.
For every row it forms a search text, the course title and its category joined by
one space, and embeds all of those texts in one batch. A search embeds the query
and scores every row by the dot product of the row's embedding with the query's.
It then sorts the scores ascending with argsort, keeps the last `top_k` indices and
reverses them. The result is one record per selected row: the row's fields plus
its `similarity_score`, in the selected order.

Files and modules:

- `catalog.dfy`, module `Catalog`: the `Course` record (title, category, rating,
  review count, URL) and the search text of a row.
- `ranking.dfy`, module `Ranking`: the dot product, the score of every row, an
  argsort, the Python slice `[-top_k:]`, the reversal, and the lemmas about top-k
  selection.
- `engine.dfy`, module `Engine`: the class `CourseSearchEngine`. Its fields are
  `const` because `__init__` sets them once and nothing changes them afterwards.
  It has the constructor and the `Search` method, whose loop assembles the results.

Modelling choices:

- The sentence-embedding model is a function value `string -> seq<int>`. Its batch
  `encode` applies that function to each text in order. The constructor requires
  the model to give every text a vector of the same dimension. That is what makes
  `np.dot` defined for the catalog matrix and the query vector.
- Scores are exact integers. Float32 rounding is not modelled.
- numpy's `argsort` is modelled as an insertion sort over the indices. It returns
  a permutation of `0..N-1` under which the scores ascend. The source does not fix
  the order of equal scores, because the default argsort is not stable. The model
  picks one order, and no lemma claims anything about the order of ties.
- `argsort(...)[-top_k:]` is modelled with Python's slice rules for every integer
  `top_k` (`FromEndStart`). `Search` takes any integer `top_k`, with the source's
  default of 5 (line 23). For `top_k >= 1` it returns `min(top_k, N)` results. For 0
  the slice `[-0:]` keeps every row. For a negative `top_k` the slice `[k:]` drops the
  `-top_k` lowest-scoring rows.
- `Search` has no `modifies` clause and the fields are `const`. So the verifier
  itself establishes that a search changes neither the catalog, the texts nor the
  embeddings.

What the code does and does not check, as the model follows it:

- The code does not reject an empty catalog, and neither does the model.
- The code does not order equal scores by catalog position: its argsort is not
  stable. The model promises no order among equal scores either.
- The code does not replace a missing title or category by an empty string; pandas
  propagates NaN through the concatenation. The model's `Course` always has text
  fields, so a missing value cannot occur in it.
- The code's `search` rejects neither an empty query nor a `top_k` below 1. The UI
  guards the empty query at line 68, and its slider keeps `top_k` between 1 and 10
  (line 64). The model's `Search` accepts any query and any `top_k`.
- `WorkedExample` runs a two-course search with the integer scores 9 and 2.

## Model

| member | source | states |
|---|---|---|
| `Catalog.SearchText` | smart_search_app.py:20 | A row's search text is its title, then one space, then its category: the length is the sum plus one, and the text splits back into title and category at the title's length. |
| `Catalog.SearchTexts` | smart_search_app.py:20 | The column of search texts, one per row in row order; `CourseSearchEngine.Valid()` states that entry i is `SearchText(rows[i])`. |
| `Ranking.Dot` | smart_search_app.py:38 | The inner product of two vectors of one dimension; its use as the score of each returned row is stated in `CourseSearchEngine.Search`. |
| `Ranking.Similarities` | smart_search_app.py:38 | `np.dot` of the embedding matrix with the query vector, one score per row; `CourseSearchEngine.Search` states the score of result j as the dot product of its row with the query. |
| `Ranking.InsertByScore` | smart_search_app.py:41 | Inserting an index into an ascending index order yields one more index, with exactly the old indices plus the new one, all still in range. |
| `Ranking.InsertKeepsAscending` | smart_search_app.py:41 | Inserting into an order whose scores ascend gives an order whose scores ascend. |
| `Ranking.InsertKeepsDistinct` | smart_search_app.py:41 | Inserting an index not yet present keeps all indices distinct. |
| `Ranking.ArgSortPrefix` | smart_search_app.py:41 | The indices 0..n-1, each exactly once, ordered so that their scores ascend. |
| `Ranking.ArgSort` | smart_search_app.py:41 | argsort returns every index of the scores exactly once, and the scores ascend along it. |
| `Ranking.Reversed` | smart_search_app.py:41 | `[::-1]`; its properties are stated in `ReversedMembers` and `ReversedTwice`. |
| `Ranking.ReversedMembers` | smart_search_app.py:41 | Reversing keeps exactly the elements it was given. |
| `Ranking.ReversedTwice` | smart_search_app.py:41 | Reversing twice gives back the original sequence. |
| `Ranking.FromEndStart` | smart_search_app.py:41 | The slice `[-top_k:]` keeps the last `min(top_k, N)` elements when `top_k >= 1`, all elements when `top_k == 0`, and drops the first `min(-top_k, N)` when `top_k < 0`. |
| `Ranking.TopIndices` | smart_search_app.py:41 | The selection `argsort(...)[-top_k:][::-1]`; its properties are stated in `TopIndicesMembers`, `TopIndicesShape`, `TopIndicesDistinctDescending`, `TopIndicesDominate` and `TopIndicesZero`. |
| `Ranking.TopIndicesMembers` | smart_search_app.py:41 | The selected indices are exactly the indices in the kept tail of the ascending order. |
| `Ranking.TopIndicesShape` | smart_search_app.py:41 | The selection has as many indices as the slice keeps (`min(top_k, N)` for `top_k >= 1`), all in `[0, N)`, and its entry a is the argsort's entry N-1-a. |
| `Ranking.TopIndicesDistinctDescending` | smart_search_app.py:41 | For every `top_k`, the selected indices are pairwise distinct and their scores do not increase from first to last. |
| `Ranking.TopIndicesDominate` | smart_search_app.py:41 | For every `top_k`, every selected index scores at least as high as every index left out. |
| `Ranking.TopIndicesZero` | smart_search_app.py:41 | With `top_k == 0`, Python's `[-0:]` keeps every index, so the selection is the whole argsort reversed. |
| `Engine.EncodeBatch` | smart_search_app.py:21 | The model's batch `encode`, one vector per text in order; `CourseSearchEngine.Valid()` states that embedding i is the model's vector of search text i. |
| `Engine.CourseSearchEngine.constructor` | smart_search_app.py:16-21 | The engine holds the rows as given, one search text per row in row order, and the batch embedding of those texts, one vector per text. |
| `Engine.CourseSearchEngine.Scores` | smart_search_app.py:35-38 | The query embedded on its own and scored against every row; `CourseSearchEngine.Search` states what its entries mean. |
| `Engine.CourseSearchEngine.Ranked` | smart_search_app.py:41 | The selection applied to the query's scores; `CourseSearchEngine.Search` states its length, range, distinctness, order and dominance. |
| `Engine.CourseSearchEngine.Search` | smart_search_app.py:23-50 | There are `min(top_k, N)` results for `top_k >= 1`, N for 0, and N minus `min(-top_k, N)` for a negative `top_k`; `top_k` defaults to 5. Result j is row `top_indices[j]` unchanged, and its score is the dot product of that row's embedding with the query's embedding. The selected rows are distinct and in range. Scores do not increase along the results. No row left out scores higher than any row returned. |
| `Engine.CourseSearchEngine.SearchIsRepeatable` | smart_search_app.py:23-50 | Search only reads the engine, so two searches with the same query and `top_k` return equal results. |
| `Engine.WorkedExample` | smart_search_app.py:35-50 | With two courses scoring 9 and 2 against the query, a search with `top_k = 1` returns exactly the first course, with score 9. |

## Left out

- The Streamlit page (title, text input, slider, button, rendering, warning; lines 56-81) is presentation and is not modelled.
- Reading the CSV with `pd.read_csv` (line 16) is file I/O. The catalog is a given sequence of `Course` records.
- Only the five columns the app displays are modelled. `to_dict()` returns whatever other columns the CSV has, unchanged, and `Course` has no place for them.
- The `SentenceTransformer` model (lines 17, 21, 35) is a foreign library. It is a function parameter of the constructor, and nothing is assumed about it except a fixed vector dimension.
- A model whose vectors differ in dimension makes `np.dot` raise an error. That error path is not modelled, because the constructor requires a fixed dimension.
- Floating-point scores and the `float(...)` conversion (line 47) are not modelled. Scores are exact integers.
- The order among equal scores is not modelled as a promise, because the default argsort is not stable. `ArgSort` picks one deterministic order.
- An empty catalog is modelled as returning no results. The program may instead raise at line 38: `encode([])` at line 21 yields an array whose shape the embedding library decides, and `np.dot` of a shape-(0,) array with a query vector raises an error. The model's empty sequence of vectors has no dimension, so it cannot capture that.
- The module-level `search_engine` instance (lines 53-54) is process wiring and is not modelled.
