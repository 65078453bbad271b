# Top languages and environment lists, in Dafny

This project models two parts of github-readme-stats:

- **`fetchTopLanguages`**: the language-usage aggregator. It reads the GraphQL replies for one user page by page. A reply carrying errors fails the whole call with a mapped error. Otherwise it folds every language edge of every non-excluded repository into a per-language tally (total bytes, count, color). Each tally then becomes a result entry `{name, color, count, size}`, where `size` is the rank score `bytes^sizeWeight * count^countWeight`.
- **`src/common/envs.js`**: turns the comma-separated environment variables `WHITELIST`, `GIST_WHITELIST`, `EXCLUDE_REPO` and `EXCLUDE_OWNER` into lists. The first two default to "absent" and the last two to the empty list.

The implementation file of `fetchTopLanguages` (`src/fetchers/top-languages.js`) is not part of this model. Its behaviour is taken from its test file, `tests/fetchTopLanguages.test.js`.

Modules, one per file:

| file | module | contents |
|---|---|---|
| wrappers.dfy | `Wrappers` | `Option`, `Result` |
| envs.dfy | `Envs` | `Split`, `Join`, the two defaults, `Load` |
| repositories.dfy | `Repositories` | `Edge`, `Repo`, `Page`; reference sums per language (`LanguageBytes`, `LanguageEdges`, `LanguageRepos`) |
| aggregation.dfy | `Aggregation` | the fold `TallyEdges` / `Aggregate` and its correctness, exclusion and page-merge lemmas |
| ranking.dfy | `Ranking` | `Pow`, `Score`, `Rank` |
| fetch.dfy | `TopLanguages` | replies, error mapping `ToFault`, pagination `Collect`, entry point `FetchTopLanguages` |
| scenarios.dfy | `Scenarios` | each test case with whole-number weights, as a lemma about the exact result |

Inputs the source reads from its surroundings are parameters here:
- The GraphQL replies are a `seq<Reply>` in request order.
- `FETCH_MULTI_PAGE_STARS` is the boolean `multiPage`.
- The environment variables are `Option<string>` (`None` when unset).

## Model

| member | source | states |
|---|---|---|
| `Envs.Split` | src/common/envs.js:2 | splitting gives one more piece than there are commas, so a string always gives at least one piece; no piece contains a comma |
| `Envs.JoinSplit` | src/common/envs.js:10 | joining the pieces with "," gives back exactly the string that was split |
| `Envs.SplitUnique` | src/common/envs.js:14 | any comma-free pieces that join to `s` are `Split(s)`: pieces are verbatim, with no trimming, no deduplication, and empty pieces kept |
| `Envs.SplitKeepsPiecesVerbatim` | src/common/envs.js:6 | `",,"` gives three empty pieces, a trailing comma gives a final empty piece, repeated names stay, blanks are not trimmed |
| `Envs.SplitOrAbsent` | src/common/envs.js:1-7 | absent exactly when the variable is unset or empty; otherwise a list of at least one comma-free piece that joins back to the value |
| `Envs.SplitOrEmpty` | src/common/envs.js:9-15 | the empty list exactly when the variable is unset or empty; otherwise comma-free pieces that join back to the value |
| `Envs.Load` | src/common/envs.js:1-17 | whitelists are absent and exclusion lists are empty exactly when their variable is unset or empty; otherwise each is the split of its variable |
| `Repositories.EdgesAreRepos` | tests/fetchTopLanguages.test.js:84-97 | when no repository lists a language twice, the edge count of a language equals the number of non-excluded repositories using it |
| `Repositories.ExcludeOneMore` | tests/fetchTopLanguages.test.js:100-118 | excluding one more repository name lowers each language's reference size and edge count by exactly what the repositories of that name held |
| `Aggregation.AddEdge` | tests/fetchTopLanguages.test.js:275-281 | merging an edge adds its language as a key, adds its size, raises the count by one, sets its color, and leaves every other language unchanged |
| `Aggregation.TallyEdges` | tests/fetchTopLanguages.test.js:84-97 | every entry of the accumulator is named by its key and has count at least 1 |
| `Aggregation.TallyEdgesSpec` | tests/fetchTopLanguages.test.js:120-138 | a language has an entry exactly when it has an edge; its size is the sum and its count the number of its edges, and its color is one of its edges' colors |
| `Aggregation.TallyLocal` | tests/fetchTopLanguages.test.js:111-116 | a language's entry depends on that language's edges alone |
| `Aggregation.ContributingSpec` | tests/fetchTopLanguages.test.js:100-138 | the edges that reach the accumulator carry exactly the reference per-language sums and counts over the non-excluded repositories |
| `Aggregation.ContributingOrigin` | tests/fetchTopLanguages.test.js:100-118 | every edge that reaches the accumulator belongs to a non-excluded repository and a non-excluded language |
| `Aggregation.AggregateSpec` | tests/fetchTopLanguages.test.js:84-158 | the keys are exactly the languages some non-excluded repository uses; each entry has name = key, count ≥ 1, size = the sum of sizes, count = the number of repositories (when no language is listed twice), and a color taken from one of its edges |
| `Aggregation.ExcludeRepository` | tests/fetchTopLanguages.test.js:100-118 | excluding a repository removes exactly its size and count from each language; a language it does not use keeps exactly the same entry |
| `Aggregation.MergePages` | tests/fetchTopLanguages.test.js:188-294 | aggregating several pages adds sizes and counts per language; a language has an entry when either part has one |
| `Ranking.Pow` | tests/fetchTopLanguages.test.js:140-158 | exponent 0 gives 1 (also for base 0), exponent 1 gives the base, and a positive base gives a positive power |
| `Ranking.Rank` | tests/fetchTopLanguages.test.js:120-158 | the result has the accumulator's keys; name, color and count carry over; size is the weighted score |
| `Ranking.RankWeights` | tests/fetchTopLanguages.test.js:120-158 | weights (1,0) score the total size, (0,1) the count, (0,0) give 1, and the count is the same under every weighting |
| `TopLanguages.ToFault` | tests/fetchTopLanguages.test.js:160-186 | the message surfaced is the upstream message when there is one, and otherwise the fallback; the error is UserNotFound exactly for a NOT_FOUND error with a message |
| `TopLanguages.Collect` | tests/fetchTopLanguages.test.js:304-346 | the pages taken are a prefix of the replies, at least one when any reply exists; every page but the last continues (switch on and `hasNextPage`); it stops early only at a page that does not continue; a failure is the mapped first error of a reply reached through continuing pages |
| `TopLanguages.FetchTopLanguages` | tests/fetchTopLanguages.test.js:160-186 | the call succeeds exactly when every reply it reaches carries data; otherwise it fails with that error and returns no partial result |
| `TopLanguages.ResultEntries` | tests/fetchTopLanguages.test.js:84-158 | a successful result holds exactly the languages of non-excluded repositories on the pages taken, each named by its key, with count = the number of its edges under every weighting and size = `bytes^sizeWeight * count^countWeight` |
| `TopLanguages.RankBySize` | tests/fetchTopLanguages.test.js:120-138 | with weights (1,0) a language's score is the sum of its edge sizes over the non-excluded repositories |
| `TopLanguages.RankByRepositories` | tests/fetchTopLanguages.test.js:140-158 | with weights (0,1) a language's score is the number of non-excluded repositories that use it |
| `TopLanguages.FirstReplyFails` | tests/fetchTopLanguages.test.js:160-186 | an error in the first reply fails the call with that error's mapping, whatever the other arguments |
| `TopLanguages.SwitchOffTakesFirstPage` | tests/fetchTopLanguages.test.js:304-346 | with the switch off the result is that of the first page alone, even when the page reports `hasNextPage` and further replies exist |
| `TopLanguages.SwitchOnMergesPages` | tests/fetchTopLanguages.test.js:188-294 | with the switch on, a first page that reports `hasNextPage` is merged with the pages after it: sizes and counts add per language, and a language seen on one side only keeps that side's size and count |
| `Scenarios.SizeWeighting` | tests/fetchTopLanguages.test.js:120-138 | the four-repository reply with weights (1,0) gives HTML and javascript each count 2 and size 200 |
| `Scenarios.CountWeighting` | tests/fetchTopLanguages.test.js:140-158 | the same reply with weights (0,1) gives HTML and javascript each count 2 and size 2 |
| `Scenarios.ExcludingTestRepo1` | tests/fetchTopLanguages.test.js:100-118 | excluding test-repo-1 gives HTML count 1 / size 100, and javascript stays at 2 / 200 |
| `Scenarios.TwoPagesMerged` | tests/fetchTopLanguages.test.js:188-294 | two pages with the switch on give HTML 2 / 300, javascript 1 / 150 and Python 1 / 250 |
| `Scenarios.FirstPageOnly` | tests/fetchTopLanguages.test.js:304-346 | with the switch off, a first page reporting `hasNextPage` alone gives HTML 1 / 100 |
| `Scenarios.UserNotFoundMessage` | tests/fetchTopLanguages.test.js:160-166 | a NOT_FOUND reply fails with UserNotFound carrying the upstream message unchanged |
| `Scenarios.OtherErrorMessage` | tests/fetchTopLanguages.test.js:168-176 | another error fails with its own message |
| `Scenarios.MissingMessage` | tests/fetchTopLanguages.test.js:178-186 | an error without a message fails with "Something went wrong while trying to retrieve the language data using the GraphQL API." |

## Left out

- The GraphQL request: query text, batch size, authentication, cursors, and the axios transport and its mocking. They are I/O; the model starts from the replies.
- Fractional weights: the 0.5/0.5 test (tests/fetchTopLanguages.test.js:80-98) expects the floating-point value 20.000000000000004. Weights here are natural numbers and scores are exact integers.
- Default arguments: Dafny has no optional parameters, so every argument is passed. The test cases that leave arguments out pass the defaults explicitly: `{}` for both exclusion sets, `DefaultSizeWeight` (1) and `DefaultCountWeight` (0) for the weights, and `false` for the multi-page switch (unset).
- Reading `process.env`: the multi-page switch and the four environment strings are parameters.
- async/await: the calls are sequential, and the model is a pure function over the replies in order.
- Running out of replies: when the last reply taken reports `hasNextPage` but no further reply is given, the model stops there. An empty sequence of replies gives the empty result; the source always sends a first request, so this case has no counterpart there.
- Errors after the first in an error list are carried but never consulted, as only the first one is mapped.
- TopLanguages.ToFault: an error of type NOT_FOUND with no message is mapped to the fallback message as a query failure. The test file does not exercise this case.
- The fallback message follows the test file ("... using the GraphQL API.").
- Aggregation.AggregateSpec: the count is the number of contributing edges. It is proved equal to the number of repositories only when no repository lists a language twice, because the test file never repeats an edge. Deduplicating repeated edges is not modelled.
- Aggregation.TallyEdgesSpec: the color is only stated to be the color of one of the language's edges. The model overwrites it with the last edge merged; the order when colors conflict is not pinned by the tests.
- TopLanguages.RankByRepositories: requires that no repository lists a language twice, for the same reason as the count above.
- Zero-size edges are counted like any other edge; the test file has none.
- Filtering repositories by owner login is not modelled. The test file never shows a repository owned by another login.
- Language-name exclusion is kept as an exact-match parameter, but the test file always passes an empty list.
- Ordering of the result: the result is a map, and sorting of languages by score is not modelled.
- Sizes and scores are unbounded naturals. JavaScript numbers are doubles, but the test values are far below 2^53.
- How `whitelist`, `gistWhitelist` and `excludeOwner` are used elsewhere in the system is not part of this model.
