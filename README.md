# AnyCoin market dashboard and guide helpers, modelled in Dafny

This project models the decision logic of the AnyCoin crypto dashboard:

- The market-data pipeline of `app.js`:
  - the `STATE` object, and the coin table: sorted in place by `sortCoinsData` (stable, nulls last), filtered by the search box and re-sorted by header clicks;
  - the ranking `rankCoinsByMetric` behind the Top Gainers, Top Losers and Highest Volume lists;
  - the price alerts kept in `localStorage` under `ac_alerts`: created, checked and removed;
  - the snapshot cache under `ac_snapshot`;
  - the refresh `loadMarketData`, with its fall-back to the snapshot, and the start-up load;
  - `escapeHtml` and `getCookie`.
- The guide helpers of `shared/functions.js`:
  - the frontmatter split and line parser of `parseMarkdown`;
  - the layout thresholds of `analyzeContent`;
  - the header guard of `generateTOC`;
  - `getDifficultyColor`;
  - `getGuideImageData`.

## Layout

| file | module | what it holds |
|---|---|---|
| `wrappers.dfy` | `Wrappers` | `Option`, JavaScript's `null` |
| `seqs.dfy` | `Seqs` | subsequence and small generic sequence facts |
| `strings.dfy` | `Text` | `trim`, `toLowerCase`, `split`/`join`, `indexOf`, `includes`, string `<` |
| `dataset.dfy` | `Dataset` | coins, the sort comparator, the in-place stable sort, the filter, the ranking |
| `alerts.dfy` | `Alerts` | alert records, the trigger test, delete by id |
| `storage.dfy` | `Storage` | `localStorage` as a map from key to the value `JSON.parse` gives back |
| `pipeline.dfy` | `Pipeline` | `STATE` as an `AppState` value and as the class `App` |
| `escape.dfy` | `Escape` | `escapeHtml` |
| `cookies.dfy` | `Cookies` | `getCookie` |
| `frontmatter.dfy` | `Frontmatter` | `parseMarkdown` |
| `guides.dfy` | `Guides` | `analyzeContent`, `generateTOC`, `getDifficultyColor`, `getGuideImageData` |

### The three layers of the pipeline

Every state-changing operation of `app.js` is modelled at three levels.

1. **A value-level function**, such as `RemoveById` or `Fired`, for what the operation computes.
2. **A transition function** from one `AppState` to the next, such as `RemoveStep`, `CheckStep` or `MarketStep`. The lemmas are stated about these.
3. **A method of the class `App`**, whose fields are the fields of `STATE` and the browser storage. Each method updates those fields the way the JavaScript does: `CheckPriceAlerts` loops and calls `RemoveAlert` once per fired alert, re-reading storage each time. The method's contract says that it ends in the state the transition function gives.

`SortCoinsData` sorts an `array` in place with an insertion sort. The sort's loop invariant ties the sorted prefix to `InsertionSorted`, and the lemmas about `InsertionSorted` give permutation, order, stability and uniqueness.

### Where the model follows the code rather than the described behaviour

- **No fetch gate.** Nothing stops a refresh while another is in flight. `refreshAllData` (app.js:1203-1209) can be started again at any time, so the model has no "fetching" state.
- **Alert prices are not validated.** The form only checks that the price text is non-empty, and `createPriceAlert` stores `parseFloat` of it as given (`SubmitDoesNotValidatePrice`).
- **Alerts are checked only on success and at start-up.** `loadMarketData` checks them after a successful fetch, and the start-up block checks them after a snapshot loads. Its failure branch never checks them (`FailedRefreshFallsBack`).
- **A throwing check falls back to the snapshot.** `checkPriceAlerts` sits inside the same `try` as the fetch. An alert list that makes it throw therefore sends a successful refresh to the snapshot branch (`ThrowingCheckFallsBack`). When storage took the save, the snapshot just written is loaded back and the table claims to show saved data. When storage refused it, an older snapshot replaces the fetched coins; with no snapshot at all, the error row is shown while `STATE.coins` keeps the fetched coins, sorted.
- **The first click on the rank column keeps the direction.** The initial sort key is `"market_cap_rank"`, not the header's `"rank"`. The first click on that column therefore resets the direction to "asc" instead of flipping it (`FirstRankClickKeepsOrder`).
- **The frontmatter split is the regular expression's own match.** This includes its backtracking:
  - The greedy `\s*` after the opening dashes can swallow blank lines, and then gives them back when no closing delimiter follows (`BacktrackExample`).
  - The next attempt can find the closing delimiter at the very newline where the first attempt ended, leaving an all-blank header.
- **Frontmatter keys.** A key of blanks is stored under `""` (`BlankKeyIsStored`). A `__proto__` key is dropped, because assigning a string to it on a plain object has no effect.

## Model

| member | source | states |
|---|---|---|
| Dataset.KeyFromString | app.js:463-501 | every key other than the seven named ones, including the initial "market_cap_rank" and the header's "rank", sorts by market-cap rank, and no named key does |
| Dataset.Compare | app.js:458-509 | the comparator of `sortCoinsData`: by name with `<`, or by a numeric field with nulls last, negated by "desc"; characterised by `CompareAntisymmetric`, `CompareTransitive`, `NullAfterValue` and `DirectionFlipsComparison` |
| Dataset.CompareAntisymmetric | app.js:463-509 | the sort comparator is antisymmetric and returns -1, 0 or 1 |
| Dataset.CompareTransitive | app.js:463-509 | the comparator's "not after" relation is transitive, names included, so the sort is well defined |
| Dataset.NullAfterValue | app.js:504-506 | on a numeric key, a coin with a null value compares after one with a value, in both directions |
| Dataset.DirectionFlipsComparison | app.js:458-508 | "desc" negates the comparison of two names or two non-null values |
| Dataset.InsertionSorted | app.js:456-510 | the stable sort that `STATE.coins.sort` performs with that comparator; characterised by `SortPermutes`, `SortOrders`, `SortIsStable`, `OrderedStableIsUnique`, `SortIdempotent` and `NullsLast` |
| Dataset.SortPermutes | app.js:456-510 | the stable sort returns a permutation of the coins |
| Dataset.SortOrders | app.js:456-510 | the sorted coins are ordered by the comparator |
| Dataset.SortIsStable | app.js:460 | coins equal on the key keep their input order |
| Dataset.OrderedStableIsUnique | app.js:460 | any ordered and stable arrangement is the same sequence, so the stable insertion sort stands for `Array.prototype.sort` |
| Dataset.SortIdempotent | app.js:456-510 | sorting again by the same order changes nothing |
| Dataset.NullsLast | app.js:504-508 | in a sorted table no coin with a null value on the key comes before one with a value |
| Dataset.InsertLast | app.js:460 | one insertion step moves `a[i]` left past exactly the elements it strictly precedes and stops after one it does not |
| Dataset.SortInPlace | app.js:460 | the array ends as `InsertionSorted` of its old contents |
| Dataset.FilterCoins | app.js:516-521 | the search filter of the coin table; characterised by `FilterEmptyQueryShowsAll`, `FilterIsExact` and `FilterIgnoresQueryCase` |
| Dataset.FilterEmptyQueryShowsAll | app.js:516-519 | an empty or all-blank query shows every coin, in order |
| Dataset.FilterIsExact | app.js:516-521 | the filter returns a subsequence holding each coin whose lower-cased name or symbol contains the query as often as it occurs, and no other coin |
| Dataset.FilterIgnoresQueryCase | app.js:516 | an upper-cased query gives the same result as the query |
| Dataset.MetricGetterOf | app.js:682-688 | the lookup `metricGetters[metric]` on a plain object: its two getters, nothing, or an inherited `Object.prototype` member; characterised by `MetricGetterCases` |
| Dataset.MetricGetterCases | app.js:682-688 | the lookup finds a getter for exactly "p24" and "vol", and a member that throws when called for exactly the inherited names other than `toString` and `constructor` |
| Dataset.Ranked | app.js:679-700 | `rankCoinsByMetric` as a value, `None` where it throws; characterised by `RankedSpec` |
| Dataset.RankedSpec | app.js:679-700 | the ranking throws exactly for an inherited name other than `toString` and `constructor` with two coins or more; otherwise it is a permutation of the coins, sorted by the field for "p24" and "vol", and the coins unchanged for every other metric |
| Dataset.InheritedMetricThrows | app.js:687-698 | ranking two coins by "valueOf" throws, and ranking them by "toString" leaves them as they are |
| Dataset.RankComparatorAgrees | app.js:690-699 | the ranking comparator has the sign of the sort comparator for the same key and direction, nulls last |
| Dataset.RankCoinsByMetric | app.js:679-700 | the sorted copy, or the throw, is exactly `Ranked`; for "p24" and "vol" it does not throw and is a permutation sorted by that field in the given direction |
| Dataset.Top | app.js:628-638 | `slice(0, n)` is a prefix of at most `n` coins, exactly `n` when there are enough |
| Alerts.NewAlert | app.js:921-929 | the record `createPriceAlert` builds, with the symbol lower-cased; characterised by `NewAlertMatchesAnyCase` and `Pipeline.CreateAppendsOne` |
| Alerts.FirstWithSymbol | app.js:941 | the index is that of the first coin whose lower-cased symbol is the alert's |
| Alerts.RemoveById | app.js:949-953 | the `filter` of `removeAlert`; characterised by `RemoveByIdIsExact`, `RemoveAbsentId`, `RemoveByIdIdempotent` and `RemoveOneMore` |
| Alerts.RemoveByIdIsExact | app.js:949-953 | delete keeps the other alerts in order and drops every alert with the id |
| Alerts.RemoveAbsentId | app.js:951 | deleting an id no alert carries changes nothing |
| Alerts.RemoveByIdIdempotent | app.js:949-953 | deleting twice is deleting once |
| Alerts.RemoveOneMore | app.js:936-953 | deleting ids one call at a time is deleting the set of them |
| Alerts.Fired | app.js:936-947 | the alerts the `forEach` of `checkPriceAlerts` notifies about, in list order; characterised by `FiredMembers`, `FiredAreRemoved`, `SecondPassFiresNothing` and `NullPriceCountsAsZero` |
| Alerts.FiredMembers | app.js:940-942 | an alert fires exactly when it is listed and the first coin with its symbol has reached its price |
| Alerts.FiredAreRemoved | app.js:936-947 | no fired alert is left, and an alert none of whose id-sharers fired stays |
| Alerts.SecondPassFiresNothing | app.js:936-947 | a second check over the same coins fires nothing |
| Alerts.NullPriceCountsAsZero | app.js:942 | a null price compares as 0, so it triggers exactly the alerts with a target of at most 0 |
| Alerts.NewAlertMatchesAnyCase | app.js:921-941 | an alert is found by a listing of its coin whatever the case of either symbol |
| Alerts.AlertAtTargetFires | app.js:936-947 | an alert on BTC at 65000 fires when BTC is listed at 65000, and the untriggered ETH alert stays |
| Storage.AlertsForUpdate | app.js:921-953 | `JSON.parse(getItem("ac_alerts") \|\| "[]")` before `push` or `filter`: the list, or a throw for anything but an array; characterised by `AlertsRoundTrip`, `WriteAlertsTwice` and `KeysIndependent` |
| Storage.AlertsForCheck | app.js:936-938 | that parse before `.length` and `.forEach`: a throw, an early return, or the list to check; characterised by `AlertsRoundTrip` and `CheckReadAgrees` |
| Storage.AlertsRoundTrip | app.js:921-938 | what `setItem` wrote is what both readers of `ac_alerts` get back |
| Storage.WriteAlertsTwice | app.js:921-953 | a write of `ac_alerts` replaces the previous one |
| Storage.CheckReadAgrees | app.js:936-951 | whenever the check reaches its loop, `removeAlert` reads the same list |
| Storage.ReadSnapshot | app.js:343-349 | the snapshot `loadDataSnapshot` accepts, or none; characterised by `SnapshotAccepted`, `SnapshotRoundTrip` and `KeysIndependent` |
| Storage.WriteSnapshot | app.js:328-337 | the record `saveDataSnapshot` stores; characterised by `SnapshotRoundTrip` and `KeysIndependent` |
| Storage.SnapshotRoundTrip | app.js:328-347 | a saved snapshot is read back with every field it was saved with |
| Storage.SnapshotAccepted | app.js:345-349 | a snapshot is accepted exactly when the key holds text parsing to an object whose `coins` is an array |
| Storage.KeysIndependent | app.js:328-341 | writing the snapshot key leaves what is read from `ac_alerts` (app.js:931), and writing `ac_alerts` leaves the snapshot |
| Pipeline.SortStep | app.js:456-510 | `sortCoinsData` as a transition of `STATE`; characterised by `SortStepSorts` and `App.SortCoinsData` |
| Pipeline.SortStepSorts | app.js:456-510 | sorting the table gives a permutation, ordered by the current key and stable, and changes no other field |
| Pipeline.ClickStep | app.js:583-604 | the header click as a transition; characterised by `ClickTransition`, `ClickTwiceReverses`, `FirstRankClickKeepsOrder` and `App.ClickHeader` |
| Pipeline.ClickTransition | app.js:597-604 | the clicked key becomes the sort key; the same key flips the direction, another key starts "asc"; the table is then ordered by it |
| Pipeline.ClickTwiceReverses | app.js:597-604 | two clicks on the same column leave the opposite direction to one |
| Pipeline.FirstRankClickKeepsOrder | app.js:597-604 | from the initial sort of app.js:110, the first click on the rank column leaves "asc" and the order unchanged |
| Pipeline.CreateStep | app.js:921-934 | `createPriceAlert` as a transition with a throw flag; characterised by `CreateAppendsOne` and `App.CreatePriceAlert` |
| Pipeline.CreateAppendsOne | app.js:921-932 | create appends exactly one alert with the symbol lower-cased and keeps the earlier ones; if the stored list cannot be read, it throws and changes nothing |
| Pipeline.SubmitStep | app.js:1285-1296 | the alert form: create when all three fields are non-empty, otherwise nothing; characterised by `SubmitDoesNotValidatePrice` and `App.SubmitAlertForm` |
| Pipeline.SubmitDoesNotValidatePrice | app.js:1285-1296 | with all three fields non-empty and a readable list, the form appends the alert with whatever price was parsed, zero and negative ones included |
| Pipeline.RemoveStep | app.js:949-953 | `removeAlert` as a transition with a throw flag; characterised by `RemoveStepIdempotent` and `App.RemoveAlert` |
| Pipeline.RemoveStepIdempotent | app.js:949-953 | remove stores the list without the id, throws exactly when the list cannot be read, and a second remove changes nothing |
| Pipeline.CheckStep | app.js:936-947 | `checkPriceAlerts` as a transition: the fired alerts, the new state and the throw flag; characterised by `CheckStepSpec`, `RemovalStep` and `App.CheckPriceAlerts` |
| Pipeline.RemovalStep | app.js:936-953 | each `removeAlert` call of the check reads what the previous call wrote and drops one more id |
| Pipeline.CheckStepSpec | app.js:936-947 | the check notifies about exactly the fired alerts, stores exactly the others, changes nothing else, and a second check notifies about nothing |
| Pipeline.SaveStep | app.js:328-341 | `saveDataSnapshot` as a transition, a refused `setItem` changing nothing; characterised by `SaveLoadRoundTrip`, `SaveTouchesOnlySnapshot` and `App.SaveDataSnapshot` |
| Pipeline.LoadStep | app.js:343-361 | `loadDataSnapshot` as a transition with its result; characterised by `SaveLoadRoundTrip`, `LoadFailsOpen` and `App.LoadDataSnapshot` |
| Pipeline.SaveLoadRoundTrip | app.js:328-361 | save then load succeeds and restores coins, trending and currency, with the save time as the update time |
| Pipeline.LoadFailsOpen | app.js:343-361 | load fails exactly when there is no acceptable snapshot, and then no field changes |
| Pipeline.SaveTouchesOnlySnapshot | app.js:328-341 | a refused save changes nothing, and no save touches the alert list |
| Pipeline.MarketStep | app.js:1151-1188 | `loadMarketData` as a transition: the new state, what the table shows, the alerts notified about; characterised by `RefreshCommits`, `FailedRefreshFallsBack`, `ThrowingCheckFallsBack` and `App.LoadMarketData` |
| Pipeline.Fallback | app.js:1167-1187 | the `catch` of `loadMarketData`; characterised by `FailedRefreshFallsBack` and `ThrowingCheckFallsBack` |
| Pipeline.RefreshCommits | app.js:1150-1165 | a successful fetch shows the fetched coins sorted, stamps the time, saves them, and checks the alerts against them |
| Pipeline.FailedRefreshFallsBack | app.js:1166-1187 | a failed fetch checks no alert and writes no storage; with no snapshot nothing changes, with one its coins are shown sorted |
| Pipeline.ThrowingCheckFallsBack | app.js:1151-1187 | a check that throws after a successful fetch ends as the `catch` applied to the saved and sorted state, notifying nothing: with the save taken, the fetched coins sorted as saved data; with it refused, the older snapshot sorted as saved data, or the error row over the fetched coins sorted when there is none |
| Pipeline.StartupStep | app.js:1325-1334 | the snapshot block of the start-up handler as a transition; characterised by `StartupChecksOnlySavedData` and `App.Startup` |
| Pipeline.StartupChecksOnlySavedData | app.js:1325-1334 | start-up without a snapshot changes nothing; with one it checks the alerts against the saved coins, sorted |
| Pipeline.Leaders | app.js:628-638 | a ranking of the current coins cut to `n`, or the throw; characterised by `LeadersAreBest` and `App.RankedLeaders` |
| Pipeline.LeadersAreBest | app.js:628-700 | for "p24" and "vol" a top-`n` list does not throw, has at most `n` of the coins, and no coin left out ranks strictly ahead of one shown |
| Pipeline.App.constructor | app.js:101-111 | `STATE` starts with no coins, no update time and the sort `market_cap_rank` ascending |
| Pipeline.App.SortCoinsData | app.js:456-510 | the in-place sort ends in the state `SortStep` gives |
| Pipeline.App.ClickHeader | app.js:597-604 | the click handler ends in the state `ClickStep` gives |
| Pipeline.App.CreatePriceAlert | app.js:921-932 | ends in the state and throw flag `CreateStep` gives |
| Pipeline.App.SubmitAlertForm | app.js:1285-1296 | ends in the state `SubmitStep` gives |
| Pipeline.App.RemoveAlert | app.js:949-953 | ends in the state and throw flag `RemoveStep` gives |
| Pipeline.App.CheckPriceAlerts | app.js:936-947 | the loop of `removeAlert` calls ends in the state, notifications and throw flag `CheckStep` gives |
| Pipeline.App.SaveDataSnapshot | app.js:328-341 | ends in the state `SaveStep` gives |
| Pipeline.App.LoadDataSnapshot | app.js:343-361 | ends in the state and result `LoadStep` gives |
| Pipeline.App.LoadMarketData | app.js:1150-1188 | ends in the state, table contents and notifications `MarketStep` gives |
| Pipeline.App.Startup | app.js:1325-1334 | ends in the state `StartupStep` gives |
| Pipeline.App.RankedLeaders | app.js:628-638 | returns the top `n` of the ranking, or the throw, as `Leaders` gives, without changing the state |
| Escape.EscapeHtml | app.js:391-398 | the five `replaceAll` passes in order; characterised by `EscapeHtmlIsEach`, `EscapeHtmlOfChar`, `EscapedIsInert`, `UnescapeEscape` and `EscapeHtmlConcat` |
| Escape.EscapeHtmlIsEach | app.js:391-398 | the five passes, `&` first, act as one left-to-right pass over the characters |
| Escape.EscapeHtmlOfChar | app.js:392-397 | each of the five characters becomes its entity and every other character stays |
| Escape.EscapedIsInert | app.js:391-398 | the escaped text holds no `<`, `>`, `"` or `'` |
| Escape.UnescapeEscape | app.js:391-398 | escaping loses nothing: decoding the entities gives the text back |
| Escape.EscapeHtmlConcat | app.js:391-398 | escaping distributes over concatenation |
| Cookies.FirstStarting | app.js:88-90 | the index is that of the first trimmed entry starting with `name=` |
| Cookies.GetCookie | app.js:85-96 | split on `;`, trim, find the first entry starting with `name=`; characterised by `GetCookieSpec`, `GetCookieValueClean`, `FirstEntryWins` and `EmptyJarHasNothing` |
| Cookies.GetCookieSpec | app.js:85-96 | a value is found exactly when some trimmed entry starts with `name=`, and it is the rest of the first such entry |
| Cookies.GetCookieValueClean | app.js:88-91 | the value holds no `;` and does not end in whitespace |
| Cookies.FirstEntryWins | app.js:85-96 | the first entry of the cookie string is read back |
| Cookies.EmptyJarHasNothing | app.js:85-96 | an empty cookie string has no cookie of any name |
| Text.TrimIsCore | app.js:89 | `trim()` keeps a slice that neither starts nor ends with whitespace and drops only whitespace |
| Text.ContainsIffOccurs | app.js:519-520 | `includes` finds the query exactly when it occurs somewhere |
| Text.JoinSplit | shared/functions.js:67-69 | splitting loses nothing: joining the parts gives the text back |
| Text.SplitJoin | shared/functions.js:67-69 | joining parts without the separator and splitting again gives the parts back |
| Text.SplitRest | shared/functions.js:67-69 | the first part is the text before the first separator, and the rest joins to what follows it |
| Text.LexTrichotomy | app.js:467 | two names are equal or exactly one is less |
| Text.LexTransitive | app.js:467 | the name comparison is transitive |
| Text.TrimOfUpper | app.js:516 | trimming and case conversion commute |
| Frontmatter.StripQuotes | shared/functions.js:69 | the `replace(/^["']\|["']$/g, "")` on the value; characterised by `StripQuotesSpec` |
| Frontmatter.ParseLine | shared/functions.js:67-69 | one header line split at its first `:` into a trimmed key and a trimmed, unquoted value; characterised by `ParseLineSpec`, `ColonsStayInValue`, `BlankKeyIsStored` and `EmptyKeyIsSkipped` |
| Frontmatter.Record | shared/functions.js:69 | the assignment `frontmatter[key] = value` on a plain object; characterised by `FrontmatterKeys`, `LastLineWins` and `BlankKeyIsStored` |
| Frontmatter.StripQuotesSpec | shared/functions.js:69 | at most one quote character comes off each end, and nothing else |
| Frontmatter.ParseLineSpec | shared/functions.js:67-69 | a line is recorded exactly when it has a `:` after a non-empty prefix; the key is that prefix trimmed, the value the rest trimmed and unquoted |
| Frontmatter.ColonsStayInValue | shared/functions.js:69 | later colons stay in the value |
| Frontmatter.BlankKeyIsStored | shared/functions.js:68-69 | a key of blanks is stored as "" |
| Frontmatter.EmptyKeyIsSkipped | shared/functions.js:68 | a line starting with `:` is skipped |
| Frontmatter.CollectFrontmatter | shared/functions.js:66-71 | the `forEach` builds the dictionary `FrontmatterOf` gives |
| Frontmatter.FrontmatterKeys | shared/functions.js:66-71 | a key is present exactly when some line records it and it is not `__proto__` |
| Frontmatter.LastLineWins | shared/functions.js:69 | a later line with the same key overwrites an earlier one |
| Frontmatter.LastNewline | shared/functions.js:59 | the index is that of the last newline |
| Frontmatter.FindClosing | shared/functions.js:59 | the lazy group ends at the first position where the closing delimiter matches |
| Frontmatter.SplitFrontmatter | shared/functions.js:59-60 | the match of the frontmatter regular expression, backtracking included; characterised by `FindClosing`, `SplitInRange`, `NoBlockKeepsText` and `BacktrackExample` |
| Frontmatter.SplitInRange | shared/functions.js:59-60 | a found block lies inside the text, header before content |
| Frontmatter.MarkdownOf | shared/functions.js:58-80 | the dictionary and content `parseMarkdown` returns; characterised by `ParseMarkdown`, `NoBlockKeepsText`, `ContentIsSuffix` and `BlockExample` |
| Frontmatter.ParseMarkdown | shared/functions.js:58-80 | returns the dictionary and content `MarkdownOf` gives |
| Frontmatter.NoBlockKeepsText | shared/functions.js:59-79 | text without the block, including any text not starting with `---`, comes back whole with no metadata |
| Frontmatter.ContentIsSuffix | shared/functions.js:59-76 | the content is always a suffix of the text |
| Frontmatter.BlockExample | shared/functions.js:58-80 | "---\nt: X\n---\nB" gives `{t: "X"}` and content "B" |
| Frontmatter.BacktrackExample | shared/functions.js:59 | in "---\n\n---\nB" the opening gives back a newline, so the header is empty and the content is "B" |
| Guides.LinePositions | shared/functions.js:108-109 | the positions are exactly those where a line begins with the pattern, in increasing order |
| Guides.Utf16Length | shared/functions.js:110 | `length` counts UTF-16 code units, between one and two per character |
| Guides.AnalyzeContent | shared/functions.js:107-120 | the counts and layout flags of `analyzeContent`; characterised by `AnalyzeCounts`, `AnalysisThresholds` and `LayoutFlagsNest` |
| Guides.AnalyzeCounts | shared/functions.js:108-109 | the counts are the numbers of lines beginning "- " and "## " |
| Guides.AnalysisThresholds | shared/functions.js:116-118 | each flag holds exactly above its threshold |
| Guides.LayoutFlagsNest | shared/functions.js:116-118 | either multi-column flag implies `needsOptimization` |
| Guides.HeaderPositions | shared/functions.js:128 | the positions are exactly those of `## ` lines with a title |
| Guides.GenerateToc | shared/functions.js:127-154 | the entry titles of the table of contents, or none; characterised by `TocGuard`, `TitlesAreLines`, `TocWithinSections` and `UntitledSections` |
| Guides.TitlesAreLines | shared/functions.js:131-132 | a title is non-empty and within its line |
| Guides.TocGuard | shared/functions.js:128-133 | no table exactly when there are fewer than three titled headers; otherwise one entry per header, in order |
| Guides.TocWithinSections | shared/functions.js:107-129 | the table never has more entries than `analyzeContent` counts sections |
| Guides.UntitledSections | shared/functions.js:107-129 | three untitled "## " lines count as three sections but give no table |
| Guides.DifficultyColor | shared/functions.js:176-183 | the badge color of a level; characterised by `DifficultyColorSpec` and `DifficultyIgnoresCase` |
| Guides.DifficultyColorSpec | shared/functions.js:176-183 | each color comes from exactly one level name, in any case, and everything else, a missing level included, is "primary" |
| Guides.DifficultyIgnoresCase | shared/functions.js:177 | the case of the level does not matter |
| Guides.GuideImageData | shared/functions.js:190-278 | the image of a guide, with an own-property lookup; characterised by `GuideImageDefault` and `LookupAgrees` |
| Guides.ImageLookupAsWritten | shared/functions.js:274 | `imageMap[guideId] \|\| default` as written, inherited members included; characterised by `ConstructorIsNotAnImage` and `LookupAgrees` |
| Guides.GuideImageDefault | shared/functions.js:274-277 | an id without an entry gets the default image, which is no guide's own image |
| Guides.LookupAgrees | shared/functions.js:274 | the code as written and the corrected lookup agree on every id that is not an inherited member name |
| Guides.ConstructorIsNotAnImage | shared/functions.js:274-312 | the id "constructor" reads the inherited `Object` function instead of the default image |

## Left out

- The DOM and all markup are not modelled: table, trending, news, carousel and market-analysis rendering, modals, toasts, `Notification`, the theme, the table-of-contents HTML, `markdownToHtml`, `makeContentCollapsible` and the page template of `createOptimizedGuidePage`. A notification is modelled only as the list of fired alerts.
- The network is not modelled. `fetchJson`, its timeout, and the trending, news and region requests are absent; a markets request is an input, either coins or a failure.
- Timers and concurrency are not modelled: `startAutoRefresh`, the interval, and overlapping `refreshAllData` calls. Each refresh is one atomic step. The trending and news halves of `refreshAllData` are left out.
- Clock readings are parameters: `Date.now()` for an alert's id and creation time, the fetch time and the save time.
- Storage is abstracted:
  - `JSON.stringify` and `JSON.parse` are abstracted. A key holds the value the next `JSON.parse` returns, so a round trip through JSON is taken as lossless.
  - A `setItem` failure is modelled only for the snapshot, as the `accepted` input.
  - Alert lists whose entries are not alert records are not modelled.
  - A snapshot field holds what `saveDataSnapshot` wrote, or is missing. A tampered snapshot whose `currency`, `trending` or `timestamp` holds a value of another type is not modelled: `loadDataSnapshot` would keep any truthy value there (app.js:351-354).
- Number handling is simplified:
  - Prices and percentages are exact reals, so floating-point rounding is not modelled.
  - There is no `NaN`: `parseFloat` of the form's text is the `target` input.
  - `formatCurrency`, `formatPercentage` and locale formatting are not modelled.
- Letter case and names:
  - `toLowerCase`/`toUpperCase` are modelled on ASCII letters only.
  - Names are compared by character code, as JavaScript's `<` does on the Basic Multilingual Plane.
  - A coin record always carries `name` and `symbol` as strings, and `current_price` as a number or `null`, never absent. A `null` name or symbol, which makes the filter (app.js:519-520) and `checkPriceAlerts` (app.js:941) throw, and an absent price, which never fires an alert (app.js:942), are not modelled. A missing percentage or volume is taken to be `null`, as the comparators treat it.
- `getCookie`:
  - `decodeURIComponent` is left out; the model returns the raw value.
  - The `catch` around it is not modelled.
- The `STATE` initialisation:
  - The currency read from the cookie or local storage is an input of `Initial`.
  - The theme, `firstVisit` and the timer fields are not modelled.
- The start-up handler: only its snapshot block (app.js:1325-1334) is modelled. Region detection, theme and event wiring are not. When `checkPriceAlerts` throws in that block (`threw` of `StartupStep`), the exception leaves the `DOMContentLoaded` handler, so the refresh, the timer and the event listeners of app.js:1336-1357 never start.
- Pipeline.App.SortCoinsData: `Array.prototype.sort` is modelled by one stable insertion sort. `Dataset.OrderedStableIsUnique` shows that every stable sort under this comparator gives the same result.
- Guides.GuideImageData: the image table is `imageMap` (shared/functions.js:191-272), copied as data. `GUIDE_IMAGES` at the top of the file is not part of this model.
- The guide-id derivation of `createOptimizedGuidePage` (shared/functions.js:290-312) is not modelled. It is only the route by which a guide title reaches `getGuideImageData` in the finding below.
- Dataset.RankCoinsByMetric: an inherited `Object.prototype` member used as a metric is classified by what calling it on one coin does. `toString` and `constructor` return a value, every comparison is `NaN`, and the sort reads that as "equal", so the order stays. Every other inherited member throws a `TypeError`. The thrown error itself is not modelled, only that the call throws.
- Escape.EscapeHtml: the argument is a string. The `String(str || "")` coercion of other values is not modelled: `null`, `undefined`, `0` and the other falsy values give "", and a number such as 5 gives its decimal text, as for a missing `coin.id` (app.js:659) or `article.title` (app.js:910).
- Text.Split: it is modelled for a one-character separator only, which is every use in the core.
- `ads/ad-system.js`, `blog/blog-scripts.js` and `guides/guides.js` are not part of this model.

## Findings

| source | as written | input that shows it | evidently intended | confidence | as-written member | corrected member |
|---|---|---|---|---|---|---|
| shared/functions.js:274 | `imageMap[guideId] \|\| default` reads members inherited from `Object.prototype`. For an id such as `constructor` it returns the `Object` function, which is truthy, instead of the default image, and the page gets an undefined image source. | A guide titled "Constructor". The derivation at shared/functions.js:290-312 maps it to the id "constructor". | Unknown ids get the default image: an own-property lookup, such as `Object.hasOwn(imageMap, guideId)`. | not executed | Guides.ImageLookupAsWritten, Guides.ConstructorIsNotAnImage | Guides.GuideImageData, Guides.GuideImageDefault |
