# TeaWeb proxy configuration core in Dafny

This project models the core of TeaWeb's reverse-proxy configuration layer. It covers three parts:

* **The weighted random scheduler** (`RandomScheduling`). `Start` clamps every candidate's weight into `[1, 10000]`. It expands the candidates into a table with one entry per "slot":
  * when the weights add up to 1000 or less, a candidate gets as many slots as its weight;
  * otherwise it gets `round(weight * 10000 / sumWeight)` slots.

  `Next` then returns `table[rand % count]`. `Summary` returns the algorithm's description.
* **The server configuration object** (`ServerConfig`). This covers:
  * host-name matching with `*` / empty-segment wildcards (`MatchName`, `FirstName`);
  * random choice among the backends that are on and not down (`NextBackend`), and among FastCGI entries (`NextFastcgi`);
  * case-insensitive setting of response headers (`SetHeader`);
  * the list edits on headers, ignored headers, names, listen addresses, backends and locations;
  * the API file, group and version lists, including removing, renaming and moving one entry up or down.
* **The location update action** (`RunPost` in `locations/update.go`). It copies the submitted switches into the location. It also cleans the submitted index-file list: empty names and repeats are dropped, and the order of first occurrence is kept.

Layout:

| file | module | contents |
|---|---|---|
| `wrappers.dfy` | `Wrappers` | `Option`, standing in for Go's `nil` results |
| `lists.dfy` | `Lists` | `IndexOf` (TeaGo `lists.Index`), `RemoveAt` (`lists.Remove`), `Repeat`, `RemoveAll`, `ReplaceAll` |
| `strings.dfy` | `Strings` | Go's `strings.Split` on a one-character separator, with its inverse `Join`; ASCII `ToUpper` |
| `scheduling.dfy` | `Scheduling` | the specification functions of the slot table, and the class `RandomScheduling` |
| `server.dfy` | `Teaconfigs` | name matching, header and list specifications, and the class `ServerConfig` |
| `location_update.dfy` | `Locations` | index cleaning and `RunPost` |

The state that the Go code updates in place is modelled as Dafny classes:
* `RandomScheduling`: `table` (the Go field `array`) and `count`;
* `ServerConfig`: its slice fields;
* `LocationConfig`: the fields that `RunPost` writes.

Each loop of the Go code becomes a `while` loop in a method. That method is proved against a specification function (`SumWeights`, `Expand`, `MatchNames`, `Available`, `WithHeader`, `RemoveAll`, `ReplaceAll`, `CleanedIndex`) or, for `FirstName`, against an explicit postcondition, and the lemmas state what the source promises about those functions.

Inputs the code draws from outside are parameters:
* `rand.Int()` is the natural number `r` passed to `Next`, `NextBackend` and `NextFastcgi`;
* the location that `server.FindLocation` looks up is passed to `RunPost`, possibly `null`.

`math.Round(float64(weight*10000) / float64(sumWeight))` is modelled by the exact integer `(2*weight*10000 + sumWeight) / (2*sumWeight)`. This rounds halves up, as `math.Round` does for non-negative values. `SlotCountRounds` states that the result lies within one half of the real quotient.

Facts about the code that the proofs make precise:

* The comment at `scheduling_random.go:46` describes a 10000-slot universe ("1% yields 100 entries, at most 10000 servers"). Rounding each candidate's share separately can overshoot it. `Scheduling.TableCanExceedUniverse` shows six candidates of weight 200 giving 10002 entries, and `Scheduling.TableSizeScaled` bounds the total by `10000 ± |candidates|/2`.
* When the weights add up to more than 1000, a candidate whose rounded share is zero gets no slot (`Scheduling.SlotCountZero`). More than 20000 candidates of weight 1 give an empty table (`Scheduling.ManyUnitWeightsEmptyTable`). With at most 10000 candidates the table is never empty (`Scheduling.StartedTableServes`).
* `Start` appends to `array` and adds to `count` without resetting either (`scheduling_random.go:48-51`), and `RandomScheduling.Start` states exactly that.
* On a wildcard match `MatchName` reports the empty string as the matched name, and the host only on an exact match (`Teaconfigs.MatchNamesFirstWins`, `Teaconfigs.MatchNamesAnswer`).

## Model

| member | source | states |
|---|---|---|
| Scheduling.NormalizeWeight | teaconfigs/scheduling/scheduling_random.go:36-41 | the weight used is in [1, 10000]: 0 becomes 1, anything above 10000 becomes 10000, and other weights are kept |
| Scheduling.SumWeights | teaconfigs/scheduling/scheduling_random.go:20-29 | the clamped sum lies between the number of candidates and 10000 times that number |
| Scheduling.SlotCountSmallTotal | teaconfigs/scheduling/scheduling_random.go:43-44 | when the weights add up to at most 1000, a candidate's slot count is its weight |
| Scheduling.SlotCountRounds | teaconfigs/scheduling/scheduling_random.go:45-47 | otherwise the slot count is weight*10000/sumWeight rounded to nearest: within half a unit of the real quotient |
| Scheduling.SlotCountBounded | teaconfigs/scheduling/scheduling_random.go:45-47 | one candidate never gets more than 10000 slots |
| Scheduling.SlotCountZero | teaconfigs/scheduling/scheduling_random.go:45-47 | a candidate gets zero slots exactly when 2*weight*10000 < sumWeight |
| Scheduling.ExpandLength | teaconfigs/scheduling/scheduling_random.go:48-51 | the table built has as many entries as the sum of the slot counts |
| Scheduling.ExpandMembers | teaconfigs/scheduling/scheduling_random.go:35-51 | every table entry is one of the candidates |
| Scheduling.ExpandCounts | teaconfigs/scheduling/scheduling_random.go:35-51 | each candidate occurs in the table (its multiplicity among the candidates) times its slot count |
| Scheduling.ExpandMembership | teaconfigs/scheduling/scheduling_random.go:35-51 | a candidate can be drawn if and only if it is a candidate with a positive slot count |
| Scheduling.ExpandAppend | teaconfigs/scheduling/scheduling_random.go:35-51 | expanding a concatenation is concatenating the expansions, as the append loop does |
| Scheduling.ExpandBlock | teaconfigs/scheduling/scheduling_random.go:48-50 | the i-th candidate's copies form one contiguous block after those of the candidates before it |
| Scheduling.TotalSlotsSmall | teaconfigs/scheduling/scheduling_random.go:43-44 | with a small total the table size equals the clamped weight sum |
| Scheduling.TotalSlotsScaled | teaconfigs/scheduling/scheduling_random.go:45-51 | with a large total, 2*sum*size is within |candidates|*sum of 2*10000*weight sum |
| Scheduling.TableSizeScaled | teaconfigs/scheduling/scheduling_random.go:45-51 | with a large total the table size is 10000 give or take half the number of candidates, and is positive for at most 10000 candidates |
| Scheduling.TableCanExceedUniverse | teaconfigs/scheduling/scheduling_random.go:46 | six candidates of weight 200 produce 10002 table entries, more than the 10000-entry universe (1% = 100 entries) the code assumes |
| Scheduling.ManyUnitWeightsEmptyTable | teaconfigs/scheduling/scheduling_random.go:46 | when the weights are at most 1 and sumWeight exceeds 20000, every share rounds to zero and the table is empty |
| Scheduling.StartedTableServes | teaconfigs/scheduling/scheduling_random.go:31-51 | with between 1 and 10000 candidates, Start builds a non-empty table |
| Scheduling.RandomScheduling.constructor | teaconfigs/scheduling/scheduling_random.go:11-16 | a new scheduler has its candidates, an empty table and count 0 |
| Scheduling.RandomScheduling.WeightSum | teaconfigs/scheduling/scheduling_random.go:20-29 | the first loop computes the clamped weight sum, which is zero exactly when there are no candidates |
| Scheduling.RandomScheduling.SlotsOf | teaconfigs/scheduling/scheduling_random.go:36-47 | the per-candidate computation yields that candidate's slot count |
| Scheduling.RandomScheduling.AppendCopies | teaconfigs/scheduling/scheduling_random.go:48-50 | the inner loop appends exactly n copies of the candidate |
| Scheduling.RandomScheduling.Start | teaconfigs/scheduling/scheduling_random.go:19-55 | nothing changes without candidates; otherwise the expansion is appended to the table, count grows by its length, and count == len(table) with only candidates in the table |
| Scheduling.RandomScheduling.Next | teaconfigs/scheduling/scheduling_random.go:58-64 | nil exactly when count is 0; otherwise table[r % count], which is a candidate |
| Scheduling.RandomScheduling.Summary | teaconfigs/scheduling/scheduling_random.go:67-73 | the summary has code "random", name "Random随机算法" and its fixed description |
| Strings.Split | teaconfigs/server.go:380 | splitting yields at least one piece and no piece contains the separator |
| Strings.SplitJoin | teaconfigs/server.go:380 | joining the pieces back gives the name, and there is one more piece than separators |
| Strings.JoinSplit | teaconfigs/server.go:389 | splitting a join of separator-free pieces gives the pieces back |
| Strings.SplitAfterPiece | teaconfigs/server.go:389 | a leading separator-free piece splits off as the first piece |
| Teaconfigs.MatchNamesFirstWins | teaconfigs/server.go:376-405 | for a non-empty host, matched is true if and only if some configured name matches; the first matching name decides the result, which is the host for an exact match and "" for a wildcard match |
| Teaconfigs.MatchNamesAnswer | teaconfigs/server.go:376-405 | the empty host never matches, and the reported name is the host (which is then configured) or "" |
| Teaconfigs.SegmentCountMismatch | teaconfigs/server.go:389-392 | a name with a different number of segments matches only if it equals the host |
| Teaconfigs.MatchNamesExact | teaconfigs/server.go:382-388 | empty names are skipped and an exact name returns the host with matched true |
| Teaconfigs.MatchNamesWildcard | teaconfigs/server.go:393-402 | "*.b.c" matches "x.b.c" and reports "" |
| Teaconfigs.MatchNamesSegmentCount | teaconfigs/server.go:389-392 | any four-segment name never matches any three-segment host |
| Teaconfigs.ServerConfig.MatchName | teaconfigs/server.go:376-405 | the nested loops with continue and break compute MatchNames over the configured names |
| Teaconfigs.ServerConfig.FirstName | teaconfigs/server.go:408-416 | returns the first name without "*", or "" when every name has one |
| Teaconfigs.AvailableMembers | teaconfigs/server.go:239-244 | a backend is available if and only if it is configured, on and not down |
| Teaconfigs.ServerConfig.NextBackend | teaconfigs/server.go:234-254 | nil exactly when no backend is available; otherwise availableBackends[r % len], a configured backend that is on and not down |
| Teaconfigs.ServerConfig.NextFastcgi | teaconfigs/server.go:420-428 | nil exactly when there is no FastCGI entry; otherwise fastcgi[r % len] |
| Teaconfigs.SetHeaderEffect | teaconfigs/server.go:257-274 | every header whose name equals the given one ignoring case gets the value; others are untouched; the header is appended only when none matched |
| Teaconfigs.SetHeaderIdempotent | teaconfigs/server.go:257-274 | setting the same header twice is the same as setting it once |
| Teaconfigs.ServerConfig.SetHeader | teaconfigs/server.go:257-274 | the loop leaves the headers equal to WithHeader of the old headers |
| Lists.RemoveAtShifts | teaconfigs/server.go:279 | removing at an index drops exactly that element and shifts the rest down one place |
| Teaconfigs.ServerConfig.DeleteHeaderAtIndex | teaconfigs/server.go:277-281 | an index in range removes that header; an index out of range changes nothing |
| Teaconfigs.ServerConfig.HeaderAtIndex | teaconfigs/server.go:284-289 | returns the header at the index exactly when the index is in range, else nil |
| Teaconfigs.ServerConfig.AddHeader | teaconfigs/server.go:306-308 | the header is appended |
| Teaconfigs.ServerConfig.AddIgnoreHeader | teaconfigs/server.go:311-313 | the name is appended to the ignored headers |
| Teaconfigs.ServerConfig.DeleteIgnoreHeaderAtIndex | teaconfigs/server.go:316-320 | an index in range removes that ignored header; out of range changes nothing |
| Teaconfigs.ServerConfig.UpdateIgnoreHeaderAtIndex | teaconfigs/server.go:323-327 | an index in range replaces that ignored header; out of range changes nothing |
| Teaconfigs.ServerConfig.LocationAtIndex | teaconfigs/server.go:330-340 | returns the location at the index exactly when 0 <= index < len, else nil |
| Teaconfigs.ServerConfig.AddName | teaconfigs/server.go:218-220 | all given names are appended in order |
| Teaconfigs.ServerConfig.AddListen | teaconfigs/server.go:223-225 | the address is appended |
| Teaconfigs.ServerConfig.AddBackend | teaconfigs/server.go:228-230 | the backend is appended |
| Teaconfigs.ServerConfig.AddLocation | teaconfigs/server.go:431-433 | the location is appended |
| Teaconfigs.AddFileKeepsDistinct | teaconfigs/server.go:453-457 | adding a file name keeps the API file list free of duplicates and adds exactly that name |
| Teaconfigs.ServerConfig.AddAPI | teaconfigs/server.go:436-458 | nil changes nothing; otherwise the file name is appended unless already listed |
| Lists.IndexOf | teaconfigs/server.go:566 | the index of the first occurrence, or -1 exactly when absent |
| Lists.RemoveAllContents | teaconfigs/server.go:522-527 | removing a name drops every occurrence of it and keeps every other element with its multiplicity |
| Lists.ReplaceAllPointwise | teaconfigs/server.go:543-550 | renaming replaces every occurrence of the old name in place and keeps all other entries |
| Teaconfigs.ServerConfig.AddAPIGroup | teaconfigs/server.go:516-518 | the group is appended |
| Teaconfigs.ServerConfig.RemoveAPIGroup | teaconfigs/server.go:521-539 | the groups become the old groups without any occurrence of the name |
| Teaconfigs.ServerConfig.ChangeAPIGroup | teaconfigs/server.go:542-562 | every occurrence of the old group name is replaced by the new one |
| Teaconfigs.MoveUpEffect | teaconfigs/server.go:565-571 | moving up is a permutation; it changes the list exactly when the name occurs after the first position, and then swaps it with its predecessor only |
| Teaconfigs.MoveDownEffect | teaconfigs/server.go:574-580 | moving down is a permutation; it changes nothing when the name is absent, otherwise it swaps the name's first occurrence with its successor only |
| Teaconfigs.MoveDownThenUp | teaconfigs/server.go:565-580 | on a list without duplicates, moving a name down and then up restores the list |
| Teaconfigs.ServerConfig.MoveUpAPIGroup | teaconfigs/server.go:565-571 | the groups become MoveUp of the old groups |
| Teaconfigs.ServerConfig.MoveDownAPIGroup | teaconfigs/server.go:574-580 | the groups become MoveDown of the old groups |
| Teaconfigs.ServerConfig.AddAPIVersion | teaconfigs/server.go:583-585 | the version is appended |
| Teaconfigs.ServerConfig.RemoveAPIVersion | teaconfigs/server.go:588-606 | the versions become the old versions without any occurrence of the name |
| Teaconfigs.ServerConfig.ChangeAPIVersion | teaconfigs/server.go:609-629 | every occurrence of the old version name is replaced by the new one |
| Teaconfigs.ServerConfig.MoveUpAPIVersion | teaconfigs/server.go:632-638 | the versions become MoveUp of the old versions |
| Teaconfigs.ServerConfig.MoveDownAPIVersion | teaconfigs/server.go:641-647 | the versions become MoveDown of the old versions |
| Locations.CleanedIndexContents | teaweb/actions/default/proxy/locations/update.go:80-85 | the cleaned index has no empty name and no repeat, and holds exactly the non-empty submitted names |
| Locations.CleanedIndexOrder | teaweb/actions/default/proxy/locations/update.go:80-85 | the cleaned names keep the order of their first submission |
| Locations.CleanedIndexOfClean | teaweb/actions/default/proxy/locations/update.go:80-85 | an already clean list is left as it is |
| Locations.CleanedIndexIdempotent | teaweb/actions/default/proxy/locations/update.go:80-86 | cleaning twice is cleaning once |
| Locations.CleanIndex | teaweb/actions/default/proxy/locations/update.go:80-85 | the loop computes the cleaned index of the submitted list |
| Locations.RunPost | teaweb/actions/default/proxy/locations/update.go:71-86 | fails exactly when the location is missing; otherwise sets on, root and charset from the form and index to the cleaned list |

## Left out

- Reading and writing configuration files (YAML), `Save`, `NotifyChange` and the `Success` / `Fail` responses: this is file and HTTP I/O. `RunPost` models a failed lookup as `false`. A failed load of the server file is not modelled.
- `NewServerConfig`, `LoadServerConfigsFromDir`, `NewServerConfigFromFile`, `Validate`, `FindLocation` and the test-plan and API file queries of `server.go` (`FindAllAPIs`, `FindAPI`, `FindActiveAPI`, `DeleteAPI`, `FindTestPlans`, `DeleteTestPlan`): they read files or depend on code outside this model. The random server id is also left out.
- `AddTestPlan`: a plain append of a file name to the test-plan list, outside the modelled core. The test-plan list is not a field of the model.
- Teaconfigs.ServerConfig.RemoveAPIGroup: the loop that loads each API file and removes the group from it is not modelled (file I/O). The same holds for `ChangeAPIGroup`, `RemoveAPIVersion` and `ChangeAPIVersion`.
- Teaconfigs.ServerConfig.AddAPI: the registration in `apiPathMap` / `apiPatternMap` is not modelled, because it depends on `API.Validate`, which is not part of this model. Only the file list is.
- Teaconfigs.ServerConfig.MoveDownAPIGroup: requires that the name, when present, is not at the last position (an absent name and an empty list are accepted). When the name is last, the Go code indexes past the end of the slice and panics. The same holds for `MoveDownAPIVersion`.
- Teaconfigs.MoveDownThenUp: requires a list without duplicates. With a duplicate right after the name, moving down leaves the list unchanged, and the following move up then changes it.
- `FormatHeaders`: it calls an arbitrary formatter callback on each value and is not modelled.
- Headers, backends, FastCGI entries and APIs are values (`HeaderConfig`, `ServerBackendConfig`, `FastcgiConfig`, `Api`) rather than the shared pointers of the Go code (`[]*HeaderConfig`, `[]*ServerBackendConfig`, `[]*FastcgiConfig`, `*API`). Aliasing between an element in a list and a copy held elsewhere is not captured. Fields that the modelled operations do not read are not modelled either, such as the header fields `Always`, `Status` and `Id`.
- Teaconfigs.ServerConfig.LocationAtIndex: the call to `location.Validate()` before returning is not modelled, because `LocationConfig` validation is not part of this model.
- `location.SetPattern` in `RunPost`: pattern compilation is not part of this model. `pattern`, `patternType`, `isReverse` and `isCaseInsensitive` are carried in `UpdateParams` but are not applied.
- `rand.Seed(time.Now().UnixNano())` and the global random source: the draw is the parameter `r`.
- Scheduling.RandomScheduling.SlotsOf: uses exact integer rounding in place of `float64` division and `math.Round`. For these magnitudes (at most 10^8 divided by a positive integer) the two agree except for float rounding artefacts, which are not modelled.
- Strings.ToUpper: upper-cases ASCII letters only, whereas Go's `strings.ToUpper` handles all of Unicode.
- `uint` overflow of `sumWeight` and `count`: it would need more than 10^15 candidates. Integers here are unbounded.
- The other actions under `teaweb/actions/default/proxy` (for example `backend/online.go`) are not part of this model. Neither is the GET handler of `locations/update.go` (lines 16-51), nor the loading of the server file at lines 66-69.
- Scheduling.RandomScheduling: the candidate list is fixed when the scheduler is built (`const candidates`). In Go, `Candidates` lives in the embedded `Scheduling` struct and is filled by code outside this file. If it changed between two calls of `Start`, entries from the earlier call would stay in `array`, because `Start` never resets it. `Valid()`'s "every table entry is a candidate" and `Next`'s "the result is a candidate" rely on the list staying fixed.
- Concurrent access to a scheduler or server configuration is not modelled.
