# botleague-helpers in Dafny

A model of the coordination core of botleague-helpers, a Python library that
botleague services share, with proofs of what it does.

- **The key-value store with compare-and-swap** (`botleague_helpers/db.py`).
  - `Db.DB` is one class whose `Backend` is either the in-process `DBLocal` or `DBFirestore`.
  - `DBLocal` works over dicts registered by name in the process-wide `LOCAL_COLLECTIONS`, modelled as `Db.Registry`.
  - `DBFirestore` works over a server collection, modelled as a map from document name to document.
  - The pure functions `Read`, `Written`, `Swap` and `Deleted` on a `Snapshot` say what each operation does. The methods are proved against them.
  - The Box (de)serialization and the Firestore document codec (`_simplify_value` / `_expand_value`) are functions with their round-trip lemmas.
- **The fan-in / reduce coordinator** (`fan_in.py`, `reduce.py`).
  - A record is `waiting`, `reviewing` or `finished`. Callers race to become its reviewer through two compare-and-swaps per attempt, inside a bounded retry loop.
  - `FanIn.FanIn` and `Reduce.TryReduceAsync` keep that loop. Each is proved equal to one closed-form description of a call, `FanIn.Attempt`.
  - Lemmas about `Attempt` state the protocol's guarantees and quirks:
    - among waiting callers at most one reviews;
    - `finished` is never written;
    - `max_attempts` -1 gives up after one try;
    - `max_attempts` 0 lets a losing caller reduce anyway.
- **The two older key-value stores** (`botleague_helpers/key_value_store.py`, `gcp_helpers/key_value_store.py`), as classes.
- **The pure helpers**:
  - `find_replace`, as a recursive method proved against a specification of what is found and what the structure becomes;
  - `get_str_or_box` and `dbox`;
  - the Stackdriver severity mapping;
  - the Slack sink's duplicate throttle, as a class over its table of message digests;
  - `get_test_name_from_callstack`, `should_use_firestore` and the `github_token` precedence chain with its cache.

Python values are `Py.Value`. A list or a dict carries a `boxed` tag for BoxList and Box. Python `==` is `Py.Equal`, which compares after stripping the tags, because a Box equals the dict it holds. Raised exceptions are the `Err` side of `Py.Result`. Dict keys are strings in the model; Python dicts (the local stores, the dicts `find_replace` and Box accept) may also have keys of other types, which are not modelled.

The code and its documentation disagree in two places, and the model follows the code:
- The docstrings say `max_attempts=-1` waits until the current reviewer is done. The loop gives up after one sleep, because `attempts >= max_attempts` holds for every count when the limit is -1.
- The protocol is described in terms of a `finished` state. No code ever writes `finished`.

## Model

| member | source | states |
|---|---|---|
| Db.Serialize | botleague_helpers/db.py:71-77 | identity without `use_boxes` and on scalars; with it, the top-level value stored is not a Box or BoxList; the stored value compares equal to the given one |
| Db.Deserialize | botleague_helpers/db.py:79-85 | identity without `use_boxes` and on scalars; with it, every stored list or dict comes back boxed, equal to what was stored and with the same truthiness |
| Db.SimplifyPicksLoneField | botleague_helpers/db.py:107-113 | `_simplify_value` returns the field named after the key exactly when that is the document's only field, and the document unchanged otherwise |
| Db.Simplify | botleague_helpers/db.py:107-113 | `_simplify_value`: the lone field named after the document, else the document as a plain dict (its properties are in SimplifyPicksLoneField and the round trips) |
| Db.Expand | botleague_helpers/db.py:124-133 | `_expand_value`: a non-dict becomes `{key: value}`, a dict is its own document (its properties are in the round trips) |
| Db.SimplifyExpand | botleague_helpers/db.py:124-133 | simplify after expand gives the value back exactly when it is not a dict, or is a plain dict whose keys are not `{key}` |
| Db.ExpandSimplify | botleague_helpers/db.py:107-113 | expand after simplify gives the document back exactly when it is not `{key: <dict>}` |
| Db.Raw | botleague_helpers/db.py:96-99 | `_get` of either backend: the local value or None; on Firestore the simplified document, a missing one read as `{}` |
| Db.Written | botleague_helpers/db.py:30-32 | the store after `set`: the serialized value under the key locally, its expanded document on Firestore |
| Db.Swap | botleague_helpers/db.py:37-45 | the outcome of `compare_and_swap` and the store after it, including the local KeyError (its meaning is in SwapSemantics) |
| Db.Deleted | botleague_helpers/db.py:34-35 | the store after `delete`, or the local KeyError for an absent key |
| Db.Read | botleague_helpers/db.py:25-28 | an absent key reads as None locally and as an empty dict (a Box with `use_boxes`) on Firestore |
| Db.WriteIsolation | botleague_helpers/db.py:30-32 | a set leaves every other key reading as before, and leaves the written key present for compare-and-swap |
| Db.LocalReadAfterWrite | botleague_helpers/db.py:193-198 | locally, get after set returns deserialize(serialize(v)), which compares equal to v |
| Db.RemoteReadAfterWrite | botleague_helpers/db.py:96-117 | on Firestore, get after set compares equal to v exactly when v is not a dict whose only field is named after the key |
| Db.EmptyDictReadsLikeMissing | botleague_helpers/db.py:97-99 | on Firestore, an empty dict or Box once set reads exactly as a missing document does |
| Db.MissingKeyReads | botleague_helpers/db.py:96-99 | a missing document reads as a falsy empty dict, and a missing local key as None |
| Db.ReadWrittenStr | botleague_helpers/db.py:25-32 | a string set on either backend reads back as that string |
| Db.SwapSemantics | botleague_helpers/db.py:37-45 | compare-and-swap answers whether the current value equals the expected one; it then stores the new value, and otherwise changes nothing |
| Db.SwapStr | botleague_helpers/db.py:43-45 | against a string expected value, compare-and-swap succeeds exactly when get returns that string |
| Db.LocalAbsentKeyRaises | botleague_helpers/db.py:200-210 | the local backend raises KeyError, not False, for compare-and-swap and delete of an absent key, and changes nothing |
| Db.RemoteSwapMismatch | botleague_helpers/test_live_db.py:11-14 | after `set('yo', 1)`, `compare_and_swap('yo', 2, 2)` is False, the store is unchanged and `get('yo')` is 1 |
| Db.RemoteSwapCreatesMissing | botleague_helpers/db.py:148-152 | on a missing document, compare-and-swap expecting `{}` succeeds and creates the document as the expanded new value |
| Db.DB.Local | botleague_helpers/db.py:189-191 | reuses the dict registered under the name or registers a fresh empty one; an empty name means the default collection name |
| Db.DB.Firestore | botleague_helpers/db.py:89-94 | binds the server collection; an empty name means the default collection name |
| Db.DB.Get | botleague_helpers/db.py:25-28 | absent keys read as None / an empty dict per backend; the result equals the raw stored value |
| Db.DB.Set | botleague_helpers/db.py:30-32 | the store becomes `Written`: the serialized value stored locally, or expanded into a document on Firestore |
| Db.DB.Delete | botleague_helpers/db.py:34-35 | removes the key; the local backend raises KeyError for an absent key and then changes nothing |
| Db.DB.CompareAndSwap | botleague_helpers/db.py:135-159 | one atomic step whose outcome and new store are `Swap` of the old store, for both backends |
| Db.DB.DeleteAllTestData | botleague_helpers/db.py:161-168 | Firestore deletes every document and returns True only for a `test_` collection; locally, every collection is unregistered |
| Db.SharedByName | botleague_helpers/db.py:185-191 | two local stores opened with one name share their dict: one sees the other's writes |
| FanIn.Attempt | botleague_helpers/fan_in.py:42-65 | one call in closed form: RuntimeError on a falsy record; elected on `waiting`/`finished`, leaving `reviewing` and reducing when ready; otherwise False after the sleeps `max_attempts` allows, or a review on the unchanged record when it allows none (its properties are in the lemmas below) |
| FanIn.AttemptShape | botleague_helpers/fan_in.py:19-65 | a call checks readiness at most once and reduces only when it returns the reduction; it raises exactly on a falsy record, touching nothing; it leaves the store unchanged or the record `reviewing`; it sleeps only when it gives up |
| FanIn.CreateFanIn | botleague_helpers/fan_in.py:13-16 | the record is set to `waiting`, whatever it held |
| FanIn.BecomeReviewer | botleague_helpers/fan_in.py:34-37 | elected exactly when the record was `waiting` or `finished`, which then becomes `reviewing`; otherwise nothing changes |
| FanIn.FanIn | botleague_helpers/fan_in.py:40-65 | the result, final store and numbers of `ready_fn` / `reduce_fn` calls and sleeps are those `Attempt` gives |
| FanIn.ReviewingBlocksElection | botleague_helpers/fan_in.py:35-36 | on a `reviewing` record both compare-and-swaps answer False and change nothing |
| FanIn.ElectedLeavesReviewing | botleague_helpers/fan_in.py:58-63 | an elected caller checks readiness once, returns the reduction or False, never sleeps, and leaves `reviewing` |
| FanIn.StuckCallerGivesUp | botleague_helpers/fan_in.py:48-54 | on a `reviewing` record, `max_attempts` -1 gives up with False after one sleep and n >= 1 after n, without calling `ready_fn` or changing the store |
| FanIn.LoserReviewsWithoutWaiting | botleague_helpers/fan_in.py:48-61 | with `max_attempts` 0 or below -1, a caller that lost the election reduces anyway |
| FanIn.BlockedStaysBlocked | botleague_helpers/fan_in.py:42-54 | once the record is neither `waiting` nor `finished`, any number of callers that give up leave it alone and never review |
| FanIn.AtMostOneReview | botleague_helpers/fan_in.py:34-37 | among callers with `max_attempts` -1 or >= 1, at most one reviews and at most one reduces |
| FanIn.NeverFinishes | botleague_helpers/fan_in.py:8-10 | no sequence of calls makes the record read `finished` unless it already did |
| FanIn.ZeroAttemptsReduceTwice | botleague_helpers/fan_in.py:45-49 | two callers with `max_attempts` 0 on a `waiting` record both run `reduce_fn` |
| FanIn.NotReadyBlocksLaterCallers | botleague_helpers/fan_in.py:59-63 | after create, a not-ready reviewer returns False and leaves `reviewing`, and a later waiting caller returns False without reviewing |
| Reduce.CreateReduce | botleague_helpers/reduce.py:14-20 | the record is set to `waiting`, whatever it held |
| Reduce.TryReduceAsync | botleague_helpers/reduce.py:23-73 | the result, final store and call and sleep counts are those `Attempt` gives, with the reduce error message |
| Reduce.SameProtocol | botleague_helpers/reduce.py:64-73 | `fan_in` and `try_reduce_async` leave the same store, make the same calls and return the same value; they raise on the same records, with different messages |
| KvStore.FirestoreStore.constructor | botleague_helpers/key_value_store.py:18-21 | the store works on the given server collection |
| KvStore.FirestoreStore.Get | botleague_helpers/key_value_store.py:23-28 | a missing document raises TypeError; otherwise the document is simplified |
| KvStore.FirestoreStore.Set | botleague_helpers/key_value_store.py:30-36 | the document becomes the expanded value; get then returns the value exactly when it is not a dict, or is a plain dict whose keys are not `{key}` |
| KvStore.LocalStore.constructor | botleague_helpers/key_value_store.py:40-41 | a new store is empty |
| KvStore.LocalStore.Get | botleague_helpers/key_value_store.py:43-44 | a never-set key raises KeyError; otherwise its value |
| KvStore.LocalStore.Set | botleague_helpers/key_value_store.py:46-47 | the value reads back and other keys are unchanged |
| KvStore.LocalStoresAreSeparate | botleague_helpers/key_value_store.py:39-41 | a write to one local store is not seen by another |
| KvStore.FirestoreStringRoundTrip | botleague_helpers/test.py:18-19 | get after set of a string returns the string |
| GcpKvStore.FirestoreStore.constructor | gcp_helpers/key_value_store.py:15-18 | the store works on the given shared server collection; its keys live in the document named `simple_key_value_store` |
| GcpKvStore.FirestoreStore.Get | gcp_helpers/key_value_store.py:20-22 | no shared document raises TypeError, a missing field KeyError; otherwise the field |
| GcpKvStore.FirestoreStore.Set | gcp_helpers/key_value_store.py:24-25 | the whole shared document becomes `{key: value}`, other documents untouched: the value reads back unchanged, dicts included, and every other key raises KeyError |
| GcpKvStore.StoresShareOneDocument | gcp_helpers/key_value_store.py:15-25 | two Firestore stores over one collection see each other's writes, and a set through one erases what the other set |
| GcpKvStore.LocalStore.constructor | gcp_helpers/key_value_store.py:29-30 | a new store is empty |
| GcpKvStore.LocalStore.Get | gcp_helpers/key_value_store.py:32-33 | a never-set key raises KeyError; otherwise its value |
| GcpKvStore.LocalStore.Set | gcp_helpers/key_value_store.py:35-36 | the value reads back and other keys are unchanged |
| GcpKvStore.SecondSetForgetsFirst | gcp_helpers/key_value_store.py:20-36 | after `set(a, x); set(b, y)` with a != b, Firestore get(a) raises KeyError while the local store still returns x |
| Utils.FoundAt | botleague_helpers/utils.py:138-153 | what one field value contributes: itself when it equals the target, else the findings of a dict, else those of a list's dict items (FoundMatches, FoundItemsCovers and MatchReplaced state its properties) |
| Utils.Found | botleague_helpers/utils.py:134-155 | all findings of a dict, over all its fields in any order (FoundInSplit) |
| Utils.ReplacedAt | botleague_helpers/utils.py:138-153 | a field value after the search: a match becomes a truthy `replace`, a dict or a list's dict items are searched, anything else is untouched (FalsyReplaceKeeps and NothingFoundKeeps state its properties) |
| Utils.FindReplace | botleague_helpers/utils.py:128-155 | the values found are, as a multiset, `Found` of the dict; the dict becomes `Replaced` |
| Utils.SearchField | botleague_helpers/utils.py:136-153 | one field value: its findings are `FoundAt` and its new value is `ReplacedAt` |
| Utils.SearchItems | botleague_helpers/utils.py:148-153 | a list: the findings of its dict items, each dict item replaced in place |
| Utils.Replaced | botleague_helpers/utils.py:136-141 | a searched dict stays a dict with the same keys and the same boxing |
| Utils.FoundInSplit | botleague_helpers/utils.py:136 | the findings do not depend on the order in which the keys are visited |
| Utils.FalsyReplaceKeeps | botleague_helpers/utils.py:140-141 | with a falsy `replace` every value is left exactly as it was |
| Utils.FalsyReplaceKeepsDict | botleague_helpers/utils.py:134-155 | with a falsy `replace` the dict is left exactly as it was |
| Utils.FoundMatches | botleague_helpers/utils.py:138-139 | everything found equals the target |
| Utils.FoundInMatches | botleague_helpers/utils.py:143-146 | everything found in a nested dict equals the target |
| Utils.FoundItemsMatch | botleague_helpers/utils.py:149-153 | everything found in a list's dicts equals the target |
| Utils.FoundItemsCovers | botleague_helpers/utils.py:150-153 | every dict item's findings are among its list's findings |
| Utils.NothingFoundKeeps | botleague_helpers/utils.py:136-153 | a value where nothing is found is unchanged, whatever `replace` is |
| Utils.NothingFoundKeepsDict | botleague_helpers/utils.py:128-155 | a dict where nothing is found is unchanged, whatever `replace` is |
| Utils.ListWithoutDictsIsSkipped | botleague_helpers/utils.py:148-150 | a list with no dict items (such as a list of lists) is neither searched nor changed, unless it equals the target itself |
| Utils.NoDictItemsFindNothing | botleague_helpers/utils.py:149-150 | items that are not dicts are never searched: a list without dict items contributes no findings |
| Utils.MatchReplaced | botleague_helpers/utils.py:138-141 | a matching field is among the findings and, with a truthy `replace`, holds `replace` afterwards |
| Utils.GetStrOrBox | botleague_helpers/utils.py:33-38 | only non-empty `.json` content is parsed, into a Box equal to the parsed dict, and a parse error propagates; anything else is returned unchanged |
| Utils.Dbox | botleague_helpers/utils.py:108-113 | a Box equal to the keyword arguments when there are any, else to `obj`, else empty |
| Logs.Severity | botleague_helpers/logs.py:76-86 | SUCCESS, TRACE and EXCEPTION become NOTICE, DEBUG and ERROR; Stackdriver levels map to themselves; anything else becomes INFO; the result is always a Stackdriver level |
| Logs.SeverityIdempotent | botleague_helpers/logs.py:83-84 | mapping a severity again does not change it |
| Logs.Send | botleague_helpers/logs.py:111-125 | creates the entry if needed; a refused post raises, leaving the entry (created if new) as it was; a completed post shows the count before this record and stamps the time; other entries are untouched |
| Logs.SinkStep | botleague_helpers/logs.py:141-151 | one record: ignored below ERROR; a new text is sent; a known text raises TypeError if never stamped, is sent again after more than 300 s, and is otherwise only counted (its properties are in the lemmas below) |
| Logs.SlackSink.constructor | botleague_helpers/logs.py:105 | the digest table starts empty |
| Logs.SlackSink.Sink | botleague_helpers/logs.py:107-151 | the outcome and the new table are `SinkStep` of the old table |
| Logs.IgnoredLevels | botleague_helpers/logs.py:141 | records below ERROR post nothing and leave the table unchanged |
| Logs.FirstOccurrencePosted | botleague_helpers/logs.py:148-149 | a new text is posted with count 0 and then counted once, stamped now |
| Logs.RepeatPostedOnlyAfterFiveMinutes | botleague_helpers/logs.py:144-147 | a repeated text is posted exactly when more than 300 s have passed since its last post, and then restamped |
| Logs.UnstampedEntryPersists | botleague_helpers/logs.py:143-151 | an entry never stamped stays exactly as it is through any sequence of records |
| Logs.RefusedPostPoisonsText | botleague_helpers/logs.py:118-146 | after a refused first post, any record with that text, however many records come in between, raises TypeError and is not counted |
| Logs.CountsEveryRecord | botleague_helpers/logs.py:151 | while posts succeed, each alert-level record adds exactly one to its text's count and every entry stays stamped |
| Config.TestName | botleague_helpers/config.py:62-70 | the name the stack gives: that of the last `test_` frame in the list without the prefix, or '' (its properties are in the lemmas below) |
| Config.TestNameFromCallstack | botleague_helpers/config.py:62-70 | the loop returns `TestName` of the frames |
| Config.NoTestFrame | botleague_helpers/config.py:63 | with no `test_` frame the name is '' |
| Config.LastTestFrameWins | botleague_helpers/config.py:64-69 | otherwise it is the last `test_` frame's name in list order, without the prefix |
| Config.TestNameFromSomeFrame | botleague_helpers/config.py:67-68 | the name is '' or the rest of some `test_` frame's name |
| Config.ShouldUseFirestore | botleague_helpers/config.py:9-10 | true exactly when SHOULD_USE_FIRESTORE is unset or `true` |
| Config.FetchToken | botleague_helpers/config.py:37-42 | the secret is returned exactly when Firebase is or becomes initialised and the `token` field exists; otherwise RuntimeError, TypeError or KeyError |
| Config.Config.constructor | botleague_helpers/config.py:9-18 | the two flags come from the environment; no token is cached and Firebase is not initialised |
| Config.Config.GithubToken | botleague_helpers/config.py:20-46 | the precedence: a test on the stack, IS_TEST, the environment, Firestore off, an empty cache (fetch), the cache; a returned token is cached; Firebase is initialised only by a fetch |
| Config.EmptyTokenSticks | botleague_helpers/config.py:43-46 | a '' cached by a call from a test is returned by later calls outside a test, though the secret store holds a token |

## Left out

- Concurrency. Compare-and-swap is one atomic step on a map. Firestore transaction retries and interleavings of callers are not modelled. "At most one review" is stated for callers that run one after the other.
- `time.sleep` in the retry loops is a no-op that is counted.
- `ready_fn` and `reduce_fn` are modelled by the values they return (`ready`, `reduceResult`). Exceptions they raise, which leave the record `reviewing`, are not modelled. Neither are writes they make to the store.
- The value `DB.set` returns (the stored value locally, the client's write result on Firestore) is not modelled.
- `where` / `_where`, `delete_firestore_collection`'s batching, and the selectors `get_db`, `get_fan_in_db`, `get_reduce_db` and `get_key_value_store` are not modelled. Neither is the client set-up in the Firestore constructors.
- The values `delete` returns are not modelled: the current time from `DBLocal._delete`, the client's delete result from `DBFirestore._delete`.
- The Firestore client library's conversion of a Box on write is not modelled: a value is stored as it is handed to the client.
- Box and BoxList internals are reduced to a tag, including `default_box=True` in `dbox`. Python's `True == 1` and floats are not modelled.
- Db.DB.Set, Db.DB.Get, KvStore.LocalStore.Set, KvStore.LocalStore.Get, GcpKvStore.LocalStore.Set, GcpKvStore.LocalStore.Get: stored lists and dicts are values in the model. The Python in-process stores keep the object they are given (a plain dict or list is not copied by `_serialize`) and, without `use_boxes`, `get` hands back that same object, so a caller that later changes it changes the store. That sharing is not captured; the Firestore backends never share.
- `find_replace` is modelled on values, not on shared objects. Aliasing (one dict reachable twice) is not captured, and neither is the order of the findings: they are stated as a multiset.
- Utils.Dbox: `obj` is a dict or None. A truthy non-dict `obj` (which Box would reject) is not modelled.
- Utils.GetStrOrBox: `json.loads` is the parameter `parse` and yields a dict or an error. JSON text that is not an object is not modelled.
- In the Slack sink, time is in whole seconds. Both `time.time()` calls of one record see the same `now`. The md5 digest is the parameter `digest`. The message text, its GCS upload and the Slack client are left out: whether Slack accepts a post is the input `delivered`, and a refusal is `ClientError`.
- The Stackdriver and Slack clients, the sink registration conditions and the rest of logs.py are not modelled.
- In `github_token`, the call stack, the environment, the secrets collection and whether `firebase_admin.initialize_app()` succeeds are inputs. The printed messages are left out.
- botleague_helpers/ci.py, crypto.py, upload.py, docker_cleanup.py, constants.py and the I/O helpers of utils.py are not part of this model.
