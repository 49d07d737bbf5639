# Post CRUD screen: cache patches, retry policy and form state

This project models the logic under a small React screen for a blog-post
resource. The screen has two components.

- **PostList** fetches the post collection and renders one card per post. Each
  card has Edit and Delete buttons. The list fetch is retried with capped
  exponential backoff. A successful delete patches the shared `['posts']`
  cache entry instead of re-fetching.
- **PostForm** creates a new post or updates the selected one. The mode depends
  only on whether a post is selected. A successful create or update patches the
  same cache entry, shows a success alert and clears the fields. Two one-second
  timers then hide the alert and ask the parent to drop the selection.

The Dafny modules follow that structure:

- `Posts` (`posts.dfy`): the `Post` entity and the predicates used to talk
  about a collection. These are `Ids`, `HasId`, `IdUnique`, `CountId` and
  `IsSubsequence`.
- `Cache` (`post_cache.dfy`): the three patches as pure functions on
  `seq<Post>`, and lemmas about them. It also holds the `PostCache` class,
  whose `posts` field is replaced by one patch per method, as
  `setQueryData(['posts'], updater)` does.
- `PostList` (`post_list.dfy`): `RetryDelay` and the retry limit, a whole
  list fetch as a run of attempts, render-state selection, and the delete
  success handler.
- `PostForm` (`post_form.dfy`): the form fields, submit assembly and mode
  selection. The `Form` class has `OnPostChanged`, the three field editors,
  `Submit`, `OnSuccess`, `OnError` and `OnTimerFired`.

Modelling choices:

- **User id field.** The form's `userId` field holds a number when copied from
  a selected post (PostForm.jsx line 45). It holds the input's text when typed
  (line 100). `UserIdField = Copied(int) | Typed(string)` keeps both, and the
  submitted `Draft` carries the field as it is. No conversion is assumed.
- **Timers.** Each success schedules two 1000 ms timers: hide the alert, then
  reset the selection. Both delays are equal, so they fire in the order they
  were scheduled. `timers` is a FIFO queue of pending events. `OnTimerFired`
  handles the oldest one.
- **Parent's reset.** The reset timer calls the parent's `resetSelectedPost`.
  That sets the selection to none. If a post was selected, the prop changes
  and the selection effect clears the fields again. If none was selected,
  nothing re-runs.
- **Which patch `OnSuccess` uses.** The success handler uses the selection
  current when it runs (line 58), as the handler closure does.
- **Shadowed `post`.** The updater's inner `post` (line 61) shadows the prop.
  `UpdateById` therefore compares each cached entry's id with the id of the
  returned post.
- **Retry counting.** The retry rule is the data-fetching library's: after
  failure number `k` (counted from 0), retry iff `k < retry`, after waiting
  `retryDelay(k)`. With `retry: 3`, a fetch makes at most four attempts, and
  the waits are 1, 2 and 4 seconds. The error banner appears only after the
  fourth failed attempt.
- **Required inputs.** The title, user-id and body inputs are `required`
  (PostForm.jsx lines 96, 100, 104), and the form does not turn validation
  off. The browser blocks the submit event while one of them is empty, so
  `handleSubmit` does not run. A `number` input reports text that is not a
  number as the empty string, so `Typed("")` stands for both. `Submit`
  returns no request in that case and leaves the mutation status alone.
- **Delete count.** A delete shrinks the collection by the number of entries
  that carry the id. That is exactly one only when the collection is id-unique
  and holds the id (`RemoveExactlyOne`). An unknown id leaves the collection
  unchanged.
- **Duplicate ids after a create.** A create appends whatever the server
  returns. The collection stays id-unique exactly when the returned id was not
  cached yet (`AppendUniqueIff`). Nothing in the code checks this.

## Model

| member | source | states |
|---|---|---|
| `Cache.UpdateById` | src/components/PostForm.jsx:60-62 | Length is kept. Each position whose entry has the returned post's id becomes that post. Every other position is unchanged. |
| `Cache.UpdatePreservesIds` | src/components/PostForm.jsx:61 | The sequence of ids is the same before and after an update. |
| `Cache.UpdatePreservesUnique` | src/components/PostForm.jsx:61 | An id-unique collection stays id-unique after an update. |
| `Cache.UpdateUnknownId` | src/components/PostForm.jsx:61 | If no entry has the returned id, the collection is returned unchanged. |
| `Cache.UpdateInstalls` | src/components/PostForm.jsx:61 | If the returned id is cached, the returned post is present and is the only entry value with that id. |
| `Cache.UpdateReplacesOne` | src/components/PostForm.jsx:61 | In an id-unique collection, an update replaces exactly the one matching position. |
| `Cache.AppendPost` | src/components/PostForm.jsx:65 | The result is the old collection followed by the returned post: one longer, with that post last. |
| `Cache.AppendCountId` | src/components/PostForm.jsx:65 | A create raises the count of the returned id by one and leaves every other id's count alone. |
| `Cache.AppendHasId` | src/components/PostForm.jsx:65 | After a create, an entry carries the server-assigned id. |
| `Cache.AppendUniqueIff` | src/components/PostForm.jsx:65 | The appended collection is id-unique iff the old one was and did not already hold the returned id. |
| `Cache.RemoveById` | src/components/PostList.jsx:40-42 | Length drops by the number of entries with the id. No entry with the id remains. A post is kept iff it was present and has another id. |
| `Cache.RemoveIsSubsequence` | src/components/PostList.jsx:41 | The kept entries are a subsequence of the input, so relative order survives. |
| `Cache.RemoveUnknownId` | src/components/PostList.jsx:41 | Deleting an id that is not cached leaves the collection unchanged. |
| `Cache.RemoveIdempotent` | src/components/PostList.jsx:41 | Deleting the same id twice equals deleting it once. |
| `Cache.RemoveExactlyOne` | src/components/PostList.jsx:41 | In an id-unique collection that holds the id, a delete removes exactly one entry. |
| `Cache.RemovePreservesUnique` | src/components/PostList.jsx:41 | A delete keeps an id-unique collection id-unique. |
| `Cache.PostCache.constructor` | src/components/PostList.jsx:25-27 | The `['posts']` entry holds the collection the list fetch stored. |
| `Cache.PostCache.SetUpdated` | src/components/PostForm.jsx:60-62 | The entry becomes the update patch of the old one. Id-uniqueness is preserved. An unknown id changes nothing. |
| `Cache.PostCache.SetCreated` | src/components/PostForm.jsx:65 | The entry becomes the old one plus the returned post. The returned id is present. It stays id-unique iff that id was new. |
| `Cache.PostCache.SetDeleted` | src/components/PostList.jsx:40-42 | The entry becomes the filtered old one: the id is gone, the result is a subsequence, and uniqueness is kept. Exactly one entry goes when the id was present once. An absent id changes nothing. |
| `PostList.RetryDelay` | src/components/PostList.jsx:31 | The delay is min(1000 * 2^i, 30000): positive, at most 30000, and equal to one of the two. |
| `PostList.RetryDelayFirstValues` | src/components/PostList.jsx:31 | The first five delays are 1000, 2000, 4000, 8000 and 16000 ms. |
| `PostList.RetryDelayMonotone` | src/components/PostList.jsx:31 | The delay is non-decreasing in the attempt index. |
| `PostList.RetryDelayCapped` | src/components/PostList.jsx:31 | For every index of 5 or more, the delay is exactly 30000 ms. |
| `PostList.RunFrom` | src/components/PostList.jsx:30-31 | From failure k on, at most 4 attempts in all. The waits are RetryDelay(k), RetryDelay(k+1), and so on. The run succeeds iff its last attempt does. Every earlier attempt failed. A failed run used all retries. |
| `PostList.Fetch` | src/components/PostList.jsx:30-31 | A fetch makes 1 to 4 attempts with waits RetryDelay(0..). It succeeds iff some attempt made succeeds. It stops at the first success. A failed fetch made all four attempts. |
| `PostList.FetchAllFail` | src/components/PostList.jsx:30-31 | If every attempt fails, exactly four attempts are made, with waits of 1000, 2000 and 4000 ms, and the fetch fails. |
| `PostList.CardsFor` | src/components/PostList.jsx:51-60 | One card per post, in collection order. |
| `PostList.Render` | src/components/PostList.jsx:46-51 | The spinner shows iff loading. The error banner shows iff not loading and there is an error. Otherwise cards show. In success the cards are exactly one card per post, in order, and with no data there are none. |
| `PostList.RenderSuccessCards` | src/components/PostList.jsx:51-57 | In success, card i is keyed by, edits and deletes the post at position i. |
| `PostList.RenderedKeysUnique` | src/components/PostList.jsx:52 | An id-unique collection gives every card a distinct key. |
| `PostList.OnDeleteSuccess` | src/components/PostList.jsx:36-44 | After a successful delete, the cache holds the filtered collection, no entry has the id, and an id-unique collection holding it shrinks by one. |
| `PostForm.FieldsFor` | src/components/PostForm.jsx:42-52 | With a selection, the fields are its title, body and userId. Without one, all three are empty. |
| `PostForm.ModeFor` | src/components/PostForm.jsx:55 | Update is chosen iff a post is selected. |
| `PostForm.Assemble` | src/components/PostForm.jsx:76-85 | The submitted id is the selected post's id, or absent if none. The other fields are the current form values. The mode is update iff a post is selected, otherwise create. |
| `PostForm.SubmitFor` | src/components/PostForm.jsx:76-104 | Nothing is sent iff the title, the body or the user-id input is empty. Otherwise the request carries the mode for the selection, the selected id or none, and the current fields. |
| `PostForm.SubmitUneditedSelection` | src/components/PostForm.jsx:78-83 | Submitting a freshly selected post unedited sends it back as an update with its own id and fields. If its title or body is empty, nothing is sent. |
| `PostForm.SubmitClearedForm` | src/components/PostForm.jsx:92-104 | A cleared form submits nothing, whatever is selected. |
| `PostForm.Form.constructor` | src/components/PostForm.jsx:35-52 | On mount, the fields are those the selection effect gives for the initial post. The alert is off and no timer is pending. |
| `PostForm.Form.OnPostChanged` | src/components/PostForm.jsx:42-52 | The selection changes, and the fields are populated from it or cleared. Nothing else changes. |
| `PostForm.Form.EditTitle` | src/components/PostForm.jsx:96 | Typing in the title changes only the title. |
| `PostForm.Form.EditUserId` | src/components/PostForm.jsx:100 | Typing in the user-id input stores the typed text and changes nothing else. |
| `PostForm.Form.EditBody` | src/components/PostForm.jsx:104 | Typing in the body changes only the body. |
| `PostForm.Form.Submit` | src/components/PostForm.jsx:76-104 | A request is sent iff every required field is filled. It is the assembly of the current fields under the current selection: update iff selected, with the selected id. Only then does the mutation go in flight. Fields, selection and timers are unchanged. |
| `PostForm.Form.OnSuccess` | src/components/PostForm.jsx:56-73 | The alert is set, and the cache gets the update patch if a post is selected, else the append patch. Length is kept or grows by 1. The fields are cleared, and the hide-alert and reset-selection timers are queued. |
| `PostForm.Form.OnError` | src/components/PostForm.jsx:54-74 | A failure changes only the mutation status. Fields, selection, alert, timers and cache are unchanged. |
| `PostForm.Form.OnTimerFired` | src/components/PostForm.jsx:68-72 | The oldest timer fires. Hiding the alert clears the flag. Resetting the selection drops the post and clears the fields if one was selected. The cache is unchanged. |

## Left out

- The `fetch` calls, HTTP status checks and JSON (de)serialisation of
  `createPost`, `updatePost`, `fetchPosts` and `deletePost` are not modelled.
  They are network I/O. Their outcomes are parameters: the post passed to
  `OnSuccess`, the message passed to `OnError`, and the per-attempt outcome
  function passed to `Fetch`.
- The server's reply to a create or update is taken as a `Post` with an
  integer `userId`. The payload can carry the typed text, and an echoing
  server returns it as a string. That string in the cache is not modelled.
- Staleness window, refetch on reconnect or focus, and cache retention are not
  modelled. They are the data-fetching library's scheduling. The retention
  option is spelled `cahceTime` (PostList.jsx line 33), so the library most
  likely ignores it and its default applies.
- The scheduling of retries in real time is not modelled. Only the delays and
  the attempt bound are.
- Real-time `setTimeout` delays are not modelled. They are the ordered timer
  events of `OnTimerFired`.
- JSX rendering, Bootstrap components, button labels, the disabled state while
  loading and alert texts are UI. Of the browser's form validation only the
  `required` check is modelled (`Complete`). `Render` keeps only which of spinner, error
  banner and cards appears, and what each card shows and targets.
- `console.log` calls are output only.
- Overlapping in-flight mutations and last-writer-wins races are asynchronous
  concurrency, outside a sequential model.
- The delete mutation has no error handler. A failed delete leaves the cache as
  it was, so no member is needed for it.
- The updaters run on an existing collection. An absent cache entry would make
  them throw, and that case is not modelled: `PostCache` always holds a
  sequence.
