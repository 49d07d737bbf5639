/**
  The post list screen: the retry policy of the list fetch, the choice between
  spinner, error banner and cards, and the cache patch run when a delete succeeds.
*/
module PostList {
  import opened Posts
  import Cache

  // ---- retry policy of the list fetch --------------------------------------

  /** Retries allowed after the first failed fetch. */
  const MAX_RETRIES: nat := 3
  /** Delay before the first retry, in milliseconds. */
  const BASE_DELAY_MS: nat := 1000
  /** Upper bound on any retry delay, in milliseconds. */
  const MAX_DELAY_MS: nat := 30000

  function Pow2(n: nat): (r: nat)
    ensures r >= 1
  {
    if n == 0 then 1 else 2 * Pow2(n - 1)
  }

  lemma {:induction false} Pow2Monotone(m: nat, n: nat)
    requires m <= n
    ensures Pow2(m) <= Pow2(n)
    decreases n
  {
    if m < n {
      Pow2Monotone(m, n - 1);
    }
  }

  lemma {:induction false} Pow2AtLeast32(n: nat)
    requires n >= 5
    ensures Pow2(n) >= 32
  {
    if n > 5 {
      Pow2AtLeast32(n - 1);
    } else {
      assert Pow2(1) == 2 && Pow2(2) == 4 && Pow2(3) == 8 && Pow2(4) == 16;
    }
  }

  /**
    The wait before the retry that follows failure number `attemptIndex`
    (counted from 0): the base delay doubled per earlier failure, capped.
  */
  function RetryDelay(attemptIndex: nat): (d: nat)
    ensures 0 < d <= MAX_DELAY_MS
    ensures d <= BASE_DELAY_MS * Pow2(attemptIndex)
    ensures d == MAX_DELAY_MS || d == BASE_DELAY_MS * Pow2(attemptIndex)
  {
    var exponential := BASE_DELAY_MS * Pow2(attemptIndex);
    if exponential < MAX_DELAY_MS then exponential else MAX_DELAY_MS
  }

  /** The first five delays double from one second; none exceeds the cap yet. */
  lemma RetryDelayFirstValues()
    ensures RetryDelay(0) == 1000 && RetryDelay(1) == 2000 && RetryDelay(2) == 4000
    ensures RetryDelay(3) == 8000 && RetryDelay(4) == 16000
  {
    assert Pow2(1) == 2 && Pow2(2) == 4 && Pow2(3) == 8 && Pow2(4) == 16;
  }

  /** Later failures never wait less. */
  lemma RetryDelayMonotone(i: nat, j: nat)
    requires i <= j
    ensures RetryDelay(i) <= RetryDelay(j)
  {
    Pow2Monotone(i, j);
  }

  /** From the sixth failure on, the delay sits at the cap. */
  lemma RetryDelayCapped(i: nat)
    requires i >= 5
    ensures RetryDelay(i) == MAX_DELAY_MS
  {
    Pow2AtLeast32(i);
  }

  /** The retry rule: after failure number `failureCount`, try again only while retries remain. */
  predicate ShouldRetry(failureCount: nat) {
    failureCount < MAX_RETRIES
  }

  /** How one fetch of the list ended: attempts made, the waits between them, the outcome. */
  datatype FetchRun = FetchRun(attempts: nat, delays: seq<nat>, succeeded: bool)

  /**
    The attempts from attempt number `failureCount` on, every earlier one having
    failed; `outcome(k)` says whether attempt number k (from 0) gets a success status.
  */
  function RunFrom(outcome: nat -> bool, failureCount: nat): (run: FetchRun)
    requires failureCount <= MAX_RETRIES
    ensures failureCount < run.attempts <= MAX_RETRIES + 1
    ensures |run.delays| == run.attempts - failureCount - 1
    ensures forall k :: 0 <= k < |run.delays| ==> run.delays[k] == RetryDelay(failureCount + k)
    ensures run.succeeded <==> outcome(run.attempts - 1)
    ensures forall k :: failureCount <= k < run.attempts - 1 ==> !outcome(k)
    ensures !run.succeeded ==> run.attempts == MAX_RETRIES + 1
    decreases MAX_RETRIES - failureCount
  {
    if outcome(failureCount) then FetchRun(failureCount + 1, [], true)
    else if !ShouldRetry(failureCount) then FetchRun(failureCount + 1, [], false)
    else
      var rest := RunFrom(outcome, failureCount + 1);
      FetchRun(rest.attempts, [RetryDelay(failureCount)] + rest.delays, rest.succeeded)
  }

  /** A whole list fetch: the first attempt and at most three retries. */
  function Fetch(outcome: nat -> bool): (run: FetchRun)
    ensures 1 <= run.attempts <= MAX_RETRIES + 1
    ensures |run.delays| == run.attempts - 1
    ensures forall k :: 0 <= k < |run.delays| ==> run.delays[k] == RetryDelay(k)
    ensures run.succeeded <==> exists k :: 0 <= k < run.attempts && outcome(k)
    ensures run.succeeded ==> outcome(run.attempts - 1)
    ensures forall k :: 0 <= k < run.attempts - 1 ==> !outcome(k)
    ensures !run.succeeded ==> run.attempts == MAX_RETRIES + 1
  {
    RunFrom(outcome, 0)
  }

  /** When every attempt fails, four attempts are made, with waits of 1, 2 and 4 seconds. */
  lemma FetchAllFail(outcome: nat -> bool)
    requires forall k :: !outcome(k)
    ensures Fetch(outcome) == FetchRun(MAX_RETRIES + 1, [1000, 2000, 4000], false)
  {
    var run := Fetch(outcome);
    RetryDelayFirstValues();
    assert run.delays == [RetryDelay(0), RetryDelay(1), RetryDelay(2)];
  }

  // ---- what the screen shows -----------------------------------------------

  /** The fields of the list query that the screen reads. */
  datatype QueryView = QueryView(isLoading: bool, error: Option<string>, isSuccess: bool, data: Option<seq<Post>>)

  /** A rendered post: its key, its text and the targets of its Edit and Delete buttons. */
  datatype Card = Card(key: int, title: string, body: string, editTarget: Post, deleteTarget: int)

  datatype Screen = Spinner | ErrorBanner | Cards(cards: seq<Card>)

  function CardFor(p: Post): Card {
    Card(p.id, p.title, p.body, p, p.id)
  }

  /** One card per post, in collection order. */
  function CardsFor(s: seq<Post>): (cs: seq<Card>)
    ensures |cs| == |s|
    ensures forall i :: 0 <= i < |s| ==> cs[i] == CardFor(s[i])
  {
    if s == [] then [] else [CardFor(s[0])] + CardsFor(s[1..])
  }

  /** Loading wins over an error, an error wins over data; a query without data shows nothing. */
  function Render(q: QueryView): (v: Screen)
    requires q.isSuccess ==> q.data.Some?
    ensures q.isLoading <==> v == Spinner
    ensures v == ErrorBanner <==> !q.isLoading && q.error.Some?
    ensures v.Cards? ==> |v.cards| == (if q.isSuccess then |q.data.value| else 0)
    ensures v.Cards? && q.isSuccess ==> v.cards == CardsFor(q.data.value)
  {
    if q.isLoading then Spinner
    else if q.error.Some? then ErrorBanner
    else if q.isSuccess then Cards(CardsFor(q.data.value))
    else Cards([])
  }

  /** In the success state each card shows, edits and deletes the post at its position. */
  lemma RenderSuccessCards(q: QueryView, i: nat)
    requires !q.isLoading && q.error.None? && q.isSuccess && q.data.Some?
    requires i < |q.data.value|
    ensures Render(q).Cards? && |Render(q).cards| == |q.data.value|
    ensures Render(q).cards[i].editTarget == q.data.value[i]
    ensures Render(q).cards[i].deleteTarget == q.data.value[i].id
    ensures Render(q).cards[i].key == q.data.value[i].id
  {
  }

  /** An id-unique collection gives every card a distinct key. */
  lemma RenderedKeysUnique(s: seq<Post>)
    requires IdUnique(s)
    ensures forall i, j :: 0 <= i < j < |CardsFor(s)| ==> CardsFor(s)[i].key != CardsFor(s)[j].key
  {
  }

  // ---- delete -------------------------------------------------------------------

  /** The success handler of the delete mutation: drop `postId` from the cached list. */
  method OnDeleteSuccess(cache: Cache.PostCache, postId: int)
    modifies cache
    ensures cache.posts == Cache.RemoveById(old(cache.posts), postId)
    ensures !HasId(cache.posts, postId)
    ensures IdUnique(old(cache.posts)) && HasId(old(cache.posts), postId) ==> |cache.posts| == |old(cache.posts)| - 1
  {
    cache.SetDeleted(postId);
  }

  /** Deleting post 3 from a list that holds it once drops exactly that card. */
  method DeleteScenario(before: seq<Post>, three: Post, after: seq<Post>)
    requires three.id == 3 && IdUnique(before + [three] + after)
  {
    var s := before + [three] + after;
    var cache := new Cache.PostCache(s);
    assert s[|before|] == three;
    OnDeleteSuccess(cache, 3);
    assert |cache.posts| == |s| - 1 && !HasId(cache.posts, 3);
    var screen := Render(QueryView(false, None, true, Some(cache.posts)));
    assert screen.Cards? && |screen.cards| == |s| - 1;
  }
}
