/** The service account's token cache: when it is used, and how far apart fetches are. */
module TokenCache {
  import opened Wrappers
  import opened Timestamp

  const MARGIN: int := 30 * SECOND
  const INT64: int := 0x1_0000_0000_0000_0000

  // A duration is a 64-bit count of nanoseconds; the product wraps around.
  function Wrap64(n: int): (r: int)
    ensures -INT64 / 2 <= r < INT64 / 2
  {
    var m := n % INT64;
    if m >= INT64 / 2 then m - INT64 else m
  }

  datatype Cache = Cache(token: string, expiry: Instant)

  // The token endpoint's answer: any failure, or a token with its lifetime in seconds.
  datatype Response = Failed | Token(text: string, expiresIn: int)

  // One call: the clock at its start, the answer if it fetches, and the clock when it stores.
  datatype Use = Use(now: Instant, response: Response, later: Instant)

  predicate Serves(c: Cache, now: Instant) {
    c.token != "" && now < c.expiry - MARGIN
  }

  predicate Fetches(c: Cache, u: Use) {
    !Serves(c, u.now) && u.response.Token? && u.response.text != ""
  }

  function After(c: Cache, u: Use): Cache {
    if Fetches(c, u) then Cache(u.response.text, u.later + Wrap64(u.response.expiresIn * SECOND)) else c
  }

  // What the call returns: the cached token, or the one it fetched.
  function Reply(c: Cache, u: Use): Result<string> {
    if Serves(c, u.now) then Success(c.token)
    else if u.response.Token? && u.response.text != "" then Success(u.response.text)
    else Failure
  }

  class Client {
    var cachedToken: string
    var tokenExpiry: Instant

    constructor ()
      ensures View() == Cache("", 0)
    {
      cachedToken, tokenExpiry := "", 0;
    }

    function View(): Cache
      reads this
    {
      Cache(cachedToken, tokenExpiry)
    }

    // A token served from the cache has more than thirty seconds left by its recorded expiry; a
    // failed fetch leaves the cache alone.
    method AccessToken(u: Use) returns (token: Result<string>)
      modifies this
      ensures View() == After(old(View()), u) && token == Reply(old(View()), u)
      ensures Serves(old(View()), u.now) ==>
                token == Success(old(cachedToken)) && old(tokenExpiry) - u.now > 30 * SECOND && View() == old(View())
      ensures token.Failure? ==> View() == old(View())
    {
      if cachedToken != "" && u.now < tokenExpiry - MARGIN {
        return Success(cachedToken);
      }
      if u.response.Failed? {
        return Failure;
      }
      if u.response.text == "" {
        return Failure;
      }
      cachedToken := u.response.text;
      tokenExpiry := u.later + Wrap64(u.response.expiresIn * SECOND);
      token := Success(cachedToken);
    }
  }

  // ----- runs -----

  function CacheAt(c: Cache, uses: seq<Use>, n: nat): Cache
    requires n <= |uses|
  {
    if n == 0 then c else After(CacheAt(c, uses, n - 1), uses[n - 1])
  }

  predicate FetchesAt(c: Cache, uses: seq<Use>, i: nat)
    requires i < |uses|
  {
    Fetches(CacheAt(c, uses, i), uses[i])
  }

  // The latest fetch before call `j` is that of call `i`.
  predicate LatestFetch(c: Cache, uses: seq<Use>, i: nat, j: nat)
    requires j <= |uses|
  {
    i < j && FetchesAt(c, uses, i) && forall k :: i < k < j ==> !FetchesAt(c, uses, k)
  }

  // The expiry of a token is counted from when its answer was stored.
  function ExpiryOf(u: Use): Instant
    requires u.response.Token?
  {
    u.later + Wrap64(u.response.expiresIn * SECOND)
  }

  // The cache holds the token of the latest fetch with the expiry of that same answer, and before the
  // first fetch what it held to begin with.
  lemma {:induction false} HoldsLatest(c: Cache, uses: seq<Use>, j: nat)
    requires j <= |uses|
    ensures forall i: nat :: LatestFetch(c, uses, i, j) ==>
              uses[i].response.Token? && CacheAt(c, uses, j) == Cache(uses[i].response.text, ExpiryOf(uses[i]))
    ensures CacheAt(c, uses, j) == c || exists i: nat :: LatestFetch(c, uses, i, j)
  {
    hide FetchesAt, After, ExpiryOf;
    if j > 0 {
      HoldsLatest(c, uses, j - 1);
      CacheAfter(c, uses, j - 1);
      if FetchesAt(c, uses, j - 1) {
        assert LatestFetch(c, uses, j - 1, j);
      } else {
        forall i: nat | LatestFetch(c, uses, i, j) ensures LatestFetch(c, uses, i, j - 1) {}
        var before := j - 1;
        if i: nat :| LatestFetch(c, uses, i, before) {
          assert LatestFetch(c, uses, i, j);
        }
      }
    }
  }

  lemma CacheAfter(c: Cache, uses: seq<Use>, i: nat)
    requires i < |uses|
    ensures FetchesAt(c, uses, i) ==>
              uses[i].response.Token? && CacheAt(c, uses, i + 1) == Cache(uses[i].response.text, ExpiryOf(uses[i]))
    ensures !FetchesAt(c, uses, i) ==> CacheAt(c, uses, i + 1) == CacheAt(c, uses, i)
  {}

  // From an empty cache, over any calls: a call returns the token it fetches; or else the one of the latest
  // fetch, if and only if that has more than thirty seconds left by its own answer; or else fails.
  lemma AnswersLatest(uses: seq<Use>, j: nat)
    requires j < |uses|
    ensures var none := Cache("", 0); var reply := Reply(CacheAt(none, uses, j), uses[j]);
            if FetchesAt(none, uses, j) then reply == Success(uses[j].response.text)
            else
              && (reply.Success? <==> exists i: nat :: LatestFetch(none, uses, i, j) && uses[j].now < ExpiryOf(uses[i]) - 30 * SECOND)
              && (forall i: nat :: LatestFetch(none, uses, i, j) && reply.Success? ==> reply == Success(uses[i].response.text))
  {
    hide Wrap64;
    var none := Cache("", 0);
    HoldsLatest(none, uses, j);
    if i: nat :| LatestFetch(none, uses, i, j) {
      assert uses[i].response.text != "";
      forall k: nat | LatestFetch(none, uses, k, j) ensures k == i {}
    }
  }

  // The mutex runs the calls one after another.
  predicate InOrder(uses: seq<Use>) {
    && (forall i :: 0 <= i < |uses| ==> uses[i].now <= uses[i].later)
    && (forall i :: 0 <= i < |uses| - 1 ==> uses[i].later <= uses[i + 1].now)
  }

  // The lifetime recorded for a token, wrap-around and all, is at least `life` seconds.
  predicate Lives(r: Response, life: int) {
    r.Token? ==> Wrap64(r.expiresIn * SECOND) >= life * SECOND
  }

  predicate LivesAtLeast(uses: seq<Use>, life: int) {
    forall i :: 0 <= i < |uses| ==> Lives(uses[i].response, life)
  }

  // The lifetimes that are recorded as they were sent.
  lemma RecordedAsSent(n: int)
    ensures Wrap64(n * SECOND) == n * SECOND <==> -9_223_372_036 <= n <= 9_223_372_036
  {}

  // So up to there it is the lifetime sent that counts.
  lemma LivesAsSent(r: Response, life: int)
    requires r.Token? && -9_223_372_036 <= r.expiresIn <= 9_223_372_036
    ensures Lives(r, life) <==> r.expiresIn >= life
  {}

  // A fetched token is served for `life` - 30 seconds after the fetch if and only if the lifetime
  // recorded for it is at least `life` seconds.
  lemma ServedForLife(c: Cache, u: Use, life: int)
    requires Fetches(c, u) && life > 30
    ensures (forall t :: t < u.later + (life - 30) * SECOND ==> Serves(After(c, u), t)) <==> Lives(u.response, life)
  {
    var last := u.later + (life - 30) * SECOND - 1;
    assert last < u.later + (life - 30) * SECOND;
    assert (forall t :: t < u.later + (life - 30) * SECOND ==> Serves(After(c, u), t)) ==> Serves(After(c, u), last);
  }

  // One second more and the recorded lifetime is negative: two calls at one instant both fetch.
  lemma WrappedLifetimeRefetches(now: Instant, text: string)
    requires text != ""
    ensures var u := Use(now, Token(text, 9_223_372_037), now);
            && Wrap64(9_223_372_037 * SECOND) < 0
            && FetchesAt(Cache("", 0), [u, u], 0) && FetchesAt(Cache("", 0), [u, u], 1)
            && InOrder([u, u]) && !LivesAtLeast([u, u], 0)
  {
    var u := Use(now, Token(text, 9_223_372_037), now);
    assert CacheAt(Cache("", 0), [u, u], 1) == After(CacheAt(Cache("", 0), [u, u], 0), u);
    assert !Lives([u, u][0].response, 0);
  }

  lemma {:induction false} InOrderFar(uses: seq<Use>, i: nat, j: nat)
    requires InOrder(uses) && i < j < |uses|
    ensures uses[i].later <= uses[j].now
  {
    if i + 1 < j {
      InOrderFar(uses, i, j - 1);
    }
  }

  // From a fetch on, the cache holds a token that lives at least `life` seconds past it.
  lemma {:induction false} ExpiryAfterFetch(c: Cache, uses: seq<Use>, i: nat, j: nat, life: int)
    requires InOrder(uses) && LivesAtLeast(uses, life) && life >= 0 && i < j <= |uses| && FetchesAt(c, uses, i)
    ensures CacheAt(c, uses, j).token != "" && CacheAt(c, uses, j).expiry >= uses[i].later + life * SECOND
  {
    hide Wrap64;
    assert Lives(uses[j - 1].response, life);
    if i + 1 < j {
      ExpiryAfterFetch(c, uses, i, j - 1, life);
      InOrderFar(uses, i, j - 1);
    }
  }

  // Two fetches are at least `life` - 30 seconds apart.
  lemma FetchSpacing(c: Cache, uses: seq<Use>, i: nat, j: nat, life: int)
    requires InOrder(uses) && LivesAtLeast(uses, life) && life > 30 && i < j < |uses|
    requires FetchesAt(c, uses, i) && FetchesAt(c, uses, j)
    ensures uses[j].now - uses[i].later >= (life - 30) * SECOND
  {
    ExpiryAfterFetch(c, uses, i, j, life);
  }

  function FetchCount(c: Cache, uses: seq<Use>, n: nat): nat
    requires n <= |uses|
  {
    if n == 0 then 0 else FetchCount(c, uses, n - 1) + (if FetchesAt(c, uses, n - 1) then 1 else 0)
  }

  // The fetches among the first `n` calls, all but one of them paid for by the time they span.
  lemma {:induction false} FetchBudgetTo(c: Cache, uses: seq<Use>, n: nat, life: int) returns (last: nat)
    requires InOrder(uses) && LivesAtLeast(uses, life) && life > 30 && n <= |uses| && FetchCount(c, uses, n) > 0
    ensures last < n && FetchesAt(c, uses, last)
    ensures forall k :: last < k < n ==> !FetchesAt(c, uses, k)
    ensures (FetchCount(c, uses, n) - 1) * ((life - 30) * SECOND) <= uses[last].now - uses[0].now
  {
    hide LivesAtLeast, FetchesAt;
    if FetchesAt(c, uses, n - 1) {
      last := n - 1;
      if FetchCount(c, uses, n - 1) > 0 {
        var before := FetchBudgetTo(c, uses, n - 1, life);
        FetchSpacing(c, uses, before, n - 1, life);
        OneMore(FetchCount(c, uses, n - 1), (life - 30) * SECOND);
      } else {
        InOrderUpTo(uses, 0, n - 1);
      }
    } else {
      last := FetchBudgetTo(c, uses, n - 1, life);
    }
  }

  lemma OneMore(n: int, d: int)
    ensures n * d == (n - 1) * d + d
  {}

  // In any stretch of calls, from any cache, the successful fetches number at most one more than
  // the stretch's length divided by `life` - 30 seconds.
  lemma FetchBudget(c: Cache, uses: seq<Use>, life: int)
    requires InOrder(uses) && LivesAtLeast(uses, life) && life > 30 && uses != []
    ensures (FetchCount(c, uses, |uses|) - 1) * ((life - 30) * SECOND) <= uses[|uses| - 1].now - uses[0].now
  {
    hide LivesAtLeast, FetchesAt;
    if FetchCount(c, uses, |uses|) > 0 {
      var last := FetchBudgetTo(c, uses, |uses|, life);
      InOrderUpTo(uses, last, |uses| - 1);
    } else {
      InOrderUpTo(uses, 0, |uses| - 1);
      Unpaid((life - 30) * SECOND);
    }
  }

  lemma InOrderUpTo(uses: seq<Use>, i: nat, j: nat)
    requires InOrder(uses) && i <= j < |uses|
    ensures uses[i].now <= uses[j].now
  {
    if i < j {
      InOrderFar(uses, i, j);
    }
  }

  lemma Unpaid(d: int)
    requires d > 0
    ensures (0 - 1) * d <= 0
  {}
}
