/** The upstream (Weixin) access-token cache policy.

    The key-value store is an immutable map from key to live entry; an entry
    whose lifetime ran out is simply absent, because the store, not this
    service, enforces expiry. The upstream token endpoint and the liveness
    probe are not called: what they answered is passed in, and every service
    call is a pure function from (store, upstream answers) to a `Step` that
    records the new store, the returned value, and whether a fetch or a probe
    happened. */
module WeixinToken {
  import opened Wrappers

  /** The one key under which the access token is cached. */
  const TokenKey: string := "weixin:token"

  /** Remaining lifetime, in seconds, that the timed task must see exceeded
      before it even considers keeping the cached token. */
  const MinTtl: int := 1000

  /** A live entry of the store: its value and the lifetime in seconds it
      was written with. */
  datatype Entry = Entry(value: string, ttl: int)

  type Store = map<string, Entry>

  /** What the upstream token endpoint answered: a token with its validity in
      seconds, or an exception. */
  datatype Fetch = Issued(accessToken: string, expiresIn: int) | FetchThrew

  /** What the liveness probe did when called with the cached token. */
  datatype Probe = Completed | Threw

  /** The failure a service call lets escape to its caller. */
  datatype Failure = FetchFailed

  /** The effect of one service call. */
  datatype Step<R> = Step(store: Store, result: R, fetched: bool, probed: bool)

  /** `a` and `b` hold the same entries under every key but the token key. */
  ghost predicate SameElsewhere(a: Store, b: Store) {
    forall k :: k != TokenKey ==> (k in a <==> k in b) && (k in a ==> a[k] == b[k])
  }

  /** Reads the cached token; `None` is the store's null for a missing or
      expired key. */
  function CachedToken(store: Store): (r: Option<string>)
    ensures r.Some? <==> TokenKey in store
    ensures r.Some? ==> r.value == store[TokenKey].value
  {
    if TokenKey in store then Some(store[TokenKey].value) else None
  }

  /** Fetches a token upstream and overwrites the cached entry with it, its
      lifetime being the validity the upstream declared. A failing fetch
      escapes before anything is written. */
  function RefreshToken(store: Store, fetch: Fetch): (r: Step<Result<string, Failure>>)
    ensures r.fetched && !r.probed
    ensures SameElsewhere(store, r.store)
    ensures fetch.Issued? ==>
              && r.result == Ok(fetch.accessToken)
              && TokenKey in r.store
              && r.store[TokenKey] == Entry(fetch.accessToken, fetch.expiresIn)
    ensures fetch.FetchThrew? ==> r.result == Err(FetchFailed) && r.store == store
  {
    match fetch
    case Issued(token, expiresIn) =>
      Step(store[TokenKey := Entry(token, expiresIn)], Ok(token), true, false)
    case FetchThrew =>
      Step(store, Err(FetchFailed), true, false)
  }

  /** Cache-aside read: the cached token if there is one, otherwise a refresh. */
  function GetToken(store: Store, fetch: Fetch): (r: Step<Result<string, Failure>>)
    ensures !r.probed
    ensures r.fetched <==> TokenKey !in store
    ensures TokenKey in store ==> r.result == Ok(store[TokenKey].value) && r.store == store
    ensures TokenKey !in store && fetch.Issued? ==>
              && r.result == Ok(fetch.accessToken)
              && r.store == store[TokenKey := Entry(fetch.accessToken, fetch.expiresIn)]
    ensures TokenKey !in store && fetch.FetchThrew? ==>
              r.result == Err(FetchFailed) && r.store == store
    ensures r.result.Ok? ==> TokenKey in r.store && r.store[TokenKey].value == r.result.value
    ensures SameElsewhere(store, r.store)
  {
    match CachedToken(store)
    case Some(token) => Step(store, Ok(token), false, false)
    case None => RefreshToken(store, fetch)
  }

  /** Liveness check of the cached token. The probe runs only on a present,
      non-empty token, and a probe that throws is reported as `false`, never
      passed on. */
  function CheckTokenValid(store: Store, probe: Probe): (r: Step<bool>)
    ensures r.store == store && !r.fetched
    ensures r.probed <==> TokenKey in store && store[TokenKey].value != ""
    ensures r.result <==> r.probed && probe == Completed
  {
    match CachedToken(store)
    case Some(token) =>
      if token != "" then Step(store, probe == Completed, false, true)
      else Step(store, false, false, false)
    case None => Step(store, false, false, false)
  }

  /** One cycle of the scheduled refresh. `ttl` is the store's answer to the
      remaining-lifetime query at the time of the cycle, which the cycle needs
      to be non-null; it is not derived from `Entry.ttl`, the lifetime the
      entry was written with, since the store counts it down. The
      cycle keeps the token only when that lifetime exceeds `MinTtl` and the
      liveness check passes; the check is skipped once the lifetime alone
      demands a refresh. A refresh that fails escapes the cycle. */
  function RefreshTimedTask(store: Store, ttl: Option<int>, probe: Probe, fetch: Fetch)
    : (r: Step<Outcome<Failure>>)
    requires ttl.Some?
    ensures r.fetched <==> ttl.value <= MinTtl || !CheckTokenValid(store, probe).result
    ensures r.probed <==> ttl.value > MinTtl && CheckTokenValid(store, probe).probed
    ensures ttl.value <= MinTtl ==> !r.probed
    ensures !r.fetched ==> r.store == store && r.result == Pass
    ensures r.fetched ==> r.store == RefreshToken(store, fetch).store
    ensures r.fetched ==> (r.result == Pass <==> fetch.Issued?)
    ensures SameElsewhere(store, r.store)
  {
    var check := if ttl.value > MinTtl then CheckTokenValid(store, probe) else Step(store, false, false, false);
    if check.result then
      Step(store, Pass, false, check.probed)
    else
      var refreshed := RefreshToken(store, fetch);
      var outcome := match refreshed.result
        case Ok(_) => Pass
        case Err(e) => Fail(e);
      Step(refreshed.store, outcome, true, check.probed)
  }

  /** Whatever the store held before, a refresh returns and caches the same
      token for the same upstream answer. */
  lemma RefreshIgnoresPriorEntry(s1: Store, s2: Store, fetch: Fetch)
    ensures RefreshToken(s1, fetch).result == RefreshToken(s2, fetch).result
    ensures fetch.Issued? ==>
              && TokenKey in RefreshToken(s1, fetch).store
              && TokenKey in RefreshToken(s2, fetch).store
              && RefreshToken(s1, fetch).store[TokenKey] == RefreshToken(s2, fetch).store[TokenKey]
  {
  }

  /** With no token cached, a cycle always fetches and never probes, whatever
      the store answers to the remaining-lifetime query. */
  lemma MissingTokenAlwaysRefreshes(store: Store, ttl: Option<int>, probe: Probe, fetch: Fetch)
    requires ttl.Some?
    requires TokenKey !in store
    ensures RefreshTimedTask(store, ttl, probe, fetch).fetched
    ensures !RefreshTimedTask(store, ttl, probe, fetch).probed
  {
  }

  /** A timed-task cycle that returns normally leaves a token behind that the
      next `getToken` returns without going upstream. */
  lemma TimedTaskThenGetToken(store: Store, ttl: Option<int>, probe: Probe, fetch: Fetch, next: Fetch)
    requires ttl.Some?
    requires RefreshTimedTask(store, ttl, probe, fetch).result == Pass
    ensures var after := RefreshTimedTask(store, ttl, probe, fetch).store;
            && TokenKey in after
            && !GetToken(after, next).fetched
            && GetToken(after, next).result == Ok(after[TokenKey].value)
  {
  }

  /** The combined effect of consecutive `getToken` calls with no expiry in
      between: the final store, what each call returned, and how many of
      them went upstream. */
  datatype Run = Run(store: Store, results: seq<Result<string, Failure>>, fetches: nat)

  /** Runs `getToken` once per element of `answers`; a call that goes upstream
      gets its element as the upstream answer, the others ignore theirs. */
  function GetTokenRun(store: Store, answers: seq<Fetch>): (r: Run)
    ensures |r.results| == |answers|
    ensures r.fetches <= |answers|
    ensures SameElsewhere(store, r.store)
    decreases |answers|
  {
    if answers == [] then Run(store, [], 0)
    else
      var first := GetToken(store, answers[0]);
      var rest := GetTokenRun(first.store, answers[1..]);
      Run(rest.store, [first.result] + rest.results, rest.fetches + if first.fetched then 1 else 0)
  }

  /** The number of upstream answers before the first that issued a token. */
  function LeadingFailures(answers: seq<Fetch>): (n: nat)
    ensures n <= |answers|
    ensures forall i :: 0 <= i < n ==> answers[i].FetchThrew?
    ensures n < |answers| ==> answers[n].Issued?
  {
    if answers == [] || answers[0].Issued? then 0 else 1 + LeadingFailures(answers[1..])
  }

  /** With a token cached, no number of `getToken` calls goes upstream: each
      returns the cached token and the store never changes. */
  lemma {:induction false} CachedRunNeverFetches(store: Store, answers: seq<Fetch>)
    requires TokenKey in store
    ensures var r := GetTokenRun(store, answers);
            && r.fetches == 0
            && r.store == store
            && forall i :: 0 <= i < |r.results| ==> r.results[i] == Ok(store[TokenKey].value)
    decreases |answers|
  {
    if answers != [] {
      CachedRunNeverFetches(store, answers[1..]);
    }
  }

  /** From an empty cache, consecutive `getToken` calls go upstream until the
      first one that obtains a token and never again: the failed calls
      report the failure, every later call returns that one token, and it is
      the token left in the store. */
  lemma {:induction false} EmptyCacheRunFetchesUntilSuccess(store: Store, answers: seq<Fetch>)
    requires TokenKey !in store
    ensures var r := GetTokenRun(store, answers);
            var n := LeadingFailures(answers);
            && r.fetches == (if n < |answers| then n + 1 else n)
            && (forall i :: 0 <= i < n ==> r.results[i] == Err(FetchFailed))
            && (n < |answers| ==>
                  && (forall i :: n <= i < |answers| ==> r.results[i] == Ok(answers[n].accessToken))
                  && r.store == store[TokenKey := Entry(answers[n].accessToken, answers[n].expiresIn)])
            && (n == |answers| ==> r.store == store)
    decreases |answers|
  {
    if answers != [] {
      var first := GetToken(store, answers[0]);
      var tail := answers[1..];
      var r := GetTokenRun(store, answers);
      var rest := GetTokenRun(first.store, tail);
      assert r.results == [first.result] + rest.results;
      match answers[0]
      case Issued(token, expiresIn) =>
        CachedRunNeverFetches(first.store, tail);
        assert LeadingFailures(answers) == 0;
      case FetchThrew =>
        EmptyCacheRunFetchesUntilSuccess(store, tail);
        assert LeadingFailures(answers) == 1 + LeadingFailures(tail);
        forall i | 1 <= i < |answers|
          ensures r.results[i] == rest.results[i - 1] && answers[i] == tail[i - 1]
        {
        }
    }
  }
}
