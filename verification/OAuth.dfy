/** The access-token cache: one class for the sequential code, one step machine for its concurrent callers. */
module OAuth {
  import opened Wire

  const SECOND := 1_000_000_000
  const CLOCK_SKEW := 30 * SECOND
  const DEFAULT_TTL := 15 * 60 * SECOND

  /** 64-bit two's complement, the width of a duration. */
  function Wrap64(n: int): int {
    (n + 0x8000_0000_0000_0000) % 0x1_0000_0000_0000_0000 - 0x8000_0000_0000_0000
  }

  /** The lifetime taken from the response's expires_in; a product that wraps to nothing falls back to the default. */
  function Ttl(expiresIn: int): (ttl: int)
    ensures 0 < ttl
    ensures 0 < expiresIn <= 9_223_372_036 ==> ttl == expiresIn * SECOND
    ensures expiresIn <= 0 && -9_223_372_036 <= expiresIn ==> ttl == DEFAULT_TTL
  {
    var d := Wrap64(expiresIn * SECOND);
    if d <= 0 then DEFAULT_TTL else d
  }

  /** Otherwise it is what is left of the product after wrapping at 64 bits. */
  lemma TtlWraps(expiresIn: int)
    ensures Ttl(expiresIn) == DEFAULT_TTL ||
            exists n :: Ttl(expiresIn) == expiresIn * SECOND - n * 0x1_0000_0000_0000_0000 < 0x8000_0000_0000_0000
  {
    var x := expiresIn * SECOND + 0x8000_0000_0000_0000;
    var n := x / 0x1_0000_0000_0000_0000;
    assert Wrap64(expiresIn * SECOND) == expiresIn * SECOND - n * 0x1_0000_0000_0000_0000;
  }

  predicate Fresh(token: string, expireAt: int, now: int) {
    token != "" && now < expireAt
  }

  /** What the token endpoint answered: a transport, status or decoding error, or a decoded body. */
  datatype Response = Broken(reason: string) | Body(accessToken: string, expiresIn: int)

  datatype OAuthConfig = OAuthConfig(tokenURL: string, clientSecret: string, refreshToken: string)

  class TokenProvider {
    const cfg: OAuthConfig
    var token: string
    var expireAt: int

    constructor (cfg: OAuthConfig)
      ensures this.cfg == cfg && token == ""
    {
      this.cfg := cfg;
      token, expireAt := "", 0;
    }

    /** Refuses exactly the configurations with a field missing; a new provider has no cached token. */
    static method New(cfg: OAuthConfig) returns (r: Result<TokenProvider, string>)
      ensures r.Success? <==> cfg.tokenURL != "" && cfg.clientSecret != "" && cfg.refreshToken != ""
      ensures r.Success? ==> fresh(r.value) && r.value.cfg == cfg
      ensures r.Success? ==> forall now :: !Fresh(r.value.token, r.value.expireAt, now)
    {
      if cfg.tokenURL == "" {
        return Failure("oauth: TokenURL is required");
      }
      if cfg.clientSecret == "" {
        return Failure("oauth: ClientSecret is required");
      }
      if cfg.refreshToken == "" {
        return Failure("oauth: RefreshToken is required");
      }
      var p := new TokenProvider(cfg);
      r := Success(p);
    }

    method CachedToken(now: int) returns (r: Option<string>)
      ensures r == if Fresh(token, expireAt, now) then Some(token) else None
    {
      if token == "" {
        return None;
      }
      if !(now < expireAt) {
        return None;
      }
      r := Some(token);
    }

    /** A failed refresh leaves the cache alone; a successful one makes its token the cached one until ttl - skew. */
    method Refresh(response: Response, now: int) returns (r: Result<string, string>)
      modifies this
      ensures r.Success? <==> response.Body? && response.accessToken != ""
      ensures r.Success? ==>
        && r.value == token == response.accessToken
        && forall t :: Fresh(token, expireAt, t) <==> t < now + Ttl(response.expiresIn) - CLOCK_SKEW
      ensures r.Failure? ==> token == old(token) && expireAt == old(expireAt)
    {
      if response.Broken? {
        return Failure(response.reason);
      }
      if response.accessToken == "" {
        return Failure("oauth: empty access_token in response");
      }
      var ttl := Ttl(response.expiresIn);
      token := response.accessToken;
      expireAt := now + (ttl - CLOCK_SKEW);
      r := Success(response.accessToken);
    }

    /** One uncontended call; the clock is read up to three times. A cached token costs no request. */
    method AccessToken(first: int, again: int, stored: int, response: Response)
        returns (r: Result<string, string>, asked: bool)
      modifies this
      ensures asked <==> !Fresh(old(token), old(expireAt), first) && !Fresh(old(token), old(expireAt), again)
      ensures !asked ==> r == Success(old(token)) && token == old(token) && expireAt == old(expireAt)
      ensures asked ==> (r.Success? <==> response.Body? && response.accessToken != "")
      ensures asked && r.Failure? ==> token == old(token) && expireAt == old(expireAt)
      ensures asked && r.Success? ==> r.value == token == response.accessToken
      ensures asked && r.Success? ==>
        forall t :: Fresh(token, expireAt, t) <==> t < stored + Ttl(response.expiresIn) - CLOCK_SKEW
    {
      var cached := CachedToken(first);
      if cached.Some? {
        return Success(cached.value), false;
      }
      cached := CachedToken(again);
      if cached.Some? {
        return Success(cached.value), false;
      }
      r := Refresh(response, stored);
      asked := true;
    }
  }

  // ---------------------------------------------------------------- concurrent callers

  /** The singleflight slot: what the one running call is doing. */
  datatype Flight = Grounded | Rechecking | Refreshing | Done(result: Result<string, string>)

  datatype Caller = Missed | Waiting

  datatype Event =
    | Served(at: int, token: string)               // from the cache
    | Started(at: int)                             // a request to the token endpoint
    | Stored(at: int, ttl: int, token: string)
    | Failed

  datatype State = State(
    now: int,
    token: string,
    expireAt: int,
    flight: Flight,
    callers: map<nat, Caller>,
    log: seq<Event>)

  datatype Step =
    | ClockReads(now: int)
    | Call(c: nat)
    | Join(c: nat)
    | Recheck
    | Answer(response: Response)
    | Land

  function Init(now: int): State {
    State(now, "", 0, Grounded, map[], [])
  }

  predicate Enabled(s: State, st: Step) {
    match st
    case ClockReads(_) => true
    case Call(c) => c !in s.callers
    case Join(c) => c in s.callers && s.callers[c] == Missed
    case Recheck => s.flight == Rechecking
    case Answer(_) => s.flight == Refreshing
    case Land => s.flight.Done?
  }

  /** The callers that have not joined a flight. */
  function StillMissed(callers: map<nat, Caller>): map<nat, Caller> {
    map c | c in callers && callers[c] == Missed :: Missed
  }

  function Next(s: State, st: Step): State
    requires Enabled(s, st)
  {
    match st
    case ClockReads(now) => s.(now := now)
    case Call(c) =>
      if Fresh(s.token, s.expireAt, s.now) then s.(log := s.log + [Served(s.now, s.token)])
      else s.(callers := s.callers[c := Missed])
    case Join(c) =>
      s.(callers := s.callers[c := Waiting], flight := if s.flight == Grounded then Rechecking else s.flight)
    case Recheck =>
      if Fresh(s.token, s.expireAt, s.now)
      then s.(flight := Done(Success(s.token)), log := s.log + [Served(s.now, s.token)])
      else s.(flight := Refreshing, log := s.log + [Started(s.now)])
    case Answer(response) =>
      if response.Body? && response.accessToken != "" then
        var ttl := Ttl(response.expiresIn);
        s.(token := response.accessToken, expireAt := s.now + ttl - CLOCK_SKEW,
           flight := Done(Success(response.accessToken)), log := s.log + [Stored(s.now, ttl, response.accessToken)])
      else s.(flight := Done(Failure("oauth")), log := s.log + [Failed])
    case Land =>
      s.(flight := Grounded, callers := StillMissed(s.callers))
  }

  predicate Runnable(s: State, steps: seq<Step>)
    decreases |steps|
  {
    steps == [] || (Enabled(s, steps[0]) && Runnable(Next(s, steps[0]), steps[1..]))
  }

  function Exec(s: State, steps: seq<Step>): State
    requires Runnable(s, steps)
    decreases |steps|
  {
    if steps == [] then s else Exec(Next(s, steps[0]), steps[1..])
  }

  function LastStored(log: seq<Event>): (last: Option<Event>)
    ensures last.Some? ==> last.value.Stored? && last.value in log
  {
    if log == [] then None
    else var n := |log| - 1; if log[n].Stored? then Some(log[n]) else LastStored(log[..n])
  }

  function Expiry(e: Event): int
    requires e.Stored?
  {
    e.at + e.ttl - CLOCK_SKEW
  }

  /** A request has been sent and its outcome is not logged yet. */
  predicate Pending(log: seq<Event>) {
    log != [] &&
    var n := |log| - 1; log[n].Started? || (log[n].Served? && Pending(log[..n]))
  }

  /** What the rest of the log allows the next event to be. */
  predicate Allowed(log: seq<Event>, e: Event) {
    match e
    case Started(at) => !Pending(log) && (LastStored(log).Some? ==> Expiry(LastStored(log).value) <= at)
    case Served(at, token) =>
      LastStored(log).Some? && LastStored(log).value.token == token && at < Expiry(LastStored(log).value)
    case Stored(_, ttl, token) => Pending(log) && 0 < ttl && token != ""
    case Failed => Pending(log)
  }

  predicate Lawful(log: seq<Event>) {
    log == [] || var n := |log| - 1; Lawful(log[..n]) && Allowed(log[..n], log[n])
  }

  predicate Inv(s: State) {
    && Lawful(s.log)
    && (s.flight == Refreshing <==> Pending(s.log))
    && (match LastStored(s.log)
        case None => s.token == ""
        case Some(e) => e.Stored? && s.token == e.token != "" && s.expireAt == Expiry(e))
  }

  lemma StepKeepsInv(s: State, st: Step)
    requires Inv(s) && Enabled(s, st)
    ensures Inv(Next(s, st))
  {
    match st
    case Call(_) => Logged(s.log, Served(s.now, s.token));
    case Recheck =>
      Logged(s.log, Served(s.now, s.token));
      Logged(s.log, Started(s.now));
    case Answer(response) =>
      if response.Body? {
        Logged(s.log, Stored(s.now, Ttl(response.expiresIn), response.accessToken));
      }
      Logged(s.log, Failed);
    case _ =>
  }

  /** What one more event does to the log. */
  lemma Logged(log: seq<Event>, e: Event)
    ensures Lawful(log + [e]) <==> Lawful(log) && Allowed(log, e)
    ensures Pending(log + [e]) <==> e.Started? || (e.Served? && Pending(log))
    ensures LastStored(log + [e]) == if e.Stored? then Some(e) else LastStored(log)
  {
    assert (log + [e])[..|log|] == log;
  }

  lemma {:induction false} RunKeepsInv(s: State, steps: seq<Step>)
    requires Inv(s) && Runnable(s, steps)
    ensures Inv(Exec(s, steps))
    decreases |steps|
  {
    if steps == [] {
    } else {
      StepKeepsInv(s, steps[0]);
      RunKeepsInv(Next(s, steps[0]), steps[1..]);
    }
  }

  lemma {:induction false} LawfulAt(log: seq<Event>, i: nat)
    requires Lawful(log) && i < |log|
    ensures Allowed(log[..i], log[i])
    decreases |log|
  {
    var n := |log| - 1;
    if i < n {
      LawfulAt(log[..n], i);
      assert log[..n][..i] == log[..i];
    }
  }

  /**
   Every interleaving of callers, whatever the clock does: a refresh starts only with no other in flight and
   only at or past the stored expiry, so at least ttl - 30s after the previous success was stored; and a token
   served from the cache is the last one stored, strictly before its expiry.
   */
  lemma RefreshSpacing(now: int, steps: seq<Step>, i: nat)
    requires Runnable(Init(now), steps) && i < |Exec(Init(now), steps).log|
    ensures var log := Exec(Init(now), steps).log; var last := LastStored(log[..i]);
      && (log[i].Started? ==>
          !Pending(log[..i]) && (last.Some? ==> last.value.at + last.value.ttl - CLOCK_SKEW <= log[i].at))
      && (log[i].Served? ==>
          && last.Some? && last.value.token == log[i].token
          && log[i].at < last.value.at + last.value.ttl - CLOCK_SKEW)
  {
    RunKeepsInv(Init(now), steps);
    LawfulAt(Exec(Init(now), steps).log, i);
  }

  // ---------------------------------------------------------------- how often the endpoint is asked

  /** The time an event carries; a failed request carries none. */
  function TimeOf(e: Event, otherwise: int): int {
    match e
    case Failed => otherwise
    case _ => e.at
  }

  /** The log's clock readings never go backwards, and none is after `now`. */
  predicate Forward(log: seq<Event>, now: int) {
    log == [] ||
    var n := |log| - 1; TimeOf(log[n], now) <= now && Forward(log[..n], TimeOf(log[n], now))
  }

  function Stores(log: seq<Event>): nat {
    if log == [] then 0
    else var n := |log| - 1; Stores(log[..n]) + if log[n].Stored? then 1 else 0
  }

  function FirstStored(log: seq<Event>): int
    requires Stores(log) > 0
  {
    var n := |log| - 1;
    if Stores(log[..n]) > 0 then FirstStored(log[..n]) else log[n].at
  }

  /** With every lifetime at least gap + 30s, n successful refreshes span at least (n - 1) gaps. */
  lemma {:induction false} StoresAreSpaced(log: seq<Event>, now: int, gap: int)
    requires Lawful(log) && Forward(log, now) && 0 <= gap
    requires forall i :: 0 <= i < |log| && log[i].Stored? ==> gap + CLOCK_SKEW <= log[i].ttl
    ensures Stores(log) > 0 ==>
      && LastStored(log).Some? && LastStored(log).value.Stored?
      && FirstStored(log) + (Stores(log) - 1) * gap <= LastStored(log).value.at <= now
      && gap + CLOCK_SKEW <= LastStored(log).value.ttl
    ensures Stores(log) == 0 ==> LastStored(log).None?
    ensures Pending(log) && Stores(log) > 0 ==> FirstStored(log) + Stores(log) * gap <= now
    decreases |log|
  {
    if log == [] {
    } else {
      var n := |log| - 1;
      var was := log[..n];
      StoresAreSpaced(was, TimeOf(log[n], now), gap);
      if log[n].Stored? && Stores(was) > 0 {
        assert Stores(log) - 1 == Stores(was);
      }
      if log[n].Started? && Stores(was) > 0 {
        var last := LastStored(was).value;
        assert Expiry(last) <= log[n].at;
        assert (Stores(was) - 1) * gap + gap == Stores(was) * gap;
      }
    }
  }

  /** The steps never turn the clock back. */
  predicate Monotone(s: State, steps: seq<Step>)
    requires Runnable(s, steps)
    decreases |steps|
  {
    steps == [] || ((steps[0].ClockReads? ==> s.now <= steps[0].now) && Monotone(Next(s, steps[0]), steps[1..]))
  }

  lemma {:induction false} ForwardLater(log: seq<Event>, now: int, later: int)
    requires Forward(log, now) && now <= later
    ensures Forward(log, later)
    decreases |log|
  {
    if log != [] && log[|log| - 1].Failed? {
      ForwardLater(log[..|log| - 1], now, later);
    }
  }

  lemma {:induction false} MonotoneIsForward(s: State, steps: seq<Step>)
    requires Runnable(s, steps) && Monotone(s, steps) && Forward(s.log, s.now)
    ensures Forward(Exec(s, steps).log, Exec(s, steps).now)
    decreases |steps|
  {
    if steps == [] {
    } else {
      var t := Next(s, steps[0]);
      if t.log == s.log {
        ForwardLater(s.log, s.now, t.now);
      } else {
        assert t.log[..|s.log|] == s.log;
      }
      MonotoneIsForward(t, steps[1..]);
    }
  }

  /** On a monotone clock, n refreshes that stored lifetimes of at least gap + 30s took at least (n - 1) gaps. */
  lemma RefreshesAreRare(now: int, steps: seq<Step>, gap: int)
    requires Runnable(Init(now), steps) && Monotone(Init(now), steps) && 0 <= gap
    requires var log := Exec(Init(now), steps).log;
      forall i :: 0 <= i < |log| && log[i].Stored? ==> gap + CLOCK_SKEW <= log[i].ttl
    ensures var s := Exec(Init(now), steps);
      Stores(s.log) > 0 ==> (Stores(s.log) - 1) * gap <= s.now - FirstStored(s.log)
  {
    RunKeepsInv(Init(now), steps);
    MonotoneIsForward(Init(now), steps);
    StoresAreSpaced(Exec(Init(now), steps).log, Exec(Init(now), steps).now, gap);
  }

  // ---------------------------------------------------------------- what a caller gets

  lemma Cons(s: State, st: Step, rest: seq<Step>)
    requires Enabled(s, st) && Runnable(Next(s, st), rest)
    ensures Runnable(s, [st] + rest) && Exec(s, [st] + rest) == Exec(Next(s, st), rest)
  {
    assert ([st] + rest)[1..] == rest;
  }

  /** A caller that finds a fresh token is served it at once, and nothing else changes. */
  lemma FreshTokenIsServed(s: State, c: nat)
    requires c !in s.callers && s.token != "" && s.now < s.expireAt
    ensures Enabled(s, Call(c)) && Next(s, Call(c)) == s.(log := s.log + [Served(s.now, s.token)])
  {
  }

  /**
   A good answer is cached until its lifetime less the skew, logged and handed to the flight; any other is a failure.
   */
  lemma AnswerMeans(s: State, response: Response)
    requires s.flight == Refreshing
    ensures var t := Next(s, Answer(response));
      if response.Body? && response.accessToken != "" then
        t == s.(token := response.accessToken, expireAt := s.now + Ttl(response.expiresIn) - CLOCK_SKEW,
                flight := Done(Success(response.accessToken)),
                log := s.log + [Stored(s.now, Ttl(response.expiresIn), response.accessToken)])
      else
        t == s.(flight := Done(Failure("oauth")), log := s.log + [Failed])
  {
  }

  /** A caller that finds no fresh token starts a flight, which asks the endpoint once. */
  lemma StaleTokenIsAskedFor(s: State, c: nat)
    requires c !in s.callers && s.flight == Grounded && (s.token == "" || s.expireAt <= s.now)
    ensures Runnable(s, [Call(c), Join(c), Recheck])
    ensures Exec(s, [Call(c), Join(c), Recheck]) ==
            s.(callers := s.callers[c := Waiting], flight := Refreshing, log := s.log + [Started(s.now)])
  {
    var s1 := Next(s, Call(c));
    var s2 := Next(s1, Join(c));
    assert s2.callers == s.callers[c := Waiting];
    Cons(s2, Recheck, []);
    Cons(s1, Join(c), [Recheck]);
    Cons(s, Call(c), [Join(c), Recheck]);
    assert [Recheck] + [] == [Recheck] && [Join(c)] + [Recheck] == [Join(c), Recheck];
    assert [Call(c)] + [Join(c), Recheck] == [Call(c), Join(c), Recheck];
  }

  lemma {:induction false} Append(s: State, a: seq<Step>, b: seq<Step>)
    requires Runnable(s, a) && Runnable(Exec(s, a), b)
    ensures Runnable(s, a + b) && Exec(s, a + b) == Exec(Exec(s, a), b)
    decreases |a|
  {
    if a == [] {
      assert a + b == b;
    } else {
      Append(Next(s, a[0]), a[1..], b);
      Cons(s, a[0], a[1..] + b);
      assert [a[0]] + (a[1..] + b) == a + b;
    }
  }

  lemma AnsweredFlightLands(s: State, response: Response)
    requires s.flight == Refreshing
    ensures Runnable(s, [Answer(response), Land])
    ensures Exec(s, [Answer(response), Land]) ==
            Next(s, Answer(response)).(flight := Grounded, callers := StillMissed(s.callers))
  {
    var t := Next(s, Answer(response));
    assert t.flight.Done? && t.callers == s.callers;
    Cons(t, Land, []);
    Cons(s, Answer(response), [Land]);
    assert [Land] + [] == [Land] && [Answer(response)] + [Land] == [Answer(response), Land];
  }

  lemma OthersStayMissed(callers: map<nat, Caller>, c: nat)
    requires c !in callers && forall d :: d in callers ==> callers[d] == Missed
    ensures StillMissed(callers[c := Waiting]) == callers
  {
  }

  /** The whole call: one request, the answer taken as AnswerMeans says, the flight over and the caller released. */
  lemma StaleTokenIsRefreshed(s: State, c: nat, response: Response)
    requires c !in s.callers && s.flight == Grounded && (s.token == "" || s.expireAt <= s.now)
    requires forall d :: d in s.callers ==> s.callers[d] == Missed
    ensures Runnable(s, [Call(c), Join(c), Recheck] + [Answer(response), Land])
    ensures var asked := s.(callers := s.callers[c := Waiting], flight := Refreshing, log := s.log + [Started(s.now)]);
      Exec(s, [Call(c), Join(c), Recheck] + [Answer(response), Land]) ==
      Next(asked, Answer(response)).(flight := Grounded, callers := s.callers)
  {
    StaleTokenIsAskedFor(s, c);
    var asked := s.(callers := s.callers[c := Waiting], flight := Refreshing, log := s.log + [Started(s.now)]);
    AnsweredFlightLands(asked, response);
    OthersStayMissed(s.callers, c);
    Append(s, [Call(c), Join(c), Recheck], [Answer(response), Land]);
  }

  /** A flight under way takes further callers on, without a second request, and landing releases them all. */
  lemma FlightIsShared(s: State, c: nat)
    requires c in s.callers && s.callers[c] == Missed && s.flight != Grounded
    ensures Enabled(s, Join(c)) && Next(s, Join(c)) == s.(callers := s.callers[c := Waiting])
    ensures s.flight.Done? ==> Enabled(s, Land) && Next(s, Land).flight == Grounded
    ensures s.flight.Done? ==> forall d :: d in Next(s, Land).callers <==> d in s.callers && s.callers[d] == Missed
  {
  }

  /** A refresh that found the token fresh after all hands it over without a request. */
  lemma RecheckServes(s: State)
    requires s.flight == Rechecking && s.token != "" && s.now < s.expireAt
    ensures Next(s, Recheck) == s.(flight := Done(Success(s.token)), log := s.log + [Served(s.now, s.token)])
  {
  }
}
