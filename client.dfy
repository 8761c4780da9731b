/** The Avito HTTP client: the retry policy of `fetch_page`, user-agent rotation, the search and
    category URL builders, the protection and empty-result markers, and the page loop of
    `fetch_pages`.

    The network, the clock and the random generator are not code this model can see.  A
    `Session` therefore carries an `Env`: the reply the server gives to the n-th request and the
    n-th number `random.random()` draws.  Each request, user-agent change and sleep is appended
    to the session's event log, so the contracts can speak about exactly what the loop did. */
module Client {
  import opened Text
  import opened Urls
  import opened Parser

  // ---------------------------------------------------------------------
  // Constants
  // ---------------------------------------------------------------------

  /** Substrings of a lower-cased `Location` that mark an anti-bot redirect. */
  const BlockRedirectMarkers: seq<string> :=
    ["captcha", "blocked", "security", "check", "verify", "antibot", "challenge"]

  /** Statuses that mean a hard block (429 is "Too Many Requests", section 4 of RFC 6585). */
  const BlockStatuses: seq<int> := [401, 403, 429]

  /** The redirect statuses the loop retries on (section 15.4 of RFC 9110). */
  const RedirectStatuses: seq<int> := [301, 302, 303, 307, 308]

  const UserAgentPool: seq<string> := [
    "Mozilla/5.0 (Windows NT 10.0; Win64; x64) AppleWebKit/537.36 (KHTML, like Gecko) Chrome/133.0.0.0 Safari/537.36",
    "Mozilla/5.0 (Macintosh; Intel Mac OS X 14_4) AppleWebKit/537.36 (KHTML, like Gecko) Chrome/132.0.0.0 Safari/537.36",
    "Mozilla/5.0 (X11; Linux x86_64) AppleWebKit/537.36 (KHTML, like Gecko) Chrome/131.0.0.0 Safari/537.36",
    "Mozilla/5.0 (Windows NT 10.0; Win64; x64; rv:135.0) Gecko/20100101 Firefox/135.0",
    "Mozilla/5.0 (Macintosh; Intel Mac OS X 13.6; rv:134.0) Gecko/20100101 Firefox/134.0",
    "Mozilla/5.0 (X11; Linux x86_64; rv:133.0) Gecko/20100101 Firefox/133.0",
    "Mozilla/5.0 (Macintosh; Intel Mac OS X 14_2) AppleWebKit/605.1.15 (KHTML, like Gecko) Version/18.2 Safari/605.1.15",
    "Mozilla/5.0 (Windows NT 10.0; Win64; x64) AppleWebKit/537.36 (KHTML, like Gecko) Edg/133.0.3065.69",
    "Mozilla/5.0 (Windows NT 10.0; Win64; x64) AppleWebKit/537.36 (KHTML, like Gecko) Opera/116.0.5366.71",
    "Mozilla/5.0 (X11; Linux x86_64) AppleWebKit/537.36 (KHTML, like Gecko) Brave/1.75.181 Chrome/132.0.0.0 Safari/537.36"
  ]

  /** The pause after a hard block, in seconds. */
  const BlockSleep: real := 60.0

  // ---------------------------------------------------------------------
  // Environment and session
  // ---------------------------------------------------------------------

  /** What `random.random()` returns. */
  type Fraction = u: real | 0.0 <= u < 1.0 witness 0.0

  /** What one `session.get` produced: a response (status, `Location` header, body text) or an
      `aiohttp.ClientError` / timeout. */
  datatype Reply = Response(status: int, location: Option<string>, body: string) | NetworkError

  /** The world outside the process: the reply to the n-th request and the n-th random draw. */
  datatype Env = Env(replies: nat -> Reply, draws: nat -> Fraction)

  datatype Event =
    | Requested(url: string, userAgent: string)
    | Rotated(userAgent: string)
    | Slept(seconds: real)

  /** The observable state of a session: its `User-Agent` header, what it has done so far, and
      how many requests and random draws it has used. */
  datatype SessionState = SessionState(userAgent: string, events: seq<Event>, sent: nat, drawn: nat)

  datatype Error = Blocked | HttpError(status: int) | InvalidUrl | ProtectionPage(page: int)

  datatype Outcome<T> = Ok(value: T) | Failed(error: Error)

  /** An `aiohttp.ClientSession` as the client uses it. */
  class Session {
    const env: Env
    var userAgent: string
    var events: seq<Event>
    var sent: nat
    var drawn: nat

    constructor(env: Env, userAgent: string)
      ensures this.env == env && State() == SessionState(userAgent, [], 0, 0)
    {
      this.env := env;
      this.userAgent := userAgent;
      events := [];
      sent := 0;
      drawn := 0;
    }

    function State(): SessionState
      reads this
    {
      SessionState(userAgent, events, sent, drawn)
    }

    /** `session.get(url, allow_redirects=False)` with the current `User-Agent`. */
    method Get(url: string) returns (reply: Reply)
      modifies this
      ensures reply == env.replies(old(sent))
      ensures State() == old(State()).(events := old(events) + [Requested(url, old(userAgent))], sent := old(sent) + 1)
    {
      reply := env.replies(sent);
      events := events + [Requested(url, userAgent)];
      sent := sent + 1;
    }

    /** `random.random()`. */
    method Random() returns (u: Fraction)
      modifies this
      ensures u == env.draws(old(drawn))
      ensures State() == old(State()).(drawn := old(drawn) + 1)
    {
      u := env.draws(drawn);
      drawn := drawn + 1;
    }

    /** `asyncio.sleep(seconds)`. */
    method Sleep(seconds: real)
      modifies this
      ensures State() == old(State()).(events := old(events) + [Slept(seconds)])
    {
      events := events + [Slept(seconds)];
    }
  }

  /** The draw a state has not used yet. */
  function NextDraw(env: Env, st: SessionState): Fraction {
    env.draws(st.drawn)
  }

  function UseDraw(st: SessionState): SessionState {
    st.(drawn := st.drawn + 1)
  }

  function SleepFor(st: SessionState, seconds: real): SessionState {
    st.(events := st.events + [Slept(seconds)])
  }

  /** `random.uniform(lo, hi)` from one draw. */
  function Jitter(lo: real, hi: real, u: Fraction): (j: real)
    requires lo <= hi
    ensures lo <= j <= hi && (lo < hi ==> j < hi)
  {
    var d := hi - lo;
    FractionScale(d, u);
    lo + d * u
  }

  lemma FractionScale(x: real, u: Fraction)
    requires x >= 0.0
    ensures 0.0 <= x * u <= x && (x > 0.0 ==> x * u < x)
  {
    assert x * u <= x * 1.0;
  }

  function MinReal(a: real, b: real): real { if a <= b then a else b }

  // ---------------------------------------------------------------------
  // _rotate_user_agent
  // ---------------------------------------------------------------------

  /** The pool entries other than `current`. */
  function Without(pool: seq<string>, current: string): (r: seq<string>)
    ensures forall x :: x in r <==> x in pool && x != current
  {
    if |pool| == 0 then []
    else if pool[0] == current then Without(pool[1..], current)
    else [pool[0]] + Without(pool[1..], current)
  }

  /** The user agents a rotation may pick: every other one, or the whole pool when there is no
      other. */
  function Candidates(current: string): (c: seq<string>)
    ensures |c| > 0 && forall x :: x in c ==> x in UserAgentPool
  {
    var others := Without(UserAgentPool, current);
    if |others| > 0 then others else UserAgentPool
  }

  /** `random.choice(c)` from one draw. */
  function Choose(c: seq<string>, u: Fraction): (x: string)
    requires |c| > 0
    ensures x in c
  {
    var k := (u * (|c| as real)).Floor;
    assert 0 <= k < |c| by {
      assert 0.0 <= u * (|c| as real) < |c| as real;
    }
    c[k]
  }

  /** The state after `_rotate_user_agent`. */
  function RotateState(env: Env, st: SessionState): SessionState {
    var ua := Choose(Candidates(st.userAgent), NextDraw(env, st));
    UseDraw(st).(userAgent := ua, events := st.events + [Rotated(ua)])
  }

  lemma PoolHasTwo()
    ensures UserAgentPool[0] != UserAgentPool[1]
  {
    assert |UserAgentPool[0]| != |UserAgentPool[1]|;
  }

  /** A rotation sets the header to an entry of the pool other than the current one. */
  lemma RotationChangesAgent(env: Env, st: SessionState)
    ensures RotateState(env, st).userAgent in UserAgentPool
    ensures RotateState(env, st).userAgent != st.userAgent
  {
    PoolHasTwo();
    var w := if UserAgentPool[0] != st.userAgent then UserAgentPool[0] else UserAgentPool[1];
    assert w in Without(UserAgentPool, st.userAgent);
  }

  /** `_rotate_user_agent(session)`. */
  method RotateUserAgent(s: Session) returns (ua: string)
    modifies s
    ensures s.State() == RotateState(s.env, old(s.State())) && ua == s.userAgent
  {
    var candidates := Candidates(s.userAgent);
    var u := s.Random();
    ua := Choose(candidates, u);
    s.userAgent := ua;
    s.events := s.events + [Rotated(ua)];
  }

  // ---------------------------------------------------------------------
  // _safe_head
  // ---------------------------------------------------------------------

  /** `t[:n]`, negative `n` counting from the end. */
  function Head(t: string, n: int): (r: string)
    ensures |r| <= |t| && r == t[..|r|]
    ensures n >= 0 ==> |r| == if n <= |t| then n else |t|
    ensures n < 0 ==> |r| == if -n <= |t| then |t| + n else 0
  {
    if n >= 0 then (if n <= |t| then t[..n] else t)
    else if -n <= |t| then t[..|t| + n] else ""
  }

  /** `_safe_head(text, n)`: line breaks become spaces, then the first `n` characters. */
  function SafeHead(text: string, n: int): string {
    Head(ReplaceAll(ReplaceAll(text, "\n", " "), "\r", " "), n)
  }

  /** The head is a single line, no longer than asked, and otherwise the text itself. */
  lemma SafeHeadOneLine(text: string, n: int)
    ensures var r := SafeHead(text, n);
      (n >= 0 ==> |r| <= n) && |r| <= |text|
      && (forall i :: 0 <= i < |r| ==> r[i] != '\n' && r[i] != '\r')
      && (forall i :: 0 <= i < |r| ==> r[i] == if text[i] == '\n' || text[i] == '\r' then ' ' else text[i])
  {
    var a := ReplaceAll(text, "\n", " ");
    ReplaceChar(text, '\n', ' ');
    ReplaceChar(a, '\r', ' ');
  }

  // ---------------------------------------------------------------------
  // fetch_page
  // ---------------------------------------------------------------------

  /** The keyword arguments of `fetch_page`. */
  datatype RetryConfig = RetryConfig(maxTries: int, baseSleep: real, maxSleep: real)

  const DefaultRetry := RetryConfig(6, 6.0, 120.0)

  /** What one reply asks the loop to do. */
  datatype Action =
    | ReturnBody(body: string)
    | RotateAndWait(drawsJitter: bool)
    | Backoff(lo: real, hi: real)
    | Fail(status: int)

  /** A redirect whose `Location` (section 10.2.2 of RFC 9110) names an anti-bot page. */
  predicate MarkedLocation(location: Option<string>) {
    AnyIn(BlockRedirectMarkers, Lower(Strip(OrElse(location, ""))))
  }

  /** The retry policy: 200 returns the body; a hard block rotates and waits; a redirect to an
      anti-bot page does the same after drawing the jitter it then discards; any other redirect
      and a network error back off with jitter; every other status fails. */
  function Policy(reply: Reply): (a: Action)
    ensures a.Backoff? ==> 0.0 < a.lo < a.hi
  {
    match reply
    case NetworkError => Backoff(0.5, 5.0)
    case Response(status, location, body) =>
      if status == 200 then ReturnBody(body)
      else if status in BlockStatuses then RotateAndWait(false)
      else if status in RedirectStatuses then
        (if MarkedLocation(location) then RotateAndWait(true) else Backoff(0.8, 6.0))
      else Fail(status)
  }

  /** What an attempt ends with: a result, or a pause before the next attempt. */
  datatype Step = Done(result: Outcome<string>) | Retry(sleep: real)

  /** The linear backoff `min(base * attempt + jitter, max)`. */
  function BackoffSleep(cfg: RetryConfig, attempt: int, jitter: real): real {
    MinReal(cfg.baseSleep * (attempt as real) + jitter, cfg.maxSleep)
  }

  /** The state after a request for `url`. */
  function Request(st: SessionState, url: string): SessionState {
    st.(events := st.events + [Requested(url, st.userAgent)], sent := st.sent + 1)
  }

  /** One pass of the attempt loop, up to (not including) its sleep. */
  function Attempt(env: Env, url: string, cfg: RetryConfig, attempt: int, st: SessionState): (Step, SessionState) {
    React(env, cfg, attempt, env.replies(st.sent), Request(st, url))
  }

  /** What the loop does with a reply, from the state right after the request. */
  function React(env: Env, cfg: RetryConfig, attempt: int, reply: Reply, st1: SessionState): (Step, SessionState) {
    match Policy(reply)
    case ReturnBody(body) => (Done(Ok(body)), st1)
    case Fail(status) => (Done(Failed(HttpError(status))), st1)
    case RotateAndWait(drawsJitter) => RotateStep(env, cfg, attempt, drawsJitter, st1)
    case Backoff(lo, hi) => BackoffStep(env, cfg, attempt, lo, hi, st1)
  }

  /** A hard block: rotate, then give up on the last attempt or wait the fixed pause. */
  function RotateStep(env: Env, cfg: RetryConfig, attempt: int, drawsJitter: bool, st1: SessionState): (Step, SessionState) {
    var st2 := RotateState(env, if drawsJitter then UseDraw(st1) else st1);
    (if attempt == cfg.maxTries then Done(Failed(Blocked)) else Retry(BlockSleep), st2)
  }

  /** A soft failure: draw the jitter, then give up on the last attempt or back off. */
  function BackoffStep(env: Env, cfg: RetryConfig, attempt: int, lo: real, hi: real, st1: SessionState): (Step, SessionState)
    requires lo <= hi
  {
    var sleep := BackoffSleep(cfg, attempt, Jitter(lo, hi, NextDraw(env, st1)));
    (if attempt == cfg.maxTries then Done(Failed(Blocked)) else Retry(sleep), UseDraw(st1))
  }

  /** What one attempt does, as a function of the attempt number and the state. */
  type AttemptFn = (int, SessionState) -> (Step, SessionState)

  /** The attempts still allowed from `attempt` on. */
  function AttemptsLeft(maxTries: int, attempt: int): nat {
    if attempt <= maxTries then maxTries - attempt + 1 else 0
  }

  /** The attempt loop `for attempt in range(1, max_tries + 1)` from `attempt` on: an attempt
      that is done ends it, one that retries pauses first; running out of attempts is a block. */
  function Loop(try: AttemptFn, maxTries: int, attempt: int, st: SessionState): (Outcome<string>, SessionState)
    decreases AttemptsLeft(maxTries, attempt)
  {
    if attempt > maxTries then (Failed(Blocked), st)
    else
      var a := try(attempt, st);
      if a.0.Done? then (a.0.result, a.1)
      else Loop(try, maxTries, attempt + 1, SleepFor(a.1, a.0.sleep))
  }

  function AttemptsOf(env: Env, url: string, cfg: RetryConfig): AttemptFn {
    (k: int, st: SessionState) => Attempt(env, url, cfg, k, st)
  }

  /** `fetch_page` from attempt `attempt` on. */
  function FetchRun(env: Env, url: string, cfg: RetryConfig, attempt: int, st: SessionState): (Outcome<string>, SessionState) {
    Loop(AttemptsOf(env, url, cfg), cfg.maxTries, attempt, st)
  }

  /** One iteration of the attempt loop, in the order the source takes its branches. */
  method AttemptOnce(s: Session, url: string, cfg: RetryConfig, attempt: int) returns (step: Step)
    modifies s
    ensures (step, s.State()) == Attempt(s.env, url, cfg, attempt, old(s.State()))
  {
    var reply := s.Get(url);
    step := Respond(s, cfg, attempt, reply);
  }

  /** The body of the attempt loop after the request, branch by branch as the source takes them. */
  method Respond(s: Session, cfg: RetryConfig, attempt: int, reply: Reply) returns (step: Step)
    modifies s
    ensures (step, s.State()) == React(s.env, cfg, attempt, reply, old(s.State()))
  {
    ghost var st1 := s.State();
    if reply.NetworkError? {
      assert Policy(reply) == Backoff(0.5, 5.0);
      ReactIs(s.env, cfg, attempt, reply, st1, BackoffStep(s.env, cfg, attempt, 0.5, 5.0, st1));
      step := OnBackoff(s, cfg, attempt, 0.5, 5.0);
    } else if reply.status == 200 {
      step := Done(Ok(reply.body));
    } else if reply.status in BlockStatuses {
      assert Policy(reply) == RotateAndWait(false);
      ReactIs(s.env, cfg, attempt, reply, st1, RotateStep(s.env, cfg, attempt, false, st1));
      step := OnBlock(s, cfg, attempt);
    } else if reply.status in RedirectStatuses {
      var marked := MarkedLocation(reply.location);
      assert Policy(reply) == if marked then RotateAndWait(true) else Backoff(0.8, 6.0);
      ReactIs(s.env, cfg, attempt, reply, st1,
        if marked then RotateStep(s.env, cfg, attempt, true, st1) else BackoffStep(s.env, cfg, attempt, 0.8, 6.0, st1));
      step := OnRedirect(s, cfg, attempt, marked);
    } else {
      step := Done(Failed(HttpError(reply.status)));
    }
  }

  lemma ReactIs(env: Env, cfg: RetryConfig, attempt: int, reply: Reply, st1: SessionState, r: (Step, SessionState))
    requires match Policy(reply)
      case RotateAndWait(drawsJitter) => r == RotateStep(env, cfg, attempt, drawsJitter, st1)
      case Backoff(lo, hi) => r == BackoffStep(env, cfg, attempt, lo, hi, st1)
      case _ => false
    ensures React(env, cfg, attempt, reply, st1) == r
  {
  }

  /** A network error or timeout. */
  method OnBackoff(s: Session, cfg: RetryConfig, attempt: int, lo: real, hi: real) returns (step: Step)
    requires lo <= hi
    modifies s
    ensures (step, s.State()) == BackoffStep(s.env, cfg, attempt, lo, hi, old(s.State()))
  {
    var u := s.Random();
    var sleep := BackoffSleep(cfg, attempt, Jitter(lo, hi, u));
    if attempt == cfg.maxTries {
      return Done(Failed(Blocked));
    }
    return Retry(sleep);
  }

  /** 401, 403 or 429. */
  method OnBlock(s: Session, cfg: RetryConfig, attempt: int) returns (step: Step)
    modifies s
    ensures (step, s.State()) == RotateStep(s.env, cfg, attempt, false, old(s.State()))
  {
    var _ := RotateUserAgent(s);
    if attempt == cfg.maxTries {
      return Done(Failed(Blocked));
    }
    return Retry(BlockSleep);
  }

  /** A redirect: the backoff is computed first and replaced by the block pause when the
      location is marked. */
  method OnRedirect(s: Session, cfg: RetryConfig, attempt: int, marked: bool) returns (step: Step)
    modifies s
    ensures (step, s.State()) ==
      if marked then RotateStep(s.env, cfg, attempt, true, old(s.State()))
      else BackoffStep(s.env, cfg, attempt, 0.8, 6.0, old(s.State()))
  {
    var u := s.Random();
    var sleep := BackoffSleep(cfg, attempt, Jitter(0.8, 6.0, u));
    if marked {
      var _ := RotateUserAgent(s);
      sleep := BlockSleep;
    }
    if attempt == cfg.maxTries {
      return Done(Failed(Blocked));
    }
    return Retry(sleep);
  }

  /** `fetch_page(session, url, max_tries=, base_sleep_s=, max_sleep_s=)`. */
  method FetchPage(s: Session, url: string, cfg: RetryConfig) returns (r: Outcome<string>)
    modifies s
    ensures (r, s.State()) == FetchRun(s.env, url, cfg, 1, old(s.State()))
  {
    var attempt := 1;
    while attempt <= cfg.maxTries
      invariant FetchRun(s.env, url, cfg, attempt, s.State()) == FetchRun(s.env, url, cfg, 1, old(s.State()))
      decreases cfg.maxTries - attempt + 1
    {
      var step := AttemptOnce(s, url, cfg, attempt);
      if step.Done? {
        return step.result;
      }
      s.Sleep(step.sleep);
      attempt := attempt + 1;
    }
    r := Failed(Blocked);
  }

  // ---------------------------------------------------------------------
  // Properties of the retry loop
  // ---------------------------------------------------------------------

  /** The policy, status by status. */
  lemma PolicyTable(reply: Reply)
    ensures Policy(reply).ReturnBody? <==> reply.Response? && reply.status == 200
    ensures Policy(reply).ReturnBody? ==> Policy(reply).body == reply.body
    ensures Policy(reply).Fail? ==> Policy(reply).status == reply.status
    ensures Policy(reply).RotateAndWait? <==> (reply.Response? && reply.status != 200
      && (reply.status in BlockStatuses || (reply.status in RedirectStatuses && MarkedLocation(reply.location))))
    ensures Policy(reply).RotateAndWait? ==> (Policy(reply).drawsJitter <==> reply.status !in BlockStatuses)
    ensures Policy(reply).Backoff? <==> (reply.NetworkError?
      || (reply.status in RedirectStatuses && reply.status !in BlockStatuses && !MarkedLocation(reply.location)))
    ensures reply.NetworkError? ==> Policy(reply) == Backoff(0.5, 5.0)
    ensures reply.Response? && Policy(reply).Backoff? ==> Policy(reply) == Backoff(0.8, 6.0)
    ensures Policy(reply).Fail? <==> (reply.Response? && reply.status != 200
      && reply.status !in BlockStatuses && reply.status !in RedirectStatuses)
  {
  }

  /** One attempt sends exactly one request; it rotates the user agent exactly when the policy
      says so, to another agent of the pool, and then pauses the fixed minute; a backoff pause is
      `min(base * attempt + jitter, max)` with the jitter in the policy's range; on the last
      attempt every retryable reply gives up instead of pausing. */
  lemma AttemptEffects(env: Env, url: string, cfg: RetryConfig, attempt: int, st: SessionState)
    ensures var (step, st1) := Attempt(env, url, cfg, attempt, st);
      var a := Policy(env.replies(st.sent));
      var giveUp := attempt == cfg.maxTries && (a.RotateAndWait? || a.Backoff?);
      st1.sent == st.sent + 1
      && (a.RotateAndWait? ==>
            st1.events == st.events + [Requested(url, st.userAgent), Rotated(st1.userAgent)]
            && st1.userAgent in UserAgentPool && st1.userAgent != st.userAgent
            && (!giveUp ==> step == Retry(BlockSleep)))
      && (!a.RotateAndWait? ==>
            st1.events == st.events + [Requested(url, st.userAgent)] && st1.userAgent == st.userAgent)
      && (a.Backoff? && !giveUp ==>
            step.Retry? && exists j :: a.lo <= j < a.hi && step.sleep == BackoffSleep(cfg, attempt, j))
      && (giveUp ==> step == Done(Failed(Blocked)))
      && (a.ReturnBody? ==> step == Done(Ok(a.body)))
      && (a.Fail? ==> step == Done(Failed(HttpError(a.status))))
  {
    var reply := env.replies(st.sent);
    var st1 := Request(st, url);
    match Policy(reply)
    case RotateAndWait(drawsJitter) =>
      RotationChangesAgent(env, if drawsJitter then UseDraw(st1) else st1);
    case Backoff(lo, hi) =>
      var j := Jitter(lo, hi, NextDraw(env, st1));
      assert lo <= j < hi;
    case _ =>
  }

  /** A 200 on the first request returns its body at once: one request, no rotation, no
      pause. */
  lemma FirstReplyOk(env: Env, url: string, cfg: RetryConfig, st: SessionState)
    requires cfg.maxTries >= 1
    requires env.replies(st.sent).Response? && env.replies(st.sent).status == 200
    ensures FetchRun(env, url, cfg, 1, st) == (Ok(env.replies(st.sent).body), Request(st, url))
  {
    PolicyTable(env.replies(st.sent));
  }

  /** A pause `fetch_page` may take: the block minute, or a backoff no longer than the cap and,
      for a non-negative base, no shorter than the smallest jitter. */
  predicate AllowedSleep(cfg: RetryConfig, seconds: real) {
    seconds == BlockSleep
    || (seconds <= cfg.maxSleep && (cfg.baseSleep >= 0.0 ==> seconds >= MinReal(0.5, cfg.maxSleep)))
  }

  /** Events after position `from` that are pauses are allowed ones. */
  predicate SleepsAllowedFrom(cfg: RetryConfig, events: seq<Event>, from: nat) {
    forall i :: from <= i < |events| && events[i].Slept? ==> AllowedSleep(cfg, events[i].seconds)
  }

  lemma BackoffAllowed(cfg: RetryConfig, attempt: int, j: real)
    requires attempt >= 1 && j >= 0.5
    ensures AllowedSleep(cfg, BackoffSleep(cfg, attempt, j))
  {
    if cfg.baseSleep >= 0.0 {
      assert cfg.baseSleep * (attempt as real) >= 0.0;
    }
  }

  /** What every attempt guarantees, from the state `st` it starts in to its result `a`: one
      request; new events after the old ones, none of them a pause and the last of them a
      request or rotation; only allowed pauses asked for; a block only on the last attempt; a
      body only from a 200 reply and an HTTP error only from a reply the policy does not retry. */
  predicate AttemptKeeps(env: Env, cfg: RetryConfig, k: int, st: SessionState, a: (Step, SessionState)) {
    var step := a.0;
    var st1 := a.1;
    var reply := env.replies(st.sent);
    st1.sent == st.sent + 1
    && |st.events| < |st1.events| && st1.events[..|st.events|] == st.events
    && (forall i :: |st.events| <= i < |st1.events| ==> !st1.events[i].Slept?)
    && (step.Retry? ==> AllowedSleep(cfg, step.sleep) && k != cfg.maxTries)
    && (step == Done(Failed(Blocked)) ==> k == cfg.maxTries)
    && (step.Done? && step.result.Failed? ==> step.result.error.Blocked? || step.result.error.HttpError?)
    && (step.Done? && step.result.Ok? ==>
          reply.Response? && reply.status == 200 && reply.body == step.result.value)
    && (step.Done? && step.result.Failed? && step.result.error.HttpError? ==>
          Policy(reply) == Fail(step.result.error.status))
  }

  ghost predicate AttemptContract(try: AttemptFn, env: Env, cfg: RetryConfig) {
    forall k: int, st: SessionState :: k >= 1 ==> AttemptKeeps(env, cfg, k, st, try(k, st))
  }

  /** The attempts of `fetch_page` keep the contract. */
  lemma AttemptsKeepContract(env: Env, url: string, cfg: RetryConfig)
    ensures AttemptContract(AttemptsOf(env, url, cfg), env, cfg)
  {
    forall k: int, st: SessionState | k >= 1
      ensures AttemptKeeps(env, cfg, k, st, AttemptsOf(env, url, cfg)(k, st))
    {
      AttemptKept(env, url, cfg, k, st);
    }
  }

  lemma AttemptKept(env: Env, url: string, cfg: RetryConfig, k: int, st: SessionState)
    requires k >= 1
    ensures AttemptKeeps(env, cfg, k, st, Attempt(env, url, cfg, k, st))
  {
    var a := Attempt(env, url, cfg, k, st);
    AttemptEffects(env, url, cfg, k, st);
    PolicyTable(env.replies(st.sent));
    var p := Policy(env.replies(st.sent));
    if a.0.Retry? && p.Backoff? {
      var j :| p.lo <= j < p.hi && a.0.sleep == BackoffSleep(cfg, k, j);
      BackoffAllowed(cfg, k, j);
    }
  }

  /** The loop sends at most one request per remaining attempt, and reports a block only after
      using every attempt. */
  lemma {:induction false} LoopRequests(try: AttemptFn, env: Env, cfg: RetryConfig, attempt: int, st: SessionState)
    requires attempt >= 1 && AttemptContract(try, env, cfg)
    ensures var r := Loop(try, cfg.maxTries, attempt, st);
      st.sent <= r.1.sent <= st.sent + AttemptsLeft(cfg.maxTries, attempt)
      && (r.0.Failed? ==> r.0.error.Blocked? || r.0.error.HttpError?)
      && (r.0 == Failed(Blocked) ==> r.1.sent == st.sent + AttemptsLeft(cfg.maxTries, attempt))
    decreases AttemptsLeft(cfg.maxTries, attempt)
  {
    if attempt <= cfg.maxTries {
      var a := try(attempt, st);
      assert AttemptKeeps(env, cfg, attempt, st, a);
      if a.0.Retry? {
        LoopRequests(try, env, cfg, attempt + 1, SleepFor(a.1, a.0.sleep));
      }
    }
  }

  /** Run from `st` to `r`, a returned body is that of a 200 reply to the last request, and an
      HTTP error comes from a last reply that the policy does not retry. */
  predicate FromLastReply(env: Env, st: SessionState, r: (Outcome<string>, SessionState)) {
    (r.0.Ok? ==> (r.1.sent > st.sent
      && var last := env.replies(r.1.sent - 1); last.Response? && last.status == 200 && last.body == r.0.value))
    && (r.0.Failed? && r.0.error.HttpError? ==> (r.1.sent > st.sent
      && Policy(env.replies(r.1.sent - 1)) == Fail(r.0.error.status)))
  }

  /** A body the loop returns is that of a 200 reply to its last request; an HTTP error comes
      from a last reply the policy does not retry. */
  lemma {:induction false} LoopResult(try: AttemptFn, env: Env, cfg: RetryConfig, attempt: int, st: SessionState)
    requires attempt >= 1 && AttemptContract(try, env, cfg)
    ensures FromLastReply(env, st, Loop(try, cfg.maxTries, attempt, st))
    decreases AttemptsLeft(cfg.maxTries, attempt)
  {
    if attempt <= cfg.maxTries {
      var a := try(attempt, st);
      assert AttemptKeeps(env, cfg, attempt, st, a);
      if a.0.Retry? {
        var st2 := SleepFor(a.1, a.0.sleep);
        LoopResult(try, env, cfg, attempt + 1, st2);
        LoopRequests(try, env, cfg, attempt + 1, st2);
      }
    }
  }

  lemma SleepsAllowedExtend(cfg: RetryConfig, pre: seq<Event>, mid: seq<Event>, events: seq<Event>)
    requires |pre| <= |mid| <= |events| && events[..|mid|] == mid
    requires SleepsAllowedFrom(cfg, mid, |pre|) && SleepsAllowedFrom(cfg, events, |mid|)
    ensures SleepsAllowedFrom(cfg, events, |pre|)
  {
    forall i | |pre| <= i < |events| && events[i].Slept?
      ensures AllowedSleep(cfg, events[i].seconds)
    {
      if i < |mid| {
        assert events[i] == mid[i];
      }
    }
  }

  lemma PrefixTrans<T>(a: seq<T>, b: seq<T>, c: seq<T>)
    requires |a| <= |b| <= |c| && b[..|a|] == a && c[..|b|] == b
    ensures c[..|a|] == a
  {
    assert c[..|a|] == c[..|b|][..|a|];
  }

  /** `events` extends `before`, every pause added is an allowed one, and when `ran` something
      was added and the last addition is not a pause. */
  predicate LogExtended(cfg: RetryConfig, before: seq<Event>, events: seq<Event>, ran: bool) {
    |before| <= |events| && events[..|before|] == before
    && SleepsAllowedFrom(cfg, events, |before|)
    && (ran ==> |events| > |before| && !events[|events| - 1].Slept?)
  }

  /** The loop only appends to the log; every pause it takes is an allowed one; and when it runs
      at all its last event is a request or a rotation, never a pause. */
  lemma {:induction false} LoopEvents(try: AttemptFn, env: Env, cfg: RetryConfig, attempt: int, st: SessionState)
    requires attempt >= 1 && AttemptContract(try, env, cfg)
    ensures LogExtended(cfg, st.events, Loop(try, cfg.maxTries, attempt, st).1.events, attempt <= cfg.maxTries)
    decreases AttemptsLeft(cfg.maxTries, attempt)
  {
    if attempt <= cfg.maxTries {
      var a := try(attempt, st);
      assert AttemptKeeps(env, cfg, attempt, st, a);
      if a.0.Retry? {
        var st2 := SleepFor(a.1, a.0.sleep);
        LoopEvents(try, env, cfg, attempt + 1, st2);
        var st3 := Loop(try, cfg.maxTries, attempt + 1, st2).1;
        assert st2.events[..|st.events|] == st.events;
        assert SleepsAllowedFrom(cfg, st2.events, |st.events|);
        SleepsAllowedExtend(cfg, st.events, st2.events, st3.events);
        PrefixTrans(st.events, st2.events, st3.events);
      } else {
        assert !a.1.events[|a.1.events| - 1].Slept?;
      }
    }
  }

  /** `fetch_page` makes at most `max_tries` requests, and gives up with a block only after
      all of them; it fails only with a block or an HTTP error. */
  lemma FetchRequests(env: Env, url: string, cfg: RetryConfig, st: SessionState)
    ensures var r := FetchRun(env, url, cfg, 1, st);
      var n := AttemptsLeft(cfg.maxTries, 1);
      st.sent <= r.1.sent <= st.sent + n
      && (r.0.Failed? ==> r.0.error.Blocked? || r.0.error.HttpError?)
      && (r.0 == Failed(Blocked) ==> r.1.sent == st.sent + n)
  {
    AttemptsKeepContract(env, url, cfg);
    LoopRequests(AttemptsOf(env, url, cfg), env, cfg, 1, st);
  }

  /** `fetch_page` returns the body of a 200 reply to its last request, and fails with an HTTP
      error only for a last reply that the policy does not retry. */
  lemma FetchResult(env: Env, url: string, cfg: RetryConfig, st: SessionState)
    ensures FromLastReply(env, st, FetchRun(env, url, cfg, 1, st))
  {
    AttemptsKeepContract(env, url, cfg);
    LoopResult(AttemptsOf(env, url, cfg), env, cfg, 1, st);
  }

  /** `fetch_page` only appends its own events to the log, its pauses are allowed ones, and the
      last thing it does is never a pause. */
  lemma FetchEvents(env: Env, url: string, cfg: RetryConfig, st: SessionState)
    ensures LogExtended(cfg, st.events, FetchRun(env, url, cfg, 1, st).1.events, cfg.maxTries >= 1)
  {
    AttemptsKeepContract(env, url, cfg);
    LoopEvents(AttemptsOf(env, url, cfg), env, cfg, 1, st);
  }

  // ---------------------------------------------------------------------
  // URL builders
  // ---------------------------------------------------------------------

  /** The fields of `AvitoClientConfig` the client logic reads; the request timeout and the
      initial `User-Agent` header belong to the session. */
  datatype ClientConfig = ClientConfig(citySlug: string, maxPages: int, pageDelay: int)

  /** `_is_url(source)`: trimmed and lower-cased, the source starts with an http or https scheme. */
  predicate IsUrl(source: string) {
    var s := Lower(Strip(source));
    StartsWith(s, "http://") || StartsWith(s, "https://")
  }

  /** A source that is an http or https URL in lower case, padded with whitespace, is paged as
      a category URL. */
  lemma UrlSourceRecognised(lead: string, url: string, trail: string)
    requires StartsWith(url, "http://") || StartsWith(url, "https://")
    requires !IsSpace(url[|url| - 1])
    requires forall i :: 0 <= i < |lead| ==> IsSpace(lead[i])
    requires forall i :: 0 <= i < |trail| ==> IsSpace(trail[i])
    ensures IsUrl(lead + url + trail)
  {
    StripPadded(lead, url, trail);
    LowerHttpScheme(url);
    IsUrlFrom(lead + url + trail, url);
  }

  lemma LowerHttpScheme(url: string)
    requires StartsWith(url, "http://") || StartsWith(url, "https://")
    ensures StartsWith(Lower(url), "https://") || StartsWith(Lower(url), "http://")
  {
    if StartsWith(url, "https://") {
      LowerPrefix(url, "https://");
    } else {
      LowerPrefix(url, "http://");
    }
  }

  lemma IsUrlFrom(source: string, url: string)
    requires Strip(source) == url
    requires StartsWith(Lower(url), "https://") || StartsWith(Lower(url), "http://")
    ensures IsUrl(source)
  {
  }

  lemma LowerPrefix(s: string, p: string)
    requires StartsWith(s, p) && forall i :: 0 <= i < |p| ==> Unchanged(p[i])
    ensures StartsWith(Lower(s), p)
  {
    LowerUnchanged(p);
    assert Lower(s)[..|p|] == Lower(s[..|p|]);
  }

  /** `urlunsplit` of the split URL with its query replaced by the encoding of `d`. */
  function WithQuery(parts: Parts, d: Dict): string {
    Unsplit(parts.(query := Urlencode(d)))
  }

  function SearchBase(citySlug: string): string {
    "https://www.avito.ru" + CityPath(citySlug)
  }

  /** The laptop category of a city. */
  function CityPath(citySlug: string): string {
    "/" + citySlug + "/noutbuki"
  }

  /** The search parameters, assigned in the source's order over the base query. */
  function SearchQuery(base: Dict, query: string, page: int): Dict {
    SetKey(SetKey(SetKey(SetKey(SetKey(base, "cd", "1"), "s", "104"), "localPriority", "0"), "q", query),
      "p", IntToString(page))
  }

  /** `build_search_url(query, page)`; `None` where `urlsplit` raises. `unquote` stands for
      `urllib.parse.unquote`. */
  function BuildSearchUrl(citySlug: string, query: string, page: int, unquote: string -> string): Option<string> {
    match Split(SearchBase(citySlug))
    case None => None
    case Some(parts) => Some(WithQuery(parts, SearchQuery(DictOf(ParseQsl(parts.query, unquote)), query, page)))
  }

  /** `build_category_url(category_url, page)`: only `p` is set. */
  function BuildCategoryUrl(categoryUrl: string, page: int, unquote: string -> string): Option<string> {
    match Split(Strip(categoryUrl))
    case None => None
    case Some(parts) => Some(WithQuery(parts, SetKey(DictOf(ParseQsl(parts.query, unquote)), "p", IntToString(page))))
  }

  /** `build_source_url(source, page)`: a URL is paged as a category, anything else is a search
      text. */
  function BuildSourceUrl(ccfg: ClientConfig, source: string, page: int, unquote: string -> string): Option<string> {
    if IsUrl(source) then BuildCategoryUrl(source, page, unquote)
    else BuildSearchUrl(ccfg.citySlug, source, page, unquote)
  }

  /** The query a search URL carries for a city slug that has no query or fragment of its own. */
  function SearchPairs(query: string, page: int): Dict {
    [("cd", "1"), ("s", "104"), ("localPriority", "0"), ("q", query), ("p", IntToString(page))]
  }

  /** A city slug that stays inside the path of the base URL. */
  predicate PathSafe(citySlug: string) {
    NoUnsafe(citySlug) && NoChar(citySlug, '?') && NoChar(citySlug, '#')
  }

  /** The search base splits into the https scheme, the Avito host, the laptop category path of
      the city, and no query or fragment. */
  lemma SearchBaseSplit(citySlug: string)
    requires PathSafe(citySlug)
    ensures Split(SearchBase(citySlug)) == Some(Parts("https", "www.avito.ru", CityPath(citySlug), "", ""))
  {
    var tail := CityPath(citySlug);
    var u := SearchBase(citySlug);
    assert NoUnsafe(u) && u[0] == 'h' by { BaseClean(citySlug); }
    assert SplitScheme(u) == ("https", "//www.avito.ru" + tail) by { BaseScheme(citySlug); }
    assert SplitNetloc("//www.avito.ru" + tail) == ("www.avito.ru", tail) by { BaseNetloc(tail); }
    assert SplitAt(tail, '#') == (tail, "") && SplitAt(tail, '?') == (tail, "") by { TailPlain(citySlug); }
    assert !BracketsUnbalanced("www.avito.ru") by { HostBalanced(); }
    SplitPlain(u, ("https", "//www.avito.ru" + tail), ("www.avito.ru", tail), (tail, ""), (tail, ""));
  }

  lemma SplitPlain(u: string, sr: (string, string), nr: (string, string), fr: (string, string), qr: (string, string))
    requires NoUnsafe(u) && |u| > 0 && !IsC0OrSpace(u[0]) && SplitScheme(u) == sr && SplitNetloc(sr.1) == nr
    requires SplitAt(nr.1, '#') == fr && SplitAt(fr.0, '?') == qr && !BracketsUnbalanced(nr.0)
    ensures Split(u) == Some(Parts(sr.0, nr.0, qr.0, qr.1, fr.1))
  {
    CleanKeeps(u);
    SplitFromSteps(u, sr, nr, fr, qr);
  }

  lemma HostBalanced()
    ensures !BracketsUnbalanced("www.avito.ru")
  {
    HostChars();
    NoBrackets("www.avito.ru");
  }

  lemma HostChars()
    ensures forall i :: 0 <= i < |"www.avito.ru"| ==> "www.avito.ru"[i] != '[' && "www.avito.ru"[i] != ']'
  {
  }

  /** A host without square brackets passes the bracket check. */
  lemma NoBrackets(h: string)
    requires forall i :: 0 <= i < |h| ==> h[i] != '[' && h[i] != ']'
    ensures !BracketsUnbalanced(h)
  {
    NotContainsChar(h, '[');
    NotContainsChar(h, ']');
  }

  lemma BaseClean(citySlug: string)
    requires PathSafe(citySlug)
    ensures NoUnsafe(SearchBase(citySlug)) && SearchBase(citySlug)[0] == 'h'
  {
    NoUnsafeConcat("/", citySlug);
    NoUnsafeConcat("/" + citySlug, "/noutbuki");
    NoUnsafeConcat("https://www.avito.ru", CityPath(citySlug));
  }

  lemma BaseScheme(citySlug: string)
    ensures SplitScheme(SearchBase(citySlug)) == ("https", "//www.avito.ru" + CityPath(citySlug))
  {
    var u := SearchBase(citySlug);
    FindCharAt(u, ':', 5);
    assert u[..5] == "https";
    LowerKeepsScheme("https");
    assert u[6..] == "//www.avito.ru" + CityPath(citySlug);
  }

  lemma BaseNetloc(tail: string)
    requires |tail| > 0 && tail[0] == '/'
    ensures SplitNetloc("//www.avito.ru" + tail) == ("www.avito.ru", tail)
  {
    var rest := "//www.avito.ru" + tail;
    DelimAt(rest, 14);
    assert rest[2..14] == "www.avito.ru" && rest[14..] == tail;
  }

  lemma TailPlain(citySlug: string)
    requires PathSafe(citySlug)
    ensures var tail := CityPath(citySlug); SplitAt(tail, '#') == (tail, "") && SplitAt(tail, '?') == (tail, "")
  {
    NoCharConcat("/", citySlug, '#');
    NoCharConcat("/" + citySlug, "/noutbuki", '#');
    NoCharConcat("/", citySlug, '?');
    NoCharConcat("/" + citySlug, "/noutbuki", '?');
    FindCharNone(CityPath(citySlug), '#');
    FindCharNone(CityPath(citySlug), '?');
  }

  /** A search URL for a path-safe city slug is the laptop category of that city on the Avito
      host, and its query reads back as exactly the five search parameters in order: `cd=1`,
      `s=104`, `localPriority=0`, the text and the page. */
  lemma SearchUrlShape(citySlug: string, query: string, page: int, unquote: string -> string)
    requires PathSafe(citySlug) && Inverts(unquote)
    ensures BuildSearchUrl(citySlug, query, page, unquote).Some?
    ensures var p := Split(BuildSearchUrl(citySlug, query, page, unquote).value);
      p == Some(Parts("https", "www.avito.ru", CityPath(citySlug), Urlencode(SearchPairs(query, page)), ""))
      && ParseQsl(p.value.query, unquote) == SearchPairs(query, page)
  {
    var parts := Parts("https", "www.avito.ru", CityPath(citySlug), "", "");
    var d := SearchPairs(query, page);
    assert BuildSearchUrl(citySlug, query, page, unquote) == Some(WithQuery(parts, d)) by {
      SearchBaseSplit(citySlug);
      EmptyQuery(unquote);
      SearchPairsFromEmpty(query, page);
    }
    assert Split(WithQuery(parts, d)) == Some(parts.(query := Urlencode(d))) by {
      SearchBaseSplit(citySlug);
      QueryReplaced(SearchBase(citySlug), parts, d);
    }
    ParseQslUrlencode(d, unquote);
  }

  lemma EmptyQuery(unquote: string -> string)
    ensures ParseQsl("", unquote) == []
  {
    assert SplitOn("", '&') == [""];
  }

  lemma SearchPairsFromEmpty(query: string, page: int)
    ensures SearchQuery(DictOf([]), query, page) == SearchPairs(query, page)
  {
    var d1 := SetKey([], "cd", "1");
    assert d1 == [("cd", "1")];
    var d2 := SetKey(d1, "s", "104");
    assert d1[0].0 != "s" && d1[1..] == [];
    assert d2 == [("cd", "1"), ("s", "104")];
    var d3 := SetKey(d2, "localPriority", "0");
    SetKeyNew(d2, "localPriority", "0");
    var d4 := SetKey(d3, "q", query);
    SetKeyNew(d3, "q", query);
    SetKeyNew(d4, "p", IntToString(page));
  }

  /** Assigning a key the dictionary does not hold appends it. */
  lemma SetKeyNew(d: Dict, k: string, v: string)
    requires forall i :: 0 <= i < |d| ==> d[i].0 != k
    ensures SetKey(d, k, v) == d + [(k, v)]
  {
    if |d| > 0 {
      SetKeyNew(d[1..], k, v);
      assert [d[0]] + (d[1..] + [(k, v)]) == d + [(k, v)];
    }
  }

  lemma QueryReplaced(url: string, parts: Parts, d: Dict)
    requires Split(url) == Some(parts) && parts.netloc != ""
    ensures Split(WithQuery(parts, d)) == Some(parts.(query := Urlencode(d)))
  {
    ReplaceQuery(url, d);
  }

  /** Paging a category URL that has a host keeps its scheme, host, path and fragment; in the
      new query `p` is the page number, every other parameter keeps the last value the old
      query gave it, and the parameters keep their order with `p` last when it was not there. */
  lemma CategoryUrlPaged(categoryUrl: string, page: int, unquote: string -> string, other: string)
    requires Split(Strip(categoryUrl)).Some? && Split(Strip(categoryUrl)).value.netloc != ""
    requires Inverts(unquote)
    ensures BuildCategoryUrl(categoryUrl, page, unquote).Some?
    ensures var parts := Split(Strip(categoryUrl)).value;
      var old_ := DictOf(ParseQsl(parts.query, unquote));
      var p := Split(BuildCategoryUrl(categoryUrl, page, unquote).value);
      p.Some? && p.value.(query := parts.query) == parts
      && var q := ParseQsl(p.value.query, unquote);
      Get(q, "p") == Some(IntToString(page))
      && (other != "p" ==> Get(q, other) == LastValue(ParseQsl(parts.query, unquote), other))
      && Keys(q) == (if "p" in Keys(old_) then Keys(old_) else Keys(old_) + ["p"])
  {
    var parts := Split(Strip(categoryUrl)).value;
    var pairs := ParseQsl(parts.query, unquote);
    var d := SetKey(DictOf(pairs), "p", IntToString(page));
    ReplaceQuery(Strip(categoryUrl), d);
    ParseQslUrlencode(d, unquote);
    SetKeyCharacterised(DictOf(pairs), "p", IntToString(page), other);
    DictOfGet(pairs, other);
  }

  // ---------------------------------------------------------------------
  // Page markers
  // ---------------------------------------------------------------------

  const ProtectionMarkers: seq<string> := [
    "captcha", "recaptcha", "hcaptcha", "проверка безопасности", "подтвердите, что вы человек",
    "мы обнаружили подозрительную активность", "доступ ограничен", "robot check", "anti-bot",
    "проверка на робота"
  ]

  const EmptyResultMarkers: seq<string> := [
    "ничего не найдено", "по вашему запросу ничего не найдено", "объявлений не найдено",
    "нет объявлений", "попробуйте изменить параметры поиска"
  ]

  /** `_looks_like_protection(html_text)`. */
  predicate LooksLikeProtection(html: string) {
    AnyIn(ProtectionMarkers, Lower(html))
  }

  /** `_looks_like_empty_results(html_text)`. */
  predicate LooksLikeEmptyResults(html: string) {
    AnyIn(EmptyResultMarkers, Lower(html))
  }

  /** Lower-casing keeps every occurrence of a lower-case text. */
  lemma ContainsLower(s: string, m: string)
    requires Contains(s, m) && Lower(m) == m
    ensures Contains(Lower(s), m)
  {
    var k := Find(s, m);
    assert Lower(s)[k..k + |m|] == Lower(s[k..k + |m|]);
    ContainsAt(Lower(s), m, k);
  }

  /** Characters lower-casing leaves alone: lower-case ASCII and Cyrillic letters and
      punctuation. */
  predicate Unchanged(c: char) {
    'a' <= c <= 'z' || '\U{430}' <= c <= '\U{44f}' || c == ' ' || c == ',' || c == '-' || c == ':' || c == '/'
  }

  lemma LowerUnchanged(m: string)
    requires forall i :: 0 <= i < |m| ==> Unchanged(m[i])
    ensures Lower(m) == m
  {
  }

  lemma ProtectionMarkersLower(i: int)
    requires 0 <= i < |ProtectionMarkers|
    ensures Lower(ProtectionMarkers[i]) == ProtectionMarkers[i]
  {
    var m := ProtectionMarkers[i];
    MarkerUnchanged(m, i);
    LowerUnchanged(m);
  }

  /** Every character of each protection marker is left alone by lower-casing. */
  lemma MarkerUnchanged(m: string, i: int)
    requires 0 <= i < |ProtectionMarkers| && m == ProtectionMarkers[i]
    ensures forall j :: 0 <= j < |m| ==> Unchanged(m[j])
  {
    if i < 3 || 6 <= i < 9 {
      ShortMarkerUnchanged(m, i);
    } else {
      LongMarkerUnchanged(m, i);
    }
  }

  lemma ShortMarkerUnchanged(m: string, i: int)
    requires (0 <= i < 3 || 6 <= i < 9) && m == ProtectionMarkers[i]
    ensures forall j :: 0 <= j < |m| ==> Unchanged(m[j])
  {
    if i == 0 { assert m == "captcha"; }
    else if i == 1 { assert m == "recaptcha"; }
    else if i == 2 { assert m == "hcaptcha"; }
    else if i == 6 { assert m == "доступ ограничен"; }
    else if i == 7 { assert m == "robot check"; }
    else { assert m == "anti-bot"; }
  }

  lemma LongMarkerUnchanged(m: string, i: int)
    requires (3 <= i < 6 || i == 9) && m == ProtectionMarkers[i]
    ensures forall j :: 0 <= j < |m| ==> Unchanged(m[j])
  {
    if i == 3 { assert m == "проверка безопасности"; SafetyCheckUnchanged(); }
    else if i == 4 { assert m == "подтвердите, что вы человек"; ConfirmHumanUnchanged(); }
    else if i == 5 { assert m == "мы обнаружили подозрительную активность"; SuspiciousUnchanged(); }
    else { assert m == "проверка на робота"; RobotCheckUnchanged(); }
  }

  lemma SafetyCheckUnchanged()
    ensures forall j :: 0 <= j < |"проверка безопасности"| ==> Unchanged("проверка безопасности"[j])
  {
  }

  lemma ConfirmHumanUnchanged()
    ensures forall j :: 0 <= j < |"подтвердите, что вы человек"| ==> Unchanged("подтвердите, что вы человек"[j])
  {
  }

  lemma SuspiciousUnchanged()
    ensures forall j :: 0 <= j < |"мы обнаружили подозрительную активность"| ==>
      Unchanged("мы обнаружили подозрительную активность"[j])
  {
  }

  lemma RobotCheckUnchanged()
    ensures forall j :: 0 <= j < |"проверка на робота"| ==> Unchanged("проверка на робота"[j])
  {
  }

  lemma EmptyResultMarkersLower(i: int)
    requires 0 <= i < |EmptyResultMarkers|
    ensures Lower(EmptyResultMarkers[i]) == EmptyResultMarkers[i]
  {
    var m := EmptyResultMarkers[i];
    EmptyMarkerUnchanged(m, i);
    LowerUnchanged(m);
  }

  /** Every character of each empty-result marker is left alone by lower-casing. */
  lemma EmptyMarkerUnchanged(m: string, i: int)
    requires 0 <= i < |EmptyResultMarkers| && m == EmptyResultMarkers[i]
    ensures forall j :: 0 <= j < |m| ==> Unchanged(m[j])
  {
    if i == 0 { assert m == "ничего не найдено"; }
    else if i == 1 { assert m == "по вашему запросу ничего не найдено"; }
    else if i == 2 { assert m == "объявлений не найдено"; }
    else if i == 3 { assert m == "нет объявлений"; }
    else { assert m == "попробуйте изменить параметры поиска"; }
  }

  /** A page that carries a protection marker is flagged, and the verdict does not depend on
      letter case: two pages equal up to case get the same verdict. */
  lemma ProtectionDetected(html: string, other: string, i: int)
    requires 0 <= i < |ProtectionMarkers| && Contains(html, ProtectionMarkers[i])
    ensures LooksLikeProtection(html)
    ensures Lower(other) == Lower(html) ==> LooksLikeProtection(other)
  {
    ProtectionMarkersLower(i);
    ContainsLower(html, ProtectionMarkers[i]);
  }

  /** A page that carries an empty-result marker is recognised, whatever the case of the page. */
  lemma EmptyResultsDetected(html: string, other: string, i: int)
    requires 0 <= i < |EmptyResultMarkers| && Contains(html, EmptyResultMarkers[i])
    ensures LooksLikeEmptyResults(html)
    ensures Lower(other) == Lower(html) ==> LooksLikeEmptyResults(other)
  {
    EmptyResultMarkersLower(i);
    ContainsLower(html, EmptyResultMarkers[i]);
  }

  // ---------------------------------------------------------------------
  // fetch_page_cards_in_session and fetch_pages
  // ---------------------------------------------------------------------

  /** Code the client calls but this model does not contain: `urllib.parse.unquote`, the lxml
      query that finds the card nodes of a page, and the decoders the parser uses. */
  datatype Library = Library(unquote: string -> string, cardNodes: string -> seq<CardNode>, dec: Decoders)

  /** `parse_catalog_page` as the client calls it. */
  function CardsOf(lib: Library): string -> seq<ParsedCard> {
    html => CatalogCards(html, lib.cardNodes(html), lib.dec)
  }

  /** What a fetched page yields: a protection page is an error, any other page its cards. */
  function PageOutcome(fetched: Outcome<string>, page: int, parse: string -> seq<ParsedCard>): Outcome<seq<ParsedCard>> {
    match fetched
    case Failed(e) => Failed(e)
    case Ok(html) =>
      if LooksLikeProtection(html) then Failed(ProtectionPage(page))
      else Ok(parse(html))
  }

  /** `fetch_page_cards_in_session(session, source, page)`. */
  function PageCards(env: Env, ccfg: ClientConfig, lib: Library, source: string, page: int, st: SessionState)
    : (Outcome<seq<ParsedCard>>, SessionState)
  {
    match BuildSourceUrl(ccfg, source, page, lib.unquote)
    case None => (Failed(InvalidUrl), st)
    case Some(url) =>
      var r := FetchRun(env, url, DefaultRetry, 1, st);
      (PageOutcome(r.0, page, CardsOf(lib)), r.1)
  }

  method FetchPageCardsInSession(s: Session, ccfg: ClientConfig, lib: Library, source: string, page: int)
    returns (r: Outcome<seq<ParsedCard>>)
    modifies s
    ensures (r, s.State()) == PageCards(s.env, ccfg, lib, source, page, old(s.State()))
  {
    var url := BuildSourceUrl(ccfg, source, page, lib.unquote);
    if url.None? {
      return Failed(InvalidUrl);
    }
    var html := FetchPage(s, url.value, DefaultRetry);
    if html.Failed? {
      return Failed(html.error);
    }
    if LooksLikeProtection(html.value) {
      return Failed(ProtectionPage(page));
    }
    var cards := ParseCatalogPage(html.value, lib.cardNodes(html.value), lib.dec);
    assert cards == CardsOf(lib)(html.value);
    return Ok(cards);
  }

  /** Whether the URL of a source can be built does not depend on the page. */
  lemma SourceUrlValidity(ccfg: ClientConfig, source: string, page: int, other: int, unquote: string -> string)
    ensures BuildSourceUrl(ccfg, source, page, unquote).None? == BuildSourceUrl(ccfg, source, other, unquote).None?
  {
  }

  /** What one page fetch `r`, from state `st`, can have done: cards come from a 200 reply to
      the last request that is not a protection page, and are that page's parsed cards; a
      protection error names the page and comes from a 200 reply that carries a marker. */
  predicate PageFromLastReply(env: Env, parse: string -> seq<ParsedCard>, page: int, st: SessionState, r: (Outcome<seq<ParsedCard>>, SessionState)) {
    (r.0.Ok? ==> (r.1.sent > st.sent
      && var last := env.replies(r.1.sent - 1);
      last.Response? && last.status == 200 && !LooksLikeProtection(last.body)
      && r.0.value == parse(last.body)))
    && (r.0.Failed? && r.0.error.ProtectionPage? ==> (r.1.sent > st.sent
      && var last := env.replies(r.1.sent - 1);
      r.0.error.page == page && last.Response? && last.status == 200 && LooksLikeProtection(last.body)))
  }

  /** A page's cards are those of the 200 reply to its last request, a protection error comes
      from a 200 reply with a marker, and a URL that cannot be built sends nothing. */
  lemma PageCardsResult(env: Env, ccfg: ClientConfig, lib: Library, source: string, page: int, st: SessionState)
    ensures PageFromLastReply(env, CardsOf(lib), page, st, PageCards(env, ccfg, lib, source, page, st))
    ensures PageCards(env, ccfg, lib, source, page, st).0 == Failed(InvalidUrl)
      <==> BuildSourceUrl(ccfg, source, page, lib.unquote).None?
  {
    var url := BuildSourceUrl(ccfg, source, page, lib.unquote);
    if url.Some? {
      FetchResult(env, url.value, DefaultRetry, st);
      FetchRequests(env, url.value, DefaultRetry, st);
      PageOutcomeFrom(env, CardsOf(lib), page, st, FetchRun(env, url.value, DefaultRetry, 1, st));
    }
  }

  lemma PageOutcomeFrom(env: Env, parse: string -> seq<ParsedCard>, page: int, st: SessionState, r: (Outcome<string>, SessionState))
    requires FromLastReply(env, st, r) && (r.0.Failed? ==> r.0.error.Blocked? || r.0.error.HttpError?)
    ensures PageFromLastReply(env, parse, page, st, (PageOutcome(r.0, page, parse), r.1))
    ensures PageOutcome(r.0, page, parse) != Failed(InvalidUrl)
  {
  }

  /** What fetching one page does, as a function of the page number and the state. */
  type PageFn = (int, SessionState) -> (Outcome<seq<ParsedCard>>, SessionState)

  /** The pause between two pages: the configured delay plus `_jitter(0.5, 2.0)`. */
  function PagePause(env: Env, pageDelay: int, st: SessionState): SessionState {
    SleepFor(UseDraw(st), pageDelay as real + Jitter(0.5, 2.0, NextDraw(env, st)))
  }

  /** The page loop of `fetch_pages` from page `p` on, with the pages collected so far: an error
      ends it, a page without cards stops it, and a pause follows every page but the last. */
  function PagesLoop(fetch: PageFn, env: Env, maxPages: int, pageDelay: int, p: int, pages: seq<seq<ParsedCard>>, st: SessionState)
    : (Outcome<seq<seq<ParsedCard>>>, SessionState)
    decreases AttemptsLeft(maxPages, p)
  {
    if p > maxPages then (Ok(pages), st)
    else
      var a := fetch(p, st);
      if a.0.Failed? then (Failed(a.0.error), a.1)
      else if |a.0.value| == 0 then (Ok(pages), a.1)
      else
        PagesLoop(fetch, env, maxPages, pageDelay, p + 1, pages + [a.0.value],
          if p != maxPages then PagePause(env, pageDelay, a.1) else a.1)
  }

  function PagesOf(env: Env, ccfg: ClientConfig, lib: Library, source: string): PageFn {
    (k: int, st: SessionState) => PageCards(env, ccfg, lib, source, k, st)
  }

  /** `fetch_pages(source)` in a session that starts in state `st`. */
  function PagesRun(env: Env, ccfg: ClientConfig, lib: Library, source: string, st: SessionState)
    : (Outcome<seq<seq<ParsedCard>>>, SessionState)
  {
    PagesLoop(PagesOf(env, ccfg, lib, source), env, ccfg.maxPages, ccfg.pageDelay, 1, [], st)
  }

  /** `fetch_pages(source)`; `s` is the session `_make_session` opened. */
  method FetchPages(s: Session, ccfg: ClientConfig, lib: Library, source: string) returns (r: Outcome<seq<seq<ParsedCard>>>)
    modifies s
    ensures (r, s.State()) == PagesRun(s.env, ccfg, lib, source, old(s.State()))
  {
    ghost var fetch := PagesOf(s.env, ccfg, lib, source);
    ghost var goal := PagesRun(s.env, ccfg, lib, source, s.State());
    var pages: seq<seq<ParsedCard>> := [];
    var p := 1;
    while p <= ccfg.maxPages
      invariant PagesLoop(fetch, s.env, ccfg.maxPages, ccfg.pageDelay, p, pages, s.State()) == goal
      decreases AttemptsLeft(ccfg.maxPages, p)
    {
      ghost var st0 := s.State();
      var cards := FetchPageCardsInSession(s, ccfg, lib, source, p);
      ghost var st1 := s.State();
      assert fetch(p, st0) == (cards, st1);
      PagesLoopStep(fetch, s.env, ccfg.maxPages, ccfg.pageDelay, p, pages, st0, (cards, st1));
      if cards.Failed? {
        return Failed(cards.error);
      }
      if |cards.value| == 0 {
        return Ok(pages);
      }
      pages := pages + [cards.value];
      if p != ccfg.maxPages {
        PauseBetweenPages(s, ccfg.pageDelay);
      }
      p := p + 1;
    }
    return Ok(pages);
  }

  /** `await asyncio.sleep(page_delay_s + _jitter(0.5, 2.0))`. */
  method PauseBetweenPages(s: Session, pageDelay: int)
    modifies s
    ensures s.State() == PagePause(s.env, pageDelay, old(s.State()))
  {
    var u := s.Random();
    s.Sleep(pageDelay as real + Jitter(0.5, 2.0, u));
  }

  /** One turn of the page loop, told by what the page fetch returned. */
  lemma PagesLoopStep(fetch: PageFn, env: Env, maxPages: int, pageDelay: int, p: int, pages: seq<seq<ParsedCard>>,
      st: SessionState, a: (Outcome<seq<ParsedCard>>, SessionState))
    requires p <= maxPages && fetch(p, st) == a
    ensures PagesLoop(fetch, env, maxPages, pageDelay, p, pages, st) ==
      if a.0.Failed? then (Failed(a.0.error), a.1)
      else if |a.0.value| == 0 then (Ok(pages), a.1)
      else PagesLoop(fetch, env, maxPages, pageDelay, p + 1, pages + [a.0.value],
        if p != maxPages then PagePause(env, pageDelay, a.1) else a.1)
  {
  }

  /** A pause `fetch_pages` may take: one of `fetch_page`'s, or a pause between pages. */
  predicate AllowedPause(pageDelay: int, seconds: real) {
    AllowedSleep(DefaultRetry, seconds) || (pageDelay as real + 0.5 <= seconds < pageDelay as real + 2.0)
  }

  predicate PausesAllowedFrom(pageDelay: int, events: seq<Event>, from: nat) {
    forall i :: from <= i < |events| && events[i].Slept? ==> AllowedPause(pageDelay, events[i].seconds)
  }

  /** What every page fetch guarantees, from `st` to its result `a`: at most six requests; a
      URL that cannot be built (`invalid`, the same for every page) is reported and nothing else
      happens; otherwise the log grows, only by allowed pauses and never ending on one; and a
      protection error names the page. */
  predicate PageKeeps(pageDelay: int, invalid: bool, k: int, st: SessionState, a: (Outcome<seq<ParsedCard>>, SessionState)) {
    st.sent <= a.1.sent <= st.sent + 6
    && (a.0 == Failed(InvalidUrl) <==> invalid)
    && (invalid ==> a.1 == st)
    && |st.events| <= |a.1.events| && a.1.events[..|st.events|] == st.events
    && PausesAllowedFrom(pageDelay, a.1.events, |st.events|)
    && (!invalid ==> |a.1.events| > |st.events| && !a.1.events[|a.1.events| - 1].Slept?)
    && (a.0.Failed? && a.0.error.ProtectionPage? ==> a.0.error.page == k)
  }

  ghost predicate PageContract(fetch: PageFn, pageDelay: int, invalid: bool) {
    forall k: int, st: SessionState :: PageKeeps(pageDelay, invalid, k, st, fetch(k, st))
  }

  /** The page fetches of `fetch_pages` keep the contract. */
  lemma PagesKeepContract(env: Env, ccfg: ClientConfig, lib: Library, source: string)
    ensures PageContract(PagesOf(env, ccfg, lib, source), ccfg.pageDelay, BuildSourceUrl(ccfg, source, 1, lib.unquote).None?)
  {
    forall k: int, st: SessionState
      ensures PageKeeps(ccfg.pageDelay, BuildSourceUrl(ccfg, source, 1, lib.unquote).None?, k, st,
        PagesOf(env, ccfg, lib, source)(k, st))
    {
      PageKept(env, ccfg, lib, source, k, st);
    }
  }

  lemma PageKept(env: Env, ccfg: ClientConfig, lib: Library, source: string, k: int, st: SessionState)
    ensures PageKeeps(ccfg.pageDelay, BuildSourceUrl(ccfg, source, 1, lib.unquote).None?, k, st,
      PageCards(env, ccfg, lib, source, k, st))
  {
    SourceUrlValidity(ccfg, source, k, 1, lib.unquote);
    var url := BuildSourceUrl(ccfg, source, k, lib.unquote);
    if url.Some? {
      FetchedPageKept(env, ccfg.pageDelay, url.value, k, CardsOf(lib), st);
    }
  }

  /** A page whose address could be built keeps to `PageKeeps` whatever its fetch returns. */
  lemma FetchedPageKept(env: Env, pageDelay: int, url: string, k: int, parse: string -> seq<ParsedCard>, st: SessionState)
    ensures PageKeeps(pageDelay, false, k, st,
      (PageOutcome(FetchRun(env, url, DefaultRetry, 1, st).0, k, parse), FetchRun(env, url, DefaultRetry, 1, st).1))
  {
    FetchRequests(env, url, DefaultRetry, st);
    FetchEvents(env, url, DefaultRetry, st);
    FetchKeepsPage(pageDelay, k, parse, st, FetchRun(env, url, DefaultRetry, 1, st));
  }

  lemma FetchKeepsPage(pageDelay: int, k: int, parse: string -> seq<ParsedCard>, st: SessionState, r: (Outcome<string>, SessionState))
    requires st.sent <= r.1.sent <= st.sent + AttemptsLeft(DefaultRetry.maxTries, 1)
    requires r.0.Failed? ==> r.0.error.Blocked? || r.0.error.HttpError?
    requires LogExtended(DefaultRetry, st.events, r.1.events, DefaultRetry.maxTries >= 1)
    ensures PageKeeps(pageDelay, false, k, st, (PageOutcome(r.0, k, parse), r.1))
  {
    assert PausesAllowedFrom(pageDelay, r.1.events, |st.events|) by {
      assert SleepsAllowedFrom(DefaultRetry, r.1.events, |st.events|);
    }
  }

  lemma PausesExtend(pageDelay: int, pre: seq<Event>, mid: seq<Event>, events: seq<Event>)
    requires |pre| <= |mid| <= |events| && events[..|mid|] == mid
    requires PausesAllowedFrom(pageDelay, mid, |pre|) && PausesAllowedFrom(pageDelay, events, |mid|)
    ensures PausesAllowedFrom(pageDelay, events, |pre|)
  {
    forall i | |pre| <= i < |events| && events[i].Slept?
      ensures AllowedPause(pageDelay, events[i].seconds)
    {
      if i < |mid| {
        assert events[i] == mid[i];
      }
    }
  }

  /** Run from `pages` to `r`: the collected pages are kept and at most `left` more, each
      non-empty, are added. */
  predicate PagesCollected(pages: seq<seq<ParsedCard>>, left: nat, r: Outcome<seq<seq<ParsedCard>>>) {
    r.Ok? ==> (|pages| <= |r.value| <= |pages| + left && r.value[..|pages|] == pages
      && forall i :: |pages| <= i < |r.value| ==> |r.value[i]| > 0)
  }

  /** The page loop keeps the collected pages and adds only non-empty ones, no more than the
      pages left; a protection error names a page in range; and it sends at most six requests
      per page. */
  lemma {:induction false} PagesLoopResult(fetch: PageFn, env: Env, maxPages: int, pageDelay: int, invalid: bool,
      p: int, pages: seq<seq<ParsedCard>>, st: SessionState)
    requires PageContract(fetch, pageDelay, invalid)
    ensures var r := PagesLoop(fetch, env, maxPages, pageDelay, p, pages, st);
      PagesCollected(pages, AttemptsLeft(maxPages, p), r.0)
      && (r.0.Failed? && r.0.error.ProtectionPage? ==> p <= r.0.error.page <= maxPages)
      && st.sent <= r.1.sent <= st.sent + 6 * AttemptsLeft(maxPages, p)
    decreases AttemptsLeft(maxPages, p)
  {
    if p <= maxPages {
      var a := fetch(p, st);
      assert PageKeeps(pageDelay, invalid, p, st, a);
      if a.0.Ok? && |a.0.value| > 0 {
        var st2 := if p != maxPages then PagePause(env, pageDelay, a.1) else a.1;
        var pages2 := pages + [a.0.value];
        PagesLoopResult(fetch, env, maxPages, pageDelay, invalid, p + 1, pages2, st2);
        var r := PagesLoop(fetch, env, maxPages, pageDelay, p + 1, pages2, st2);
        if r.0.Ok? {
          PrefixTrans(pages, pages2, r.0.value);
        }
      }
    }
  }

  /** Run from `st` to `r`: the log is only appended to, with allowed pauses; when a page was
      due and its URL can be built, the log grew and does not end on a pause; when the URL
      cannot be built, the run failed at once. */
  predicate PagesLogged(pageDelay: int, invalid: bool, due: bool, st: SessionState,
      r: (Outcome<seq<seq<ParsedCard>>>, SessionState)) {
    |st.events| <= |r.1.events| && r.1.events[..|st.events|] == st.events
    && PausesAllowedFrom(pageDelay, r.1.events, |st.events|)
    && (!invalid && due ==> |r.1.events| > |st.events| && !r.1.events[|r.1.events| - 1].Slept?)
    && (invalid && due ==> r == (Failed(InvalidUrl), st))
  }

  /** The page loop only appends to the log, its pauses are allowed ones, and when the URL can
      be built and there is a page to fetch, it never ends on a pause; an unbuildable URL ends
      it at once. */
  lemma {:induction false} PagesLoopEvents(fetch: PageFn, env: Env, maxPages: int, pageDelay: int, invalid: bool,
      p: int, pages: seq<seq<ParsedCard>>, st: SessionState)
    requires PageContract(fetch, pageDelay, invalid)
    ensures PagesLogged(pageDelay, invalid, p <= maxPages, st, PagesLoop(fetch, env, maxPages, pageDelay, p, pages, st))
    decreases AttemptsLeft(maxPages, p)
  {
    if p <= maxPages {
      var a := fetch(p, st);
      assert PageKeeps(pageDelay, invalid, p, st, a);
      if a.0.Ok? && |a.0.value| > 0 {
        var st2 := if p != maxPages then PagePause(env, pageDelay, a.1) else a.1;
        var pages2 := pages + [a.0.value];
        PagesLoopEvents(fetch, env, maxPages, pageDelay, invalid, p + 1, pages2, st2);
        var r := PagesLoop(fetch, env, maxPages, pageDelay, p + 1, pages2, st2);
        assert st2.events[..|a.1.events|] == a.1.events;
        PrefixTrans(st.events, a.1.events, st2.events);
        PrefixTrans(st.events, st2.events, r.1.events);
        assert PausesAllowedFrom(pageDelay, st2.events, |a.1.events|) by {
          if p != maxPages {
            var u := NextDraw(env, a.1);
            var j := Jitter(0.5, 2.0, u);
            assert st2.events == a.1.events + [Slept(pageDelay as real + j)];
          }
        }
        PausesExtend(pageDelay, st.events, a.1.events, st2.events);
        PausesExtend(pageDelay, st.events, st2.events, r.1.events);
      }
    }
  }

  /** `fetch_pages` returns at most `max_pages` pages, none of them empty; a protection error
      names a page between 1 and `max_pages`; and it sends at most six requests per page. */
  lemma FetchPagesResult(env: Env, ccfg: ClientConfig, lib: Library, source: string, st: SessionState)
    ensures var r := PagesRun(env, ccfg, lib, source, st);
      PagesCollected([], AttemptsLeft(ccfg.maxPages, 1), r.0)
      && (r.0.Failed? && r.0.error.ProtectionPage? ==> 1 <= r.0.error.page <= ccfg.maxPages)
      && st.sent <= r.1.sent <= st.sent + 6 * AttemptsLeft(ccfg.maxPages, 1)
  {
    PagesKeepContract(env, ccfg, lib, source);
    PagesLoopResult(PagesOf(env, ccfg, lib, source), env, ccfg.maxPages, ccfg.pageDelay,
      BuildSourceUrl(ccfg, source, 1, lib.unquote).None?, 1, [], st);
  }

  /** `fetch_pages` only appends to the session log and its pauses are allowed ones; when there
      is a page to fetch and its URL can be built, the last thing it does is never a pause (no
      delay after the last page); when the URL cannot be built it fails at once. */
  lemma FetchPagesEvents(env: Env, ccfg: ClientConfig, lib: Library, source: string, st: SessionState)
    ensures PagesLogged(ccfg.pageDelay, BuildSourceUrl(ccfg, source, 1, lib.unquote).None?, 1 <= ccfg.maxPages, st,
      PagesRun(env, ccfg, lib, source, st))
  {
    PagesKeepContract(env, ccfg, lib, source);
    PagesLoopEvents(PagesOf(env, ccfg, lib, source), env, ccfg.maxPages, ccfg.pageDelay,
      BuildSourceUrl(ccfg, source, 1, lib.unquote).None?, 1, [], st);
  }
}
