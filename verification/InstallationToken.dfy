/** The cached installation token that concurrent requests share. */
module InstallationToken {
  import opened Wrappers

  const EARLY := 120

  /** The cached token with its expiry, in seconds; "" stands for no token. */
  datatype Cache = Cache(token: string, expires: int)

  predicate Usable(c: Cache, now: int) {
    c.token != "" && now < c.expires - EARLY
  }

  function Invalidated(c: Cache, rejected: string): Cache {
    if rejected == "" || c.token != rejected then c else Cache("", 0)
  }

  datatype Status = Unauthorized | OtherError | Success

  // ------------------------------------------------------------- one request

  /** One request: waiting for the lock, minting under it, sent and waiting for
      an answer, told 401, or finished. `sent` counts earlier sends and
      `rejected` is the token that the first send was refused with. */
  datatype Request =
    | Waiting(sent: nat, rejected: string)
    | Minting(sent: nat, rejected: string)
    | Sending(sent: nat, token: string, rejected: string)
    | Refused(token: string)
    | Finished(sent: nat)

  /** What a request meets next: the lock, the end of a mint under it, an answer,
      or the lock again. */
  datatype Turn = Take(now: int) | MintFailed | Minted(cache: Cache) | Told(status: Status, cancelled: bool) | Drop

  /** Its next step, in a critical section or outside. */
  function Advance(r: Request, c: Cache, turn: Turn): (Request, Cache) {
    match (r, turn)
    case (Waiting(sent, rejected), Take(now)) =>
      (if Usable(c, now) then Sending(sent, c.token, rejected) else Minting(sent, rejected), c)
    case (Minting(sent, rejected), MintFailed) => (Finished(sent), c)
    case (Minting(sent, rejected), Minted(got)) => (Sending(sent, got.token, rejected), got)
    case (Sending(sent, token, rejected), Told(status, cancelled)) =>
      (if sent == 0 && status.Unauthorized? && !cancelled then Refused(token) else Finished(sent + 1), c)
    case (Refused(token), Drop) => (Waiting(1, token), Invalidated(c, token))
    case _ => (r, c)
  }

  /** One critical section that fetches a token: `reply` is what the two calls
      behind a mint return, if both succeed. */
  datatype Fetch = Fetch(now: int, reply: Option<Cache>)

  function Fetched(r: Request, c: Cache, f: Fetch): (Request, Cache) {
    var (asked, _) := Advance(r, c, Take(f.now));
    if !asked.Minting? then (asked, c)
    else Advance(asked, c, if f.reply.Some? then Minted(f.reply.value) else MintFailed)
  }

  /** What one request meets: its fetches, its answers, and what other requests
      make of the cache before its second and its third critical section. */
  datatype RequestScript = RequestScript(first: Fetch, told: Status, cancelled: bool, meanwhile: Cache -> Cache,
                                         afterwards: Cache -> Cache, second: Fetch, toldAgain: Status)

  /** How it ends: the request, the cache it left, the tokens it was sent with,
      and the answer it returns, if any. */
  datatype Exchange = Exchange(request: Request, cache: Cache, sent: seq<string>, result: Option<Status>)

  function Requested(c: Cache, s: RequestScript): Exchange {
    var (r1, c1) := Fetched(Waiting(0, ""), c, s.first);
    if !r1.Sending? then Exchange(r1, c1, [], None)
    else
      var (r2, _) := Advance(r1, c1, Told(s.told, s.cancelled));
      if !r2.Refused? then Exchange(r2, c1, [r1.token], Some(s.told))
      else
        var (r3, c3) := Advance(r2, s.meanwhile(c1), Drop);
        var (r4, c4) := Fetched(r3, s.afterwards(c3), s.second);
        if !r4.Sending? then Exchange(r4, c4, [r1.token], None)
        else Exchange(Advance(r4, c4, Told(s.toldAgain, false)).0, c4, [r1.token, r4.token], Some(s.toldAgain))
  }

  /** The critical sections, and one request around them. Between two critical
      sections other requests may change the cache in any way. */
  class Client {
    var token: string
    var tokenExpires: int

    ghost function View(): Cache
      reads this
    {
      Cache(token, tokenExpires)
    }

    method InvalidateInstallationToken(rejected: string)
      modifies this
      ensures View() == Invalidated(old(View()), rejected)
    {
      if rejected == "" || token != rejected { return; }
      token, tokenExpires := "", 0;
    }

    method FetchToken(f: Fetch) returns (result: Option<string>)
      modifies this
      ensures Usable(old(View()), f.now) ==> result == Some(old(token)) && View() == old(View())
      ensures !Usable(old(View()), f.now) && f.reply.None? ==> result.None? && View() == old(View())
      ensures !Usable(old(View()), f.now) && f.reply.Some? ==> result == Some(token) && View() == f.reply.value
    {
      if token != "" && f.now < tokenExpires - EARLY { return Some(token); }
      if f.reply.None? { return None; }
      token, tokenExpires := f.reply.value.token, f.reply.value.expires;
      result := Some(token);
    }

    method OtherRequests(change: Cache -> Cache)
      modifies this
      ensures View() == change(old(View()))
    {
      var next := change(Cache(token, tokenExpires));
      token, tokenExpires := next.token, next.expires;
    }

    /** A request goes through exactly the steps of `Requested`. */
    method InstallationRequest(s: RequestScript) returns (sent: seq<string>, result: Option<Status>)
      modifies this
      ensures var e := Requested(old(View()), s); View() == e.cache && sent == e.sent && result == e.result
    {
      var fetched := FetchToken(s.first);
      if fetched.None? { return [], None; }
      if s.told != Unauthorized || s.cancelled { return [fetched.value], Some(s.told); }
      OtherRequests(s.meanwhile);
      InvalidateInstallationToken(fetched.value);
      OtherRequests(s.afterwards);
      var refreshed := FetchToken(s.second);
      if refreshed.None? { return [fetched.value], None; }
      return [fetched.value, refreshed.value], Some(s.toldAgain);
    }
  }

  /** The token that a fetch comes to, if any. */
  function TokenOf(c: Cache, f: Fetch): Option<string> {
    if Usable(c, f.now) then Some(c.token) else if f.reply.Some? then Some(f.reply.value.token) else None
  }

  /** A request is sent exactly if its first fetch comes to a token, and a second
      time exactly if the first answer was 401 while its caller still waits and
      the second fetch comes to one; before that the refused token has left the
      cache. It returns the last answer, or none if a fetch failed. */
  lemma SentExactly(c: Cache, s: RequestScript)
    ensures var (e, first) := (Requested(c, s), TokenOf(c, s.first));
            var c1 := if first.None? || Usable(c, s.first.now) then c else s.first.reply.value;
            if first.None? then e == Exchange(Finished(0), c, [], None)
            else if s.told != Unauthorized || s.cancelled then e == Exchange(Finished(1), c1, [first.value], Some(s.told))
            else
              var found := s.afterwards(Invalidated(s.meanwhile(c1), first.value));
              var second := TokenOf(found, s.second);
              if second.None? then e == Exchange(Finished(1), found, [first.value], None)
              else
                && e.request == Finished(2) && e.sent == [first.value, second.value] && e.result == Some(s.toldAgain)
                && e.cache == if Usable(found, s.second.now) then found else s.second.reply.value
  {
  }

  /** A cached token that GitHub refuses before it expires heals in place: with no
      other request around, the next mint replaces it, and the request is repeated
      with the new one. */
  lemma RefusedTokenIsReplaced(c: Cache, s: RequestScript)
    requires Usable(c, s.first.now) && s.told.Unauthorized? && !s.cancelled && s.second.reply.Some?
    requires forall x :: s.meanwhile(x) == x && s.afterwards(x) == x
    ensures Requested(c, s)
            == Exchange(Finished(2), s.second.reply.value, [c.token, s.second.reply.value.token], Some(s.toldAgain))
  {
  }

  // ----------------------------------------------------- concurrent requests

  /** The shared cache with the lock holder, every request, and the history:
      tokens minted, tokens thrown away, mints over an expired token, and
      tokens that some answer refused. */
  datatype State = State(cache: Cache, now: int, holder: Option<nat>, requests: seq<Request>,
                         minted: seq<string>, emptied: seq<string>, stale: nat, rejected: set<string>)

  datatype Event =
    | Tick(seconds: nat)
    | Arrive
    | Ask(i: nat)
    | MintFails(i: nat)
    | Mint(i: nat, token: string, expires: int)
    | Answer(i: nat, status: Status, cancelled: bool)
    | Invalidate(i: nat)

  const START := State(Cache("", 0), 0, None, [], [], [], 0, {})

  predicate Enabled(s: State, e: Event) {
    match e
    case Tick(_) => true
    case Arrive => true
    case Ask(i) => i < |s.requests| && s.requests[i].Waiting? && s.holder.None?
    case MintFails(i) => i < |s.requests| && s.requests[i].Minting?
    case Mint(i, _, _) => i < |s.requests| && s.requests[i].Minting?
    case Answer(i, _, _) => i < |s.requests| && s.requests[i].Sending?
    case Invalidate(i) => i < |s.requests| && s.requests[i].Refused? && s.holder.None?
  }

  function Moved(s: State, i: nat, r: Request): State
    requires i < |s.requests|
  {
    s.(requests := s.requests[i := r])
  }

  /** What the request of an event meets. */
  function TurnOf(s: State, e: Event): Turn {
    match e
    case Mint(_, token, expires) => Minted(Cache(token, expires))
    case MintFails(_) => MintFailed
    case Answer(_, status, cancelled) => Told(status, cancelled)
    case Invalidate(_) => Drop
    case _ => Take(s.now)
  }

  /** One step of request `i`, with the lock held exactly while it mints. */
  function Stepped(s: State, i: nat, turn: Turn): State
    requires i < |s.requests|
  {
    var (r, c) := Advance(s.requests[i], s.cache, turn);
    s.(requests := s.requests[i := r], cache := c,
       holder := if r.Minting? then Some(i) else if s.requests[i].Minting? then None else s.holder)
  }

  function Next(s: State, e: Event): State
    requires Enabled(s, e)
  {
    match e
    case Tick(seconds) => s.(now := s.now + seconds)
    case Arrive => s.(requests := s.requests + [Waiting(0, "")])
    case Ask(i) => Stepped(s, i, TurnOf(s, e))
    case MintFails(i) => Stepped(s, i, TurnOf(s, e))
    case Mint(i, token, expires) =>
      Stepped(s, i, TurnOf(s, e)).(minted := s.minted + [token], stale := if s.cache.token != "" then s.stale + 1 else s.stale)
    case Answer(i, status, cancelled) =>
      Stepped(s, i, TurnOf(s, e)).(rejected := if status.Unauthorized? then s.rejected + {s.requests[i].token} else s.rejected)
    case Invalidate(i) =>
      var refused := s.requests[i].token;
      Stepped(s, i, TurnOf(s, e)).(emptied := if refused != "" && s.cache.token == refused then s.emptied + [refused] else s.emptied)
  }

  /** The state after a sequence of events, each skipped if it is not enabled. */
  function After(events: seq<Event>): State {
    if events == [] then START
    else
      var s := After(events[..|events| - 1]);
      var e := events[|events| - 1];
      if Enabled(s, e) then Next(s, e) else s
  }

  function Blanks(tokens: seq<string>): nat {
    if tokens == [] then 0
    else Blanks(tokens[..|tokens| - 1]) + if tokens[|tokens| - 1] == "" then 1 else 0
  }

  ghost predicate Distinct(tokens: seq<string>) {
    forall i, j | 0 <= i < j < |tokens| :: tokens[i] != tokens[j]
  }

  /** Every mint is accounted for: it filled the cache as it is now, or its
      token was thrown away, expired, or blank. */
  ghost predicate Accounted(s: State) {
    |s.minted| == |s.emptied| + s.stale + Blanks(s.minted) + if s.cache.token != "" then 1 else 0
  }

  ghost predicate Known(s: State) {
    && (s.cache.token != "" ==> s.cache.token in s.minted)
    && (forall t | t in s.emptied :: t in s.minted && t in s.rejected && t != "")
    && (forall i | 0 <= i < |s.requests| ::
          match s.requests[i]
          case Waiting(sent, rejected) => sent <= 1 && (sent == 1 ==> rejected in s.minted && rejected in s.rejected)
          case Minting(sent, rejected) => sent <= 1 && (sent == 1 ==> rejected in s.minted && rejected in s.rejected)
          case Sending(sent, token, rejected) => sent <= 1 && token in s.minted
          case Refused(token) => token in s.minted && token in s.rejected
          case Finished(sent) => sent <= 2)
  }

  ghost predicate Exclusive(s: State) {
    && (s.holder.Some? ==> s.holder.value < |s.requests|)
    && forall i | 0 <= i < |s.requests| :: s.requests[i].Minting? <==> s.holder == Some(i)
  }

  /** With tokens that are never issued twice: none is thrown away twice, and no
      request is repeated with the token it was refused with. */
  ghost predicate Fresh(s: State) {
    && Distinct(s.emptied)
    && (s.cache.token != "" ==> s.cache.token !in s.emptied)
    && (forall i | 0 <= i < |s.requests| ::
          match s.requests[i]
          case Waiting(sent, rejected) => sent == 1 && rejected != "" ==> s.cache.token != rejected
          case Minting(sent, rejected) => sent == 1 && rejected != "" ==> s.cache.token != rejected
          case Sending(sent, token, rejected) => sent == 1 ==> token != rejected
          case _ => true)
  }

  ghost predicate Good(s: State) {
    && Accounted(s) && Known(s) && Exclusive(s)
    && (Distinct(s.minted) ==> Fresh(s))
  }

  lemma NextKeepsAccounts(s: State, e: Event)
    requires Good(s) && Enabled(s, e)
    ensures Accounted(Next(s, e))
  {
    if e.Mint? {
      assert (s.minted + [e.token])[..|s.minted|] == s.minted;
    }
  }

  lemma NextKeepsKnown(s: State, e: Event)
    requires Good(s) && Enabled(s, e)
    ensures Known(Next(s, e)) && Exclusive(Next(s, e))
  {
  }

  lemma NextKeepsFresh(s: State, e: Event)
    requires Good(s) && Enabled(s, e) && Distinct(Next(s, e).minted)
    ensures Fresh(Next(s, e))
  {
    if e.Mint? {
      var minted := Next(s, e).minted;
      assert Distinct(s.minted) by {
        assert forall i | 0 <= i < |s.minted| :: minted[i] == s.minted[i];
      }
      assert e.token !in s.minted by {
        assert minted[|s.minted|] == e.token;
        assert forall i | 0 <= i < |s.minted| :: minted[i] == s.minted[i];
      }
    }
  }

  lemma {:induction false} EveryRunIsGood(events: seq<Event>)
    ensures Good(After(events))
  {
    if events != [] {
      var s, e := After(events[..|events| - 1]), events[|events| - 1];
      EveryRunIsGood(events[..|events| - 1]);
      if Enabled(s, e) {
        NextKeepsAccounts(s, e);
        NextKeepsKnown(s, e);
        if Distinct(Next(s, e).minted) { NextKeepsFresh(s, e); }
      }
    }
  }

  lemma {:induction false} DistinctFits(tokens: seq<string>, pool: set<string>)
    requires Distinct(tokens) && forall t | t in tokens :: t in pool
    ensures |tokens| <= |pool|
    decreases |tokens|
  {
    if tokens != [] {
      var front, last := tokens[..|tokens| - 1], tokens[|tokens| - 1];
      DistinctFits(front, pool - {last});
    }
  }

  lemma {:induction false} NoBlanks(tokens: seq<string>)
    requires "" !in tokens
    ensures Blanks(tokens) == 0
  {
    if tokens != [] { NoBlanks(tokens[..|tokens| - 1]); }
  }

  /** Whatever the interleaving: with fresh tokens that do not expire there is
      at most one mint for each refused token, beside the first. */
  lemma OneMintPerRefusedToken(events: seq<Event>)
    requires var s := After(events); Distinct(s.minted) && "" !in s.minted && s.stale == 0
    ensures |After(events).minted| <= 1 + |After(events).rejected|
    ensures Distinct(After(events).emptied) && forall t | t in After(events).emptied :: t in After(events).rejected
  {
    EveryRunIsGood(events);
    NoBlanks(After(events).minted);
    DistinctFits(After(events).emptied, After(events).rejected);
  }

  /** No request is sent more than twice, and with fresh tokens the second send
      carries another token than the first. */
  lemma AtMostTwoSends(events: seq<Event>, i: nat)
    requires i < |After(events).requests|
    ensures match After(events).requests[i]
            case Finished(sent) => sent <= 2
            case Sending(sent, token, rejected) => sent <= 1 && (sent == 1 && Distinct(After(events).minted) ==> token != rejected)
            case Waiting(sent, _) => sent <= 1
            case Minting(sent, _) => sent <= 1
            case Refused(token) => token in After(events).rejected
  {
    EveryRunIsGood(events);
  }

  /** A request that gets the lock is sent with the cached token exactly if that
      stays valid for more than two minutes; otherwise it mints, and nobody else
      gets the lock meanwhile. */
  lemma ReusesExactly(s: State, i: nat)
    requires Enabled(s, Ask(i))
    ensures var (r, s') := (s.requests[i], Next(s, Ask(i)));
            if s.cache.token != "" && s.now + 120 < s.cache.expires then
              s' == s.(requests := s.requests[i := Sending(r.sent, s.cache.token, r.rejected)])
            else
              s'.requests[i].Minting? && s'.cache == s.cache && forall j :: !Enabled(s', Ask(j)) && !Enabled(s', Invalidate(j))
  {
  }

  /** A cached token disappears only when a request that got 401 on that very
      token says so, or when a mint over an expired token returns a blank one. */
  lemma OnlyRejectionEmpties(events: seq<Event>, e: Event)
    requires var s := After(events); Enabled(s, e) && s.cache.token != "" && Next(s, e).cache.token == ""
    ensures var s := After(events);
            || (e.Invalidate? && s.requests[e.i] == Refused(s.cache.token) && s.cache.token in s.rejected)
            || (e.Mint? && e.token == "")
  {
    EveryRunIsGood(events);
  }
}
