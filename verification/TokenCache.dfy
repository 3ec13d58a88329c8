/** The M-Pesa access token, cached until one minute before it expires. */
module TokenCache {
  import opened Options

  /** A token response: `expires_in` may be missing. */
  datatype Response = Response(token: string, expiresIn: Option<int>)

  const MARGIN: real := 60.0
  const DEFAULT_EXPIRY := 3599

  function Lifetime(resp: Response): real {
    (if resp.expiresIn.Some? then resp.expiresIn.value else DEFAULT_EXPIRY) as real
  }

  datatype Cache = Cache(token: Option<string>, expiresAt: Option<real>)

  /** An empty token string is falsy and never served from the cache. */
  predicate Hit(c: Cache, now: real) {
    c.token.Some? && c.token.value != "" && c.expiresAt.Some? && now < c.expiresAt.value
  }

  function Refreshed(resp: Response, handledAt: real): Cache {
    Cache(Some(resp.token), Some(handledAt + Lifetime(resp) - MARGIN))
  }

  class TokenHolder {
    var token: Option<string>
    var expiresAt: Option<real>

    constructor ()
      ensures State() == Cache(None, None)
    {
      token, expiresAt := None, None;
    }

    function State(): Cache
      reads this
    {
      Cache(token, expiresAt)
    }

    /** `resp` is what the server would answer, nothing if the request raises. */
    method GetToken(now: real, resp: Option<Response>, handledAt: real) returns (r: Option<string>)
      modifies this
      ensures Hit(old(State()), now)
              <==> old(token) != None && old(token) != Some("") && old(expiresAt) != None && now < old(expiresAt).value
      ensures Hit(old(State()), now) ==> r == old(token) && State() == old(State())
      ensures !Hit(old(State()), now) && resp.None? ==> r == None && State() == old(State())
      ensures !Hit(old(State()), now) && resp.Some? ==>
                var lifetime := if resp.value.expiresIn.Some? then resp.value.expiresIn.value else 3599;
                r == Some(resp.value.token) && token == r
                && expiresAt == Some(handledAt + lifetime as real - 60.0)
      ensures State() == After1(old(State()), Ask(now, resp, handledAt, handledAt))
    {
      if token.Some? && token.value != "" && expiresAt.Some? && now < expiresAt.value {
        return token;
      }
      if resp.None? {
        return None;
      }
      token := Some(resp.value.token);
      expiresAt := Some(handledAt + Lifetime(resp.value) - MARGIN);
      return token;
    }
  }

  /** One call: when it is made, and, if it goes to the server, when the server issued the token
      and when the answer was handled. */
  datatype Ask = Ask(now: real, resp: Option<Response>, issuedAt: real, handledAt: real)

  function After1(c: Cache, a: Ask): Cache {
    if Hit(c, a.now) || a.resp.None? then c else Refreshed(a.resp.value, a.handledAt)
  }

  function After(run: seq<Ask>): Cache {
    if run == [] then Cache(None, None) else After1(After(run[..|run| - 1]), run[|run| - 1])
  }

  /** The latest call that fetched a token. */
  function LastFetch(run: seq<Ask>): Option<Ask> {
    if run == [] then None
    else
      var before, a := run[..|run| - 1], run[|run| - 1];
      if Hit(After(before), a.now) || a.resp.None? then LastFetch(before) else Some(a)
  }

  /** The cache holds the last fetched token and nothing else. */
  lemma {:induction false} CacheIsLastFetch(run: seq<Ask>)
    ensures LastFetch(run).None? ==> After(run) == Cache(None, None)
    ensures LastFetch(run).Some? ==>
              LastFetch(run).value in run && LastFetch(run).value.resp.Some?
              && After(run) == Refreshed(LastFetch(run).value.resp.value, LastFetch(run).value.handledAt)
  {
    if run != [] {
      CacheIsLastFetch(run[..|run| - 1]);
    }
  }

  /** When the server itself stops accepting the token. */
  function ServerExpiry(a: Ask): real
    requires a.resp.Some?
  {
    a.issuedAt + Lifetime(a.resp.value)
  }

  /** A token served from the cache is the last one fetched; if that fetch was handled within a
      minute of issue, the server still accepts it. */
  lemma CachedTokenIsLive(run: seq<Ask>, now: real)
    requires Hit(After(run), now)
    ensures LastFetch(run).Some? && LastFetch(run).value.resp.Some?
    ensures After(run).token == Some(LastFetch(run).value.resp.value.token)
    ensures var fetch := LastFetch(run).value;
            var lifetime := if fetch.resp.value.expiresIn.Some? then fetch.resp.value.expiresIn.value else 3599;
            fetch.handledAt - fetch.issuedAt <= 60.0 ==> now < fetch.issuedAt + lifetime as real
  {
    CacheIsLastFetch(run);
  }

  /** The margin is exactly what the handling delay may use up: a fetched token is served only
      while live, whenever it is asked for, if and only if it was handled within the minute. */
  lemma MarginIsExact(a: Ask)
    requires a.resp.Some? && a.resp.value.token != ""
    ensures (forall now :: Hit(Refreshed(a.resp.value, a.handledAt), now) ==> now < ServerExpiry(a))
            <==> a.handledAt - a.issuedAt <= 60.0
  {
    var c := Refreshed(a.resp.value, a.handledAt);
    if a.handledAt - a.issuedAt > MARGIN {
      var now := ServerExpiry(a);
      assert Hit(c, now) && !(now < ServerExpiry(a));
    }
  }
}
