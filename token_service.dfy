/**
 * The idempotency token guard of `TokenServiceImpl`: `createToken` issues a
 * token stored under itself with a TTL, and `checkToken` accepts a request
 * carrying a stored token once, removing it.
 */
module TokenService {
  import opened Wrappers
  import opened RedisUtils

  /** The TTL, in seconds, of an issued token. */
  const TokenTtl: int := 10000

  /** `replaceAll("-", "")`: the text with every `-` removed. */
  function StripDashes(s: string): (r: string)
    ensures |r| <= |s|
  {
    if s == [] then [] else (if s[0] == '-' then [] else [s[0]]) + StripDashes(s[1..])
  }

  /** A token never contains a dash. */
  lemma {:induction false} StripDashesRemovesAll(s: string)
    ensures forall i :: 0 <= i < |StripDashes(s)| ==> StripDashes(s)[i] != '-'
  {
    if s != [] {
      StripDashesRemovesAll(s[1..]);
    }
  }

  /** Exactly the dashes are dropped: the token is shorter than the text by its number of dashes. */
  lemma {:induction false} StripDashesDropsDashCount(s: string)
    ensures |StripDashes(s)| == |s| - multiset(s)['-']
  {
    if s != [] {
      assert s == [s[0]] + s[1..];
      StripDashesDropsDashCount(s[1..]);
    }
  }

  lemma {:induction false} StripDashesConcat(a: string, b: string)
    ensures StripDashes(a + b) == StripDashes(a) + StripDashes(b)
  {
    if a == [] {
      assert a + b == b;
    } else {
      assert (a + b)[1..] == a[1..] + b;
      StripDashesConcat(a[1..], b);
    }
  }

  /** Text without a dash is left as it is. */
  lemma {:induction false} StripDashesKeepsDashFree(s: string)
    requires forall i :: 0 <= i < |s| ==> s[i] != '-'
    ensures StripDashes(s) == s
  {
    if s != [] {
      StripDashesKeepsDashFree(s[1..]);
    }
  }

  /** Stripping twice is stripping once. */
  lemma StripDashesIdempotent(s: string)
    ensures StripDashes(StripDashes(s)) == StripDashes(s)
  {
    StripDashesRemovesAll(s);
    StripDashesKeepsDashFree(StripDashes(s));
  }

  predicate IsHexDigit(c: char)
  {
    '0' <= c <= '9' || 'a' <= c <= 'f' || 'A' <= c <= 'F'
  }

  /** The text form of a `java.util.UUID`: 8-4-4-4-12 hex digits separated by dashes. */
  predicate CanonicalUuid(s: string)
  {
    |s| == 36 &&
    forall i :: 0 <= i < 36 ==>
      if i == 8 || i == 13 || i == 18 || i == 23 then s[i] == '-' else IsHexDigit(s[i])
  }

  /** Removing the dashes around a dash at `i` removes them from each side separately. */
  lemma StripDashesAtDash(s: string, i: nat)
    requires i < |s| && s[i] == '-'
    ensures StripDashes(s) == StripDashes(s[..i]) + StripDashes(s[i + 1..])
  {
    var rest := s[i + 1..];
    var tail := [s[i]] + rest;
    assert tail[0] == '-' && tail[1..] == rest;
    assert StripDashes(tail) == StripDashes(rest);
    assert s == s[..i] + tail;
    StripDashesConcat(s[..i], tail);
  }

  /** Every character the stripping keeps was a non-dash character of the input. */
  lemma {:induction false} StripDashesKeepsHex(s: string)
    requires forall i :: 0 <= i < |s| && s[i] != '-' ==> IsHexDigit(s[i])
    ensures forall i :: 0 <= i < |StripDashes(s)| ==> IsHexDigit(StripDashes(s)[i])
  {
    if s != [] {
      StripDashesKeepsHex(s[1..]);
    }
  }

  /** The same split, inside the prefix of length `j`. */
  lemma StripDashesPrefixAtDash(s: string, i: nat, j: nat)
    requires i < j <= |s| && s[i] == '-'
    ensures StripDashes(s[..j]) == StripDashes(s[..i]) + StripDashes(s[i + 1..j])
  {
    var x := s[..j];
    StripDashesAtDash(x, i);
    assert x[..i] == s[..i] && x[i + 1..] == s[i + 1..j];
  }

  /** Stripping a UUID-shaped text strips each of its five groups. */
  lemma UuidDashSplit(s: string)
    requires |s| == 36 && s[8] == '-' && s[13] == '-' && s[18] == '-' && s[23] == '-'
    ensures StripDashes(s) == StripDashes(s[..8]) + StripDashes(s[9..13]) + StripDashes(s[14..18])
                              + StripDashes(s[19..23]) + StripDashes(s[24..])
  {
    assert s[..36] == s && s[24..36] == s[24..];
    StripDashesPrefixAtDash(s, 23, 36);
    StripDashesPrefixAtDash(s, 18, 23);
    StripDashesPrefixAtDash(s, 13, 18);
    StripDashesPrefixAtDash(s, 8, 13);
  }

  /** A group of a UUID holds hex digits only, so stripping keeps it. */
  lemma UuidGroupKept(s: string, lo: nat, hi: nat)
    requires CanonicalUuid(s) && lo <= hi <= 36
    requires (lo, hi) == (0, 8) || (lo, hi) == (9, 13) || (lo, hi) == (14, 18) || (lo, hi) == (19, 23) || (lo, hi) == (24, 36)
    ensures StripDashes(s[lo..hi]) == s[lo..hi]
  {
    var g := s[lo..hi];
    forall i | 0 <= i < |g| ensures g[i] != '-' {
      var j := lo + i;
      assert g[i] == s[j];
      assert j != 8 && j != 13 && j != 18 && j != 23;
      assert IsHexDigit(s[j]);
    }
    StripDashesKeepsDashFree(g);
  }

  /** The dashes of a UUID sit between its five groups of hex digits. */
  lemma UuidTokenGroups(s: string)
    requires CanonicalUuid(s)
    ensures StripDashes(s) == s[..8] + s[9..13] + s[14..18] + s[19..23] + s[24..]
  {
    assert s[8] == '-' && s[13] == '-' && s[18] == '-' && s[23] == '-';
    UuidDashSplit(s);
    UuidGroupKept(s, 0, 8);
    UuidGroupKept(s, 9, 13);
    UuidGroupKept(s, 14, 18);
    UuidGroupKept(s, 19, 23);
    UuidGroupKept(s, 24, 36);
    assert s[..8] == s[0..8] && s[24..] == s[24..36];
  }

  /** A token made from a UUID is its 32 hex digits, in order. */
  lemma CanonicalUuidToken(s: string)
    requires CanonicalUuid(s)
    ensures StripDashes(s) == s[..8] + s[9..13] + s[14..18] + s[19..23] + s[24..]
    ensures |StripDashes(s)| == 32
    ensures forall i :: 0 <= i < |StripDashes(s)| ==> IsHexDigit(StripDashes(s)[i])
  {
    UuidTokenGroups(s);
    StripDashesKeepsHex(s);
  }

  /** `StringUtils.isEmpty`: null or the empty string. */
  predicate IsEmpty(s: Option<string>)
  {
    s.None? || s.value == ""
  }

  /** The parts of an HTTP request the guard reads: the `token` header and the `token` parameter. */
  datatype Request = Request(header: Option<string>, parameter: Option<string>)

  /** The token a request carries: the header unless it is empty, then the parameter unless it is empty. */
  function SelectToken(req: Request): (r: Option<string>)
    ensures r.Some? ==> r.value != ""
    ensures r.None? <==> IsEmpty(req.header) && IsEmpty(req.parameter)
    ensures !IsEmpty(req.header) ==> r == req.header
    ensures IsEmpty(req.header) && !IsEmpty(req.parameter) ==> r == req.parameter
  {
    if !IsEmpty(req.header) then req.header
    else if !IsEmpty(req.parameter) then req.parameter
    else None
  }

  /** The exceptions `checkToken` ends with. */
  datatype GuardError =
    | MissingToken    // "没有获取到访问接口的Token字段": neither header nor parameter carries a token
    | RepeatedRequest // "重复请求": hasKey answered false
    | DeleteFailed    // "token delete fail": del answered false
    | StoreFailure    // the exception thrown by del itself

  datatype Verdict = Accepted | Rejected(error: GuardError)

  /** What `checkToken` knows before it deletes: no token, a token hasKey denies, or one it confirms. */
  datatype Probe = NoToken | Absent(token: string) | Present(token: string)

  /** The token lookup and the hasKey step (which reports a failure as absence). */
  function ProbeStore(req: Request, m: map<string, Entry>, up: bool): (p: Probe)
    ensures p.NoToken? <==> SelectToken(req).None?
    ensures !p.NoToken? ==> Some(p.token) == SelectToken(req)
    ensures p.Present? <==> SelectToken(req).Some? && up && SelectToken(req).value in m
  {
    match SelectToken(req)
    case None => NoToken
    case Some(t) => if up && t in m then Present(t) else Absent(t)
  }

  /** The verdict and the store after a guard step. */
  datatype GuardResult = GuardResult(verdict: Verdict, store: map<string, Entry>)

  /** The delete step: del's own answer decides. */
  function ConsumeStore(t: string, m: map<string, Entry>, up: bool): (g: GuardResult)
    ensures g.verdict == Accepted <==> up && t in m
    ensures g.verdict == Accepted ==> g.store == DeleteKeys(m, [t])
    ensures g.verdict != Accepted ==> g.store == m
    ensures g.verdict == Rejected(StoreFailure) <==> !up
    ensures up && t !in m ==> g == GuardResult(Rejected(DeleteFailed), m)
  {
    if !up then GuardResult(Rejected(StoreFailure), m)
    else if DelReply(m, [t]) then GuardResult(Accepted, DeleteKeys(m, [t]))
    else GuardResult(Rejected(DeleteFailed), m)
  }

  /**
   * `checkToken` run without interference: probe, then delete if the probe
   * found the token. It ends in one of three ways: no token, a missing key
   * (or an outage), or acceptance that removes exactly the token's key. The
   * delete failures cannot happen without a concurrent change of the store.
   */
  function Guard(req: Request, m: map<string, Entry>, up: bool): (g: GuardResult)
    ensures SelectToken(req).None? ==> g == GuardResult(Rejected(MissingToken), m)
    ensures SelectToken(req).Some? && !(up && SelectToken(req).value in m) ==>
              g == GuardResult(Rejected(RepeatedRequest), m)
    ensures g.verdict == Accepted <==> SelectToken(req).Some? && up && SelectToken(req).value in m
    ensures g.verdict == Accepted ==> g.store == DeleteKeys(m, [SelectToken(req).value])
    ensures g.verdict != Rejected(DeleteFailed) && g.verdict != Rejected(StoreFailure)
  {
    match ProbeStore(req, m, up)
    case NoToken => GuardResult(Rejected(MissingToken), m)
    case Absent(_) => GuardResult(Rejected(RepeatedRequest), m)
    case Present(t) => ConsumeStore(t, m, up)
  }

  /** The header decides whenever it is not empty; the parameter is then never consulted. */
  lemma HeaderTakesPriority(header: string, p1: Option<string>, p2: Option<string>, m: map<string, Entry>, up: bool)
    requires header != ""
    ensures Guard(Request(Some(header), p1), m, up) == Guard(Request(Some(header), p2), m, up)
  {
  }

  /** An accepted token is refused by every later check presenting it. */
  lemma AcceptedAtMostOnce(req: Request, later: Request, m: map<string, Entry>, up: bool, up': bool)
    requires Guard(req, m, up).verdict == Accepted
    requires SelectToken(later) == SelectToken(req)
    ensures Guard(later, Guard(req, m, up).store, up') == GuardResult(Rejected(RepeatedRequest), Guard(req, m, up).store)
  {
  }

  /** A check after the token's TTL has run out is refused as a repeated request. */
  lemma ExpiredTokenRefused(req: Request, m: map<string, Entry>, now: int, elapsed: nat, up: bool)
    requires Live(m, now)
    requires SelectToken(req).Some?
    requires elapsed >= TokenTtl
    ensures var t := SelectToken(req).value;
      var later := Purge(m[t := Entry(t, Some(now + TokenTtl))], now + elapsed);
      Guard(req, later, up) == GuardResult(Rejected(RepeatedRequest), later)
  {
  }

  class TokenServiceImpl {
    const redis: RedisStore

    constructor (redis: RedisStore)
      ensures this.redis == redis
    {
      this.redis := redis;
    }

    /**
     * `createToken`: the UUID text without dashes, written under itself with
     * the token TTL. The write's result is not looked at, so on an outage the
     * token is returned but not stored.
     */
    method CreateToken(uuid: string) returns (token: string)
      requires redis.Valid()
      modifies redis`data, redis`trace
      ensures redis.Valid()
      ensures token == StripDashes(uuid)
      ensures redis.data == if redis.reachable
                            then old(redis.data)[token := Entry(token, Some(redis.now + TokenTtl))]
                            else old(redis.data)
      ensures redis.trace == old(redis.trace) + [SetExCmd(token, token, TokenTtl)]
    {
      token := StripDashes(uuid);
      var stored := redis.SetWithTime(token, token, TokenTtl);
    }

    /**
     * `checkToken`: refuses a request without a token, then one whose token
     * hasKey denies, then deletes the key and refuses unless del reports the
     * removal (a failure of del itself propagates as `StoreFailure`).
     */
    method CheckToken(request: Request) returns (verdict: Verdict)
      requires redis.Valid()
      modifies redis`data, redis`trace
      ensures redis.Valid()
      ensures GuardResult(verdict, redis.data) == Guard(request, old(redis.data), redis.reachable)
      ensures SelectToken(request).None? ==> redis.trace == old(redis.trace)
      ensures ProbeStore(request, old(redis.data), redis.reachable).Absent? ==>
        redis.trace == old(redis.trace) + [ExistsCmd(SelectToken(request).value)]
      ensures ProbeStore(request, old(redis.data), redis.reachable).Present? ==>
        redis.trace == old(redis.trace) + [ExistsCmd(SelectToken(request).value), DelCmd([SelectToken(request).value])]
    {
      var token := SelectToken(request);
      if token.None? {
        return Rejected(MissingToken);
      }
      var t := token.value;
      var present := redis.HasKey(t);
      if !present {
        return Rejected(RepeatedRequest);
      }
      var removed := redis.Del(Some([t]));
      if removed.Raised? {
        return Rejected(StoreFailure);
      }
      if !removed.value {
        return Rejected(DeleteFailed);
      }
      return Accepted;
    }
  }

  /** Issue a token, present it in the header twice: the first check passes, the second is a repeated request. */
  method IssueThenCheckTwice(service: TokenServiceImpl, uuid: string) returns (token: string, first: Verdict, second: Verdict)
    requires service.redis.Valid() && service.redis.reachable
    requires CanonicalUuid(uuid)
    modifies service.redis`data, service.redis`trace
    ensures |token| == 32
    ensures first == Accepted && second == Rejected(RepeatedRequest)
    ensures token !in service.redis.data
  {
    CanonicalUuidToken(uuid);
    token := service.CreateToken(uuid);
    first := service.CheckToken(Request(Some(token), None));
    second := service.CheckToken(Request(Some(token), None));
  }
}
