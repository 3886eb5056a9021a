/**
 * Several `checkToken` calls running at once against one store. Each call
 * takes two atomic steps, the same two the sequential guard takes: the probe
 * (token lookup and hasKey) and the delete. Between them any other step may
 * run: another call's step, a key reaching its TTL, or the connection going
 * down or coming back.
 */
module GuardInterleaving {
  import opened Wrappers
  import opened RedisUtils
  import opened TokenService

  /** Where one call stands: not started, past hasKey with the token, or finished. */
  datatype Phase = Idle | Probed(token: string) | Done(presented: Option<string>, verdict: Verdict)

  datatype World = World(store: map<string, Entry>, up: bool, requests: seq<Request>, phases: seq<Phase>)

  /** One atomic step: call `consumer` takes its next step, `key` expires (or is deleted elsewhere), or the connection changes. */
  datatype Event = Run(consumer: nat) | Lapse(key: string) | Connectivity(up: bool)

  ghost predicate WellFormed(w: World)
  {
    |w.requests| == |w.phases|
  }

  /**
   * The next step of one call, on the store as it is at that moment. A call
   * always leaves `Idle`, a finished call stays as it is, and the store
   * changes only when a delete accepts, which removes just the token's key.
   */
  function Advance(req: Request, p: Phase, m: map<string, Entry>, up: bool): (r: (Phase, map<string, Entry>))
    ensures !r.0.Idle?
    ensures p.Done? ==> r == (p, m)
    ensures p.Idle? ==> r.1 == m && (r.0.Probed? <==> up && SelectToken(req).Some? && SelectToken(req).value in m)
    ensures r.1 != m ==> p.Probed? && r.0 == Done(Some(p.token), Accepted) && r.1 == DeleteKeys(m, [p.token])
  {
    match p
    case Idle =>
      (match ProbeStore(req, m, up)
       case NoToken => Done(None, Rejected(MissingToken))
       case Absent(t) => Done(Some(t), Rejected(RepeatedRequest))
       case Present(t) => Probed(t), m)
    case Probed(t) =>
      var g := ConsumeStore(t, m, up);
      (Done(Some(t), g.verdict), g.store)
    case Done(_, _) => (p, m)
  }

  /** One event applied: only the running call's phase moves; expiry and connectivity touch no call. */
  function Step(w: World, e: Event): (r: World)
    requires WellFormed(w)
    ensures WellFormed(r) && r.requests == w.requests
    ensures forall j :: 0 <= j < |w.phases| && e != Run(j) ==> r.phases[j] == w.phases[j]
    ensures forall j :: 0 <= j < |w.phases| && w.phases[j].Done? ==> r.phases[j] == w.phases[j]
    ensures !e.Connectivity? ==> r.up == w.up
  {
    match e
    case Run(i) =>
      if i < |w.phases| then
        var (p, m) := Advance(w.requests[i], w.phases[i], w.store, w.up);
        w.(store := m, phases := w.phases[i := p])
      else w
    case Lapse(k) => w.(store := DeleteKeys(w.store, [k]))
    case Connectivity(b) => w.(up := b)
  }

  /** Events applied in order; a finished call keeps its verdict whatever follows. */
  function RunAll(w: World, es: seq<Event>): (r: World)
    requires WellFormed(w)
    ensures WellFormed(r) && r.requests == w.requests
    ensures forall j :: 0 <= j < |w.phases| && w.phases[j].Done? ==> r.phases[j] == w.phases[j]
    decreases |es|
  {
    if es == [] then w else RunAll(Step(w, es[0]), es[1..])
  }

  /** A call run alone from start to finish ends exactly as the sequential guard does. */
  lemma SoloRunIsGuard(req: Request, m: map<string, Entry>, up: bool)
    ensures var (p1, m1) := Advance(req, Idle, m, up);
      var (p2, m2) := Advance(req, p1, m1, up);
      p2.Done? && GuardResult(p2.verdict, m2) == Guard(req, m, up)
  {
  }

  function Hit(p: Phase, t: string): (n: nat)
  {
    if p == Done(Some(t), Accepted) then 1 else 0
  }

  /** How many calls have been accepted with token `t`. */
  function AcceptedFor(ps: seq<Phase>, t: string): (n: nat)
  {
    if ps == [] then 0 else Hit(ps[0], t) + AcceptedFor(ps[1..], t)
  }

  lemma {:induction false} AcceptedForUpdate(ps: seq<Phase>, i: nat, x: Phase, t: string)
    requires i < |ps|
    ensures AcceptedFor(ps[i := x], t) == AcceptedFor(ps, t) - Hit(ps[i], t) + Hit(x, t)
  {
    if i > 0 {
      assert ps[i := x][1..] == ps[1..][i - 1 := x];
      AcceptedForUpdate(ps[1..], i - 1, x, t);
    }
  }

  lemma {:induction false} NoneAcceptedAtStart(ps: seq<Phase>, t: string)
    requires forall i :: 0 <= i < |ps| ==> ps[i] == Idle
    ensures AcceptedFor(ps, t) == 0
  {
    if ps != [] {
      NoneAcceptedAtStart(ps[1..], t);
    }
  }

  function Stored(m: map<string, Entry>, t: string): (n: nat)
  {
    if t in m then 1 else 0
  }

  /** Acceptances of `t` so far plus the presence of `t` in the store never exceed one. */
  ghost predicate AtMostOnceInv(w: World, t: string)
  {
    AcceptedFor(w.phases, t) + Stored(w.store, t) <= 1
  }

  lemma StepKeepsAtMostOnce(w: World, e: Event, t: string)
    requires WellFormed(w) && AtMostOnceInv(w, t)
    ensures AtMostOnceInv(Step(w, e), t)
  {
    if e.Run? && e.consumer < |w.phases| {
      var i := e.consumer;
      var (p, m) := Advance(w.requests[i], w.phases[i], w.store, w.up);
      AcceptedForUpdate(w.phases, i, p, t);
    }
  }

  /**
   * However the steps of any number of calls, expiries and outages are
   * interleaved, a token present at most once and not yet accepted is
   * accepted at most once.
   */
  lemma {:induction false} AtMostOnce(w: World, es: seq<Event>, t: string)
    requires WellFormed(w) && AtMostOnceInv(w, t)
    ensures AtMostOnceInv(RunAll(w, es), t)
    ensures AcceptedFor(RunAll(w, es).phases, t) <= 1
    decreases |es|
  {
    if es != [] {
      StepKeepsAtMostOnce(w, es[0], t);
      AtMostOnce(Step(w, es[0]), es[1..], t);
    }
  }

  /** Calls that have not started yet, against a store holding the token once. */
  lemma FreshCallsAcceptAtMostOnce(w: World, es: seq<Event>, t: string)
    requires WellFormed(w)
    requires forall i :: 0 <= i < |w.phases| ==> w.phases[i] == Idle
    ensures AcceptedFor(RunAll(w, es).phases, t) <= 1
  {
    NoneAcceptedAtStart(w.phases, t);
    AtMostOnce(w, es, t);
  }

  ghost predicate AllPresent(w: World, t: string)
  {
    forall i :: 0 <= i < |w.requests| ==> SelectToken(w.requests[i]) == Some(t)
  }

  ghost predicate OnlyCalls(es: seq<Event>)
  {
    forall i :: 0 <= i < |es| ==> es[i].Run?
  }

  ghost predicate AllDone(w: World)
  {
    forall i :: 0 <= i < |w.phases| ==> w.phases[i].Done?
  }

  /** Every call either has not started, or holds token `t` and, if finished, is accepted or refused by hasKey or del. */
  ghost predicate OnToken(p: Phase, t: string)
  {
    p.Idle? || p == Probed(t) ||
    (p.Done? && p.presented == Some(t) &&
     p.verdict in {Accepted, Rejected(RepeatedRequest), Rejected(DeleteFailed)})
  }

  /** With the store up and nothing expiring: acceptance and presence add up to exactly one, and a finished call means the token is gone. */
  ghost predicate ExactlyOnceInv(w: World, t: string)
  {
    && AcceptedFor(w.phases, t) + Stored(w.store, t) == 1
    && (forall i :: 0 <= i < |w.phases| ==> OnToken(w.phases[i], t))
    && (forall i :: 0 <= i < |w.phases| && w.phases[i].Done? ==> t !in w.store)
  }

  lemma StepKeepsExactlyOnce(w: World, e: Event, t: string)
    requires WellFormed(w) && w.up && AllPresent(w, t) && ExactlyOnceInv(w, t)
    requires e.Run?
    ensures Step(w, e).up && ExactlyOnceInv(Step(w, e), t)
  {
    var i := e.consumer;
    if i < |w.phases| {
      var (p, m) := Advance(w.requests[i], w.phases[i], w.store, w.up);
      AcceptedForUpdate(w.phases, i, p, t);
      var w' := Step(w, e);
      assert w'.phases[i] == p;
      assert p.Done? ==> t !in m;
      forall j | 0 <= j < |w'.phases|
        ensures OnToken(w'.phases[j], t)
        ensures w'.phases[j].Done? ==> t !in w'.store
      {
        if j != i {
          assert w'.phases[j] == w.phases[j];
        }
      }
    }
  }

  lemma {:induction false} RunKeepsExactlyOnce(w: World, es: seq<Event>, t: string)
    requires WellFormed(w) && w.up && AllPresent(w, t) && ExactlyOnceInv(w, t)
    requires OnlyCalls(es)
    ensures RunAll(w, es).up && ExactlyOnceInv(RunAll(w, es), t)
    decreases |es|
  {
    if es != [] {
      StepKeepsExactlyOnce(w, es[0], t);
      assert OnlyCalls(es[1..]) by {
        forall i | 0 <= i < |es[1..]| ensures es[1..][i].Run? {
          assert es[1..][i] == es[i + 1];
        }
      }
      RunKeepsExactlyOnce(Step(w, es[0]), es[1..], t);
    }
  }

  /**
   * Calls that all present an issued token `t`, run to completion in any
   * order while the store stays up and the token does not expire: exactly
   * one is accepted, and every other is refused as a repeated request or by
   * the delete check.
   */
  lemma ExactlyOnce(w: World, es: seq<Event>, t: string)
    requires WellFormed(w) && w.up && |w.phases| > 0
    requires forall i :: 0 <= i < |w.phases| ==> w.phases[i] == Idle
    requires t in w.store && AllPresent(w, t)
    requires OnlyCalls(es) && AllDone(RunAll(w, es))
    ensures AcceptedFor(RunAll(w, es).phases, t) == 1
    ensures forall i :: 0 <= i < |w.phases| ==>
      RunAll(w, es).phases[i].verdict in {Accepted, Rejected(RepeatedRequest), Rejected(DeleteFailed)}
  {
    NoneAcceptedAtStart(w.phases, t);
    RunKeepsExactlyOnce(w, es, t);
    var r := RunAll(w, es);
    assert r.phases[0].Done?;
    assert t !in r.store;
    forall i | 0 <= i < |w.phases|
      ensures r.phases[i].verdict in {Accepted, Rejected(RepeatedRequest), Rejected(DeleteFailed)}
    {
      assert OnToken(r.phases[i], t);
    }
  }

  /**
   * The race named in `checkToken`: two calls both pass hasKey, the second
   * deletes first; the first call's del then answers false and it is refused
   * instead of accepted.
   */
  lemma TwoStepRace(m: map<string, Entry>, t: string, r0: Request, r1: Request)
    requires t in m
    requires SelectToken(r0) == Some(t) && SelectToken(r1) == Some(t)
    ensures var w := RunAll(World(m, true, [r0, r1], [Idle, Idle]), [Run(0), Run(1), Run(1), Run(0)]);
      w.phases == [Done(Some(t), Rejected(DeleteFailed)), Done(Some(t), Accepted)] &&
      w.store == DeleteKeys(m, [t])
  {
    var w0 := World(m, true, [r0, r1], [Idle, Idle]);
    var w1 := Step(w0, Run(0));
    assert w1.phases == [Probed(t), Idle];
    var w2 := Step(w1, Run(1));
    assert w2.phases == [Probed(t), Probed(t)];
    var w3 := Step(w2, Run(1));
    assert DelReply(m, [t]);
    assert w3.phases == [Probed(t), Done(Some(t), Accepted)] && w3.store == DeleteKeys(m, [t]);
    var w4 := Step(w3, Run(0));
    assert t !in w3.store;
    assert w4.phases == [Done(Some(t), Rejected(DeleteFailed)), Done(Some(t), Accepted)];
    assert RunAll(w0, [Run(0), Run(1), Run(1), Run(0)]) == w4 by {
      assert [Run(0), Run(1), Run(1), Run(0)][1..] == [Run(1), Run(1), Run(0)];
      assert [Run(1), Run(1), Run(0)][1..] == [Run(1), Run(0)];
      assert [Run(1), Run(0)][1..] == [Run(0)];
      assert [Run(0)][1..] == [];
    }
  }

  /**
   * An outage that begins after `hasKey` answered true and before `del` runs
   * is not turned into "重复请求": `del` throws out of the check, and the
   * token stays in the store.
   */
  lemma OutageAfterProbeRaises(req: Request, m: map<string, Entry>, t: string)
    requires t in m && SelectToken(req) == Some(t)
    ensures var w := RunAll(World(m, true, [req], [Idle]), [Run(0), Connectivity(false), Run(0)]);
      w.phases == [Done(Some(t), Rejected(StoreFailure))] && w.store == m
  {
    var w0 := World(m, true, [req], [Idle]);
    var w1 := Step(w0, Run(0));
    assert w1 == World(m, true, [req], [Probed(t)]);
    var w2 := Step(w1, Connectivity(false));
    var w3 := Step(w2, Run(0));
    assert w3 == World(m, false, [req], [Done(Some(t), Rejected(StoreFailure))]);
    assert [Run(0), Connectivity(false), Run(0)][1..] == [Connectivity(false), Run(0)];
    assert [Connectivity(false), Run(0)][1..] == [Run(0)];
    assert RunAll(w3, []) == w3;
  }

  /** A delete step that ignores del's answer, as the warning in `checkToken` describes. */
  function UncheckedConsume(t: string, m: map<string, Entry>, up: bool): (g: GuardResult)
  {
    if !up then GuardResult(Rejected(StoreFailure), m) else GuardResult(Accepted, DeleteKeys(m, [t]))
  }

  /** With that step, the same interleaving accepts the token twice. */
  lemma UncheckedConsumeAcceptsTwice(m: map<string, Entry>, t: string, r0: Request, r1: Request)
    requires t in m
    requires SelectToken(r0) == Some(t) && SelectToken(r1) == Some(t)
    ensures ProbeStore(r0, m, true) == Present(t) && ProbeStore(r1, m, true) == Present(t)
    ensures var second := UncheckedConsume(t, m, true);
      second.verdict == Accepted && UncheckedConsume(t, second.store, true).verdict == Accepted
    ensures ConsumeStore(t, UncheckedConsume(t, m, true).store, true).verdict == Rejected(DeleteFailed)
  {
  }
}
