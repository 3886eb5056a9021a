/**
 * The string/key part of the `RedisUtils` wrapper: a store of string values
 * with optional expiry deadlines, the clock those deadlines refer to, and the
 * wrapper methods the rest of the application calls.
 *
 * A value is the Java value's text; value serialisation is not modelled. A connection
 * failure is modelled by `reachable == false`: every command sent then throws,
 * and each wrapper method either swallows that (returning false or null, as
 * its try/catch does) or lets it propagate (`Raised`).
 */
module RedisUtils {
  import opened Wrappers

  /** A stored value and its absolute expiry deadline on the store clock, in seconds. */
  datatype Entry = Entry(value: string, deadline: Option<int>)

  /** The commands the wrapper sends to the server (SET, SETEX, GETSET, SETNX, GET, MGET, DEL, EXISTS, TTL, EXPIRE). */
  datatype Command =
    | SetCmd(key: string, value: string)
    | SetExCmd(key: string, value: string, seconds: int)
    | GetSetCmd(key: string, value: string)
    | SetNxCmd(key: string, value: string)
    | GetCmd(key: string)
    | MGetCmd(keys: seq<string>)
    | DelCmd(keys: seq<string>)
    | ExistsCmd(key: string)
    | TtlCmd(key: string)
    | ExpireCmd(key: string, seconds: int)

  /** What a wrapper method that does not catch exceptions gives back: a value, or the exception thrown by the template. */
  datatype Reply<T> = Returned(value: T) | Raised

  /** No entry kept at time `now` has already reached its deadline. */
  ghost predicate Live(m: map<string, Entry>, now: int)
  {
    forall k :: k in m && m[k].deadline.Some? ==> m[k].deadline.value > now
  }

  /** The value stored under `key`, or null. */
  function Lookup(m: map<string, Entry>, key: string): (r: Option<string>)
    ensures r.Some? <==> key in m
    ensures r.Some? ==> r.value == m[key].value
  {
    if key in m then Some(m[key].value) else None
  }

  /** The store after DEL of every listed key. */
  function DeleteKeys(m: map<string, Entry>, keys: seq<string>): (r: map<string, Entry>)
    ensures forall k :: k in r <==> k in m && k !in keys
    ensures forall k :: k in r ==> r[k] == m[k]
  {
    map k | k in m && k !in keys :: m[k]
  }

  /** The number DEL of several keys reports: the distinct listed keys that were present. */
  function PresentCount(m: map<string, Entry>, keys: seq<string>): (r: nat)
    ensures r > 0 <==> exists k :: k in keys && k in m
  {
    var present := set k | k in keys && k in m;
    assert (exists k :: k in keys && k in m) ==> present != {} by {
      if exists k :: k in keys && k in m {
        var k :| k in keys && k in m;
        assert k in present;
      }
    }
    |present|
  }

  /**
   * What `del` answers for a non-empty key list: the delete result of the
   * single key, or whether the batch delete removed anything. Both branches
   * answer the same question: was some listed key present?
   */
  function DelReply(m: map<string, Entry>, keys: seq<string>): (r: bool)
    requires |keys| > 0
    ensures r <==> exists k :: k in keys && k in m
  {
    if |keys| == 1 then
      assert keys[0] in keys;
      keys[0] in m
    else PresentCount(m, keys) > 0
  }

  /** The seconds to live that TTL reports: -2 for a missing key, -1 for a key without expiry. */
  function Remaining(m: map<string, Entry>, now: int, key: string): (r: int)
    ensures Live(m, now) ==> (r == -2 <==> key !in m)
    ensures Live(m, now) ==> (r == -1 <==> key in m && m[key].deadline.None?)
    ensures Live(m, now) ==> (r > 0 <==> key in m && m[key].deadline.Some?)
  {
    if key !in m then -2
    else match m[key].deadline
      case None => -1
      case Some(d) => d - now
  }

  /** The store once the clock reads `now`: every entry whose deadline has passed is gone. */
  function Purge(m: map<string, Entry>, now: int): (r: map<string, Entry>)
    ensures forall k :: k in r <==> k in m && (m[k].deadline.None? || m[k].deadline.value > now)
    ensures forall k :: k in r ==> r[k] == m[k]
    ensures Live(r, now)
  {
    map k | k in m && (m[k].deadline.None? || m[k].deadline.value > now) :: m[k]
  }

  /** A key written with a TTL of `ttl` seconds is gone once at least `ttl` seconds have passed, and nothing else expires early. */
  lemma WrittenKeyExpires(m: map<string, Entry>, now: int, key: string, value: string, ttl: int, elapsed: nat)
    requires Live(m, now)
    requires ttl > 0
    ensures var r := Purge(m[key := Entry(value, Some(now + ttl))], now + elapsed);
      (key in r <==> elapsed < ttl) &&
      (forall k :: k in m && k != key && m[k].deadline.None? ==> k in r)
  {
  }

  class RedisStore {
    /** The keys the server holds, with their values and deadlines. */
    var data: map<string, Entry>
    /** The server's clock, in seconds. */
    var now: int
    /** Whether commands reach the server; when false every command throws. */
    var reachable: bool
    /** Every command the wrapper has sent, in order. */
    ghost var trace: seq<Command>

    ghost predicate Valid()
      reads this
    {
      Live(data, now)
    }

    constructor (clock: int)
      ensures Valid()
      ensures data == map[] && now == clock && reachable && trace == []
    {
      data := map[];
      now := clock;
      reachable := true;
      trace := [];
    }

    /** The connection to the server is lost or comes back. */
    method SetReachable(up: bool)
      requires Valid()
      modifies this`reachable
      ensures Valid() && reachable == up
    {
      reachable := up;
    }

    /** Time passes on the server: keys whose deadline has been reached are removed. */
    method AdvanceClock(seconds: nat)
      requires Valid()
      modifies this`now, this`data
      ensures Valid()
      ensures now == old(now) + seconds
      ensures data == Purge(old(data), now)
    {
      now := now + seconds;
      data := Purge(data, now);
    }

    /** `set(key, value)`: SET without expiry; false if the command throws. */
    method Set(key: string, value: string) returns (ok: bool)
      requires Valid()
      modifies this`data, this`trace
      ensures Valid()
      ensures ok == reachable
      ensures data == if reachable then old(data)[key := Entry(value, None)] else old(data)
      ensures trace == old(trace) + [SetCmd(key, value)]
    {
      trace := trace + [SetCmd(key, value)];
      if reachable {
        data := data[key := Entry(value, None)];
        ok := true;
      } else {
        ok := false;
      }
    }

    /**
     * `set(key, value, time)` as written: SETEX for a positive time, otherwise
     * the one-argument `set`, whose own result is discarded before `true` is
     * returned.
     */
    method SetWithTime(key: string, value: string, time: int) returns (ok: bool)
      requires Valid()
      modifies this`data, this`trace
      ensures Valid()
      ensures ok == (reachable || time <= 0)
      ensures data == if !reachable then old(data)
                      else old(data)[key := Entry(value, if time > 0 then Some(now + time) else None)]
      ensures trace == old(trace) + [if time > 0 then SetExCmd(key, value, time) else SetCmd(key, value)]
    {
      if time > 0 {
        trace := trace + [SetExCmd(key, value, time)];
        if reachable {
          data := data[key := Entry(value, Some(now + time))];
          ok := true;
        } else {
          ok := false;
        }
      } else {
        var stored := Set(key, value);
        ok := true;
      }
    }

    /** `set(key, value, time)` with the inner `set`'s result passed on: true exactly when the value was written. */
    method SetWithTimeReported(key: string, value: string, time: int) returns (ok: bool)
      requires Valid()
      modifies this`data, this`trace
      ensures Valid()
      ensures ok == reachable
      ensures data == if !reachable then old(data)
                      else old(data)[key := Entry(value, if time > 0 then Some(now + time) else None)]
      ensures trace == old(trace) + [if time > 0 then SetExCmd(key, value, time) else SetCmd(key, value)]
    {
      if time > 0 {
        trace := trace + [SetExCmd(key, value, time)];
        if reachable {
          data := data[key := Entry(value, Some(now + time))];
          ok := true;
        } else {
          ok := false;
        }
      } else {
        ok := Set(key, value);
      }
    }

    /** `getAndSet`: GETSET returns the previous value (null if none) and leaves the new one stored without expiry. */
    method GetAndSet(key: string, value: string) returns (previous: Option<string>)
      requires Valid()
      modifies this`data, this`trace
      ensures Valid()
      ensures previous == if reachable then Lookup(old(data), key) else None
      ensures data == if reachable then old(data)[key := Entry(value, None)] else old(data)
      ensures trace == old(trace) + [GetSetCmd(key, value)]
    {
      trace := trace + [GetSetCmd(key, value)];
      if reachable {
        previous := Lookup(data, key);
        data := data[key := Entry(value, None)];
      } else {
        previous := None;
      }
    }

    /** `setIfAbsent`: SETNX writes and answers true only when the key is missing. */
    method SetIfAbsent(key: string, value: string) returns (ok: bool)
      requires Valid()
      modifies this`data, this`trace
      ensures Valid()
      ensures ok <==> reachable && key !in old(data)
      ensures data == if ok then old(data)[key := Entry(value, None)] else old(data)
      ensures trace == old(trace) + [SetNxCmd(key, value)]
    {
      trace := trace + [SetNxCmd(key, value)];
      if reachable && key !in data {
        data := data[key := Entry(value, None)];
        ok := true;
      } else {
        ok := false;
      }
    }

    /** `get`: null for a null key without contacting the server; otherwise GET, whose failure propagates. */
    method Get(key: Option<string>) returns (r: Reply<Option<string>>)
      modifies this`trace
      ensures key.None? ==> r == Returned(None) && trace == old(trace)
      ensures key.Some? ==> trace == old(trace) + [GetCmd(key.value)]
      ensures key.Some? ==> r == if reachable then Returned(Lookup(data, key.value)) else Raised
    {
      if key.None? {
        r := Returned(None);
      } else {
        trace := trace + [GetCmd(key.value)];
        r := if reachable then Returned(Lookup(data, key.value)) else Raised;
      }
    }

    /** `multiGet`: null for a null or empty collection; otherwise MGET, one value or null per key, in order. */
    method MultiGet(keys: Option<seq<string>>) returns (r: Reply<Option<seq<Option<string>>>>)
      modifies this`trace
      ensures (keys.None? || keys.value == []) ==> r == Returned(None) && trace == old(trace)
      ensures keys.Some? && keys.value != [] ==> trace == old(trace) + [MGetCmd(keys.value)]
      ensures keys.Some? && keys.value != [] && !reachable ==> r == Raised
      ensures keys.Some? && keys.value != [] && reachable ==>
        r.Returned? && r.value.Some? && |r.value.value| == |keys.value| &&
        forall i :: 0 <= i < |keys.value| ==> r.value.value[i] == Lookup(data, keys.value[i])
    {
      if keys.None? || keys.value == [] {
        r := Returned(None);
      } else {
        var ks := keys.value;
        trace := trace + [MGetCmd(ks)];
        if reachable {
          var m := data;
          r := Returned(Some(seq(|ks|, i requires 0 <= i < |ks| => Lookup(m, ks[i]))));
        } else {
          r := Raised;
        }
      }
    }

    /**
     * `del`: false for a null or empty key list without contacting the
     * server; one key: that key's delete result; several keys: whether the
     * batch delete count is positive. Failures propagate.
     */
    method Del(keys: Option<seq<string>>) returns (r: Reply<bool>)
      requires Valid()
      modifies this`data, this`trace
      ensures Valid()
      ensures (keys.None? || keys.value == []) ==> r == Returned(false) && data == old(data) && trace == old(trace)
      ensures keys.Some? && keys.value != [] ==> trace == old(trace) + [DelCmd(keys.value)]
      ensures keys.Some? && keys.value != [] && !reachable ==> r == Raised && data == old(data)
      ensures keys.Some? && keys.value != [] && reachable ==>
        r == Returned(DelReply(old(data), keys.value)) && data == DeleteKeys(old(data), keys.value)
    {
      if keys.Some? && |keys.value| > 0 {
        var ks := keys.value;
        trace := trace + [DelCmd(ks)];
        if !reachable {
          r := Raised;
        } else if |ks| == 1 {
          var removed := ks[0] in data;
          data := DeleteKeys(data, ks);
          r := Returned(removed);
        } else {
          var count := PresentCount(data, ks);
          data := DeleteKeys(data, ks);
          r := Returned(count > 0);
        }
      } else {
        r := Returned(false);
      }
    }

    /** `hasKey`: EXISTS; a failure is reported as false. */
    method HasKey(key: string) returns (b: bool)
      modifies this`trace
      ensures b <==> reachable && key in data
      ensures trace == old(trace) + [ExistsCmd(key)]
    {
      trace := trace + [ExistsCmd(key)];
      b := reachable && key in data;
    }

    /** `getKeyExpire`: TTL in seconds, -1 for a key without expiry (-2 for a missing one); failures propagate. */
    method GetKeyExpire(key: string) returns (r: Reply<int>)
      requires Valid()
      modifies this`trace
      ensures trace == old(trace) + [TtlCmd(key)]
      ensures !reachable ==> r == Raised
      ensures reachable ==> r == Returned(Remaining(data, now, key))
      ensures r.Returned? ==> (r.value == -2 <==> key !in data)
      ensures r.Returned? ==> (r.value == -1 <==> key in data && data[key].deadline.None?)
      ensures r.Returned? ==> r.value == -2 || r.value == -1 || r.value >= 1
    {
      trace := trace + [TtlCmd(key)];
      r := if reachable then Returned(Remaining(data, now, key)) else Raised;
    }

    /**
     * `expireKey`: a non-positive time sends nothing and answers true; a
     * positive one sends EXPIRE (which does nothing to a missing key) and
     * answers true unless the command throws.
     */
    method ExpireKey(key: string, time: int) returns (ok: bool)
      requires Valid()
      modifies this`data, this`trace
      ensures Valid()
      ensures time <= 0 ==> ok && data == old(data) && trace == old(trace)
      ensures time > 0 ==> ok == reachable && trace == old(trace) + [ExpireCmd(key, time)]
      ensures time > 0 ==> data == if reachable && key in old(data)
                                   then old(data)[key := old(data)[key].(deadline := Some(now + time))]
                                   else old(data)
    {
      ok := true;
      if time > 0 {
        trace := trace + [ExpireCmd(key, time)];
        if !reachable {
          ok := false;
        } else if key in data {
          data := data[key := data[key].(deadline := Some(now + time))];
        }
      }
    }
  }

  /**
   * `set(key, value, time)` with a non-positive time during an outage: the
   * as-written wrapper answers true although nothing was stored, while the
   * reporting variant answers false.
   */
  method SetWithTimeDuringOutage(key: string, value: string, time: int)
    returns (asWritten: bool, reported: bool, stored: bool)
    requires time <= 0
    ensures asWritten && !reported && !stored
  {
    var store := new RedisStore(0);
    store.SetReachable(false);
    asWritten := store.SetWithTime(key, value, time);
    reported := store.SetWithTimeReported(key, value, time);
    stored := key in store.data;
  }
}
