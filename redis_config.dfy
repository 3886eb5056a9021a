/**
 * The pieces of `RedisConfig` with logic of their own: the cache key
 * generator and the table of cache time-to-live settings.
 */
module RedisConfig {
  import opened Wrappers

  /** `String.replace(":", "=")`: every colon becomes an equals sign. */
  function ReplaceColons(s: string): (r: string)
    ensures |r| == |s|
    ensures forall i :: 0 <= i < |s| ==> r[i] == (if s[i] == ':' then '=' else s[i])
  {
    if s == [] then [] else [if s[0] == ':' then '=' else s[0]] + ReplaceColons(s[1..])
  }

  /** What one argument adds to a key: nothing for null, else its JSON text with colons replaced. */
  function Contribution<V>(arg: Option<V>, toJson: V -> string): (r: string)
    ensures arg.None? ==> r == ""
    ensures arg.Some? ==> |r| == |toJson(arg.value)|
    ensures forall i :: 0 <= i < |r| ==> r[i] != ':'
  {
    match arg
    case None => ""
    case Some(v) => ReplaceColons(toJson(v))
  }

  /** The argument part of a key: the contributions, in order, with no separator. */
  function ArgsKey<V>(args: seq<Option<V>>, toJson: V -> string): (r: string)
    ensures forall i :: 0 <= i < |r| ==> r[i] != ':'
  {
    if args == [] then ""
    else
      var head := Contribution(args[0], toJson);
      var rest := ArgsKey(args[1..], toJson);
      assert forall i :: 0 <= i < |rest| ==> (head + rest)[|head| + i] == rest[i];
      head + rest
  }

  lemma {:induction false} ArgsKeyConcat<V>(a: seq<Option<V>>, b: seq<Option<V>>, toJson: V -> string)
    ensures ArgsKey(a + b, toJson) == ArgsKey(a, toJson) + ArgsKey(b, toJson)
  {
    if a == [] {
      assert a + b == b;
    } else {
      assert (a + b)[1..] == a[1..] + b;
      ArgsKeyConcat(a[1..], b, toJson);
    }
  }

  /** A null argument, wherever it stands, leaves the key as if it were not there. */
  lemma NullArgumentIgnored<V>(a: seq<Option<V>>, b: seq<Option<V>>, toJson: V -> string)
    ensures ArgsKey(a + [None] + b, toJson) == ArgsKey(a + b, toJson)
  {
    ArgsKeyConcat(a + [None], b, toJson);
    ArgsKeyConcat(a, [None], toJson);
    ArgsKeyConcat(a, b, toJson);
  }

  /** Only null arguments (or none at all) give an empty argument part. */
  lemma {:induction false} AllNullArgsKeyEmpty<V>(args: seq<Option<V>>, toJson: V -> string)
    requires forall i :: 0 <= i < |args| ==> args[i].None?
    ensures ArgsKey(args, toJson) == ""
  {
    if args != [] {
      AllNullArgsKeyEmpty(args[1..], toJson);
    }
  }

  /** With no separator and nulls dropped, argument lists that differ only in where a null stands share one key. */
  lemma NullPositionCollision<V>(a: seq<Option<V>>, b: seq<Option<V>>, c: seq<Option<V>>, toJson: V -> string)
    ensures ArgsKey(a + [None] + b + c, toJson) == ArgsKey(a + b + [None] + c, toJson)
  {
    NullArgumentIgnored(a, b + c, toJson);
    NullArgumentIgnored(a + b, c, toJson);
    assert a + [None] + b + c == a + [None] + (b + c);
    assert a + (b + c) == a + b + c;
  }

  /** The fixed start of every key: simple class name, `:`, method name, `:`. */
  function KeyPrefix(simpleName: string, methodName: string): (prefix: string)
  {
    simpleName + ":" + methodName + ":"
  }

  /**
   * `keyGenerator().generate`: the target's simple class name, `:`, the
   * method name, `:`, then each non-null argument's JSON text with colons
   * replaced, appended in order.
   */
  method Generate<V>(simpleName: string, methodName: string, args: seq<Option<V>>, toJson: V -> string)
    returns (key: string)
    ensures key == KeyPrefix(simpleName, methodName) + ArgsKey(args, toJson)
    ensures key[..|KeyPrefix(simpleName, methodName)|] == KeyPrefix(simpleName, methodName)
    ensures forall i :: |KeyPrefix(simpleName, methodName)| <= i < |key| ==> key[i] != ':'
  {
    var prefix := KeyPrefix(simpleName, methodName);
    var sb := prefix;
    for i := 0 to |args|
      invariant sb == prefix + ArgsKey(args[..i], toJson)
    {
      GenerateStep(prefix, args, i, toJson);
      if args[i].Some? {
        var objKey := toJson(args[i].value);
        objKey := ReplaceColons(objKey);
        sb := sb + objKey;
      } else {
        assert Contribution(args[i], toJson) == "";
      }
    }
    assert args[..|args|] == args;
    key := sb;
    KeyShape(prefix, args, toJson);
  }

  /** One turn of the key generator's loop. */
  lemma GenerateStep<V>(prefix: string, args: seq<Option<V>>, i: nat, toJson: V -> string)
    requires i < |args|
    ensures prefix + ArgsKey(args[..i + 1], toJson) == prefix + ArgsKey(args[..i], toJson) + Contribution(args[i], toJson)
  {
    assert args[..i + 1] == args[..i] + [args[i]];
    ArgsKeyAppend(args[..i], args[i], toJson);
  }

  /** Appending one argument appends its contribution. */
  lemma ArgsKeyAppend<V>(a: seq<Option<V>>, x: Option<V>, toJson: V -> string)
    ensures ArgsKey(a + [x], toJson) == ArgsKey(a, toJson) + Contribution(x, toJson)
  {
    ArgsKeyConcat(a, [x], toJson);
    assert ArgsKey([x], toJson) == Contribution(x, toJson) + ArgsKey([x][1..], toJson);
  }

  /** A key is its prefix followed by a colon-free argument part. */
  lemma KeyShape<V>(prefix: string, args: seq<Option<V>>, toJson: V -> string)
    ensures (prefix + ArgsKey(args, toJson))[..|prefix|] == prefix
    ensures forall i :: |prefix| <= i < |prefix + ArgsKey(args, toJson)| ==> (prefix + ArgsKey(args, toJson))[i] != ':'
  {
    var rest := ArgsKey(args, toJson);
    assert forall i :: |prefix| <= i < |prefix + rest| ==> (prefix + rest)[i] == rest[i - |prefix|];
  }

  /** `DEFAULT_EXPIRE_TIME`, in seconds. */
  const DefaultExpireTime: int := 600

  datatype Serializer = StringRedisSerializer | FastJsonRedisSerializer

  /** The settings of one cache. */
  datatype CacheConfiguration = CacheConfiguration(
    entryTtl: int,
    keySerializer: Serializer,
    valueSerializer: Serializer,
    cacheNullValues: bool)

  /** `redisCacheConfiguration(ttl)`: the given TTL, string keys, JSON values, null values not cached. */
  function RedisCacheConfiguration(ttl: int): (c: CacheConfiguration)
    ensures c.entryTtl == ttl && !c.cacheNullValues
  {
    CacheConfiguration(ttl, StringRedisSerializer, FastJsonRedisSerializer, false)
  }

  /** A cache manager: settings for named caches and the defaults for every other cache. */
  datatype CacheManager = CacheManager(defaults: CacheConfiguration, initial: map<string, CacheConfiguration>)

  /** The settings a cache of the given name is created with. */
  function ConfigFor(mgr: CacheManager, cacheName: string): (c: CacheConfiguration)
    ensures cacheName in mgr.initial ==> c == mgr.initial[cacheName]
    ensures cacheName !in mgr.initial ==> c == mgr.defaults
    ensures c == mgr.defaults || c in mgr.initial.Values
  {
    if cacheName in mgr.initial then mgr.initial[cacheName] else mgr.defaults
  }

  /** The TTL table as documented: 300, 400 and 500 seconds for the three named caches, 600 for the rest. */
  function DocumentedTtl(cacheName: string): (ttl: int)
    ensures 300 <= ttl <= DefaultExpireTime
    ensures ttl == DefaultExpireTime <==> cacheName !in {"cacheName1", "cacheName2", "cacheName3"}
  {
    match cacheName
    case "cacheName1" => 300
    case "cacheName2" => 400
    case "cacheName3" => 500
    case _ => 600
  }

  /** `cacheManager`: fills the named-cache map with three puts and sets the defaults from `DEFAULT_EXPIRE_TIME`. */
  method BuildCacheManager() returns (mgr: CacheManager)
    ensures mgr.initial.Keys == {"cacheName1", "cacheName2", "cacheName3"}
    ensures forall name :: ConfigFor(mgr, name).entryTtl == DocumentedTtl(name)
    ensures forall name :: ConfigFor(mgr, name) == RedisCacheConfiguration(ConfigFor(mgr, name).entryTtl)
    ensures forall name :: !ConfigFor(mgr, name).cacheNullValues
  {
    var speCacheConfigurations: map<string, CacheConfiguration> := map[];
    speCacheConfigurations := speCacheConfigurations["cacheName1" := RedisCacheConfiguration(300)];
    speCacheConfigurations := speCacheConfigurations["cacheName2" := RedisCacheConfiguration(400)];
    speCacheConfigurations := speCacheConfigurations["cacheName3" := RedisCacheConfiguration(500)];
    mgr := CacheManager(RedisCacheConfiguration(DefaultExpireTime), speCacheConfigurations);
  }
}
