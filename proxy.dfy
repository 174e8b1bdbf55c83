/** `JSONAPI::DynamicProxyObject`: forwards every call to its target and keeps the result
    in `@cache` under a key made of the method name and the arguments. The cache is
    written with `||=`, so a cached nil or false counts as absent. */
module Proxy {
  import opened Common
  import opened OrderedHash

  /** `cache_key(name, args)`: taken as injective in the name and the arguments. */
  datatype CacheKey = CacheKey(name: string, args: seq<Value>)

  /** An entry counts as cached only when its value is truthy. */
  predicate Hit(cache: map<CacheKey, Value>, key: CacheKey) {
    key in cache && Truthy(cache[key])
  }

  /** The effect of one call on the cache, the value returned and whether the target was invoked. */
  datatype Outcome = Outcome(cache: map<CacheKey, Value>, result: Value, forwarded: bool)

  /** `method_missing(name, *args)` against a target that answers `respond`. */
  function Dispatch(cache: map<CacheKey, Value>, respond: (string, seq<Value>) -> Value, name: string, args: seq<Value>): (o: Outcome)
    ensures o.forwarded <==> !Hit(cache, CacheKey(name, args))
    ensures o.result == if o.forwarded then respond(name, args) else cache[CacheKey(name, args)]
    ensures CacheKey(name, args) in o.cache && o.cache[CacheKey(name, args)] == o.result
    ensures o.cache.Keys == cache.Keys + {CacheKey(name, args)}
    ensures forall k :: k in cache && k != CacheKey(name, args) ==> o.cache[k] == cache[k]
  {
    var key := CacheKey(name, args);
    if Hit(cache, key) then Outcome(cache, cache[key], false)
    else
      var r := respond(name, args);
      Outcome(cache[key := r], r, true)
  }

  /** A truthy result is answered from the cache next time, whatever the target would now say. */
  lemma RepeatIsCached(cache: map<CacheKey, Value>, respond: (string, seq<Value>) -> Value,
                       later: (string, seq<Value>) -> Value, name: string, args: seq<Value>)
    requires Truthy(Dispatch(cache, respond, name, args).result)
    ensures var o := Dispatch(cache, respond, name, args);
            Dispatch(o.cache, later, name, args) == Outcome(o.cache, o.result, false)
  {
  }

  /** A nil or false result is stored but never reused: the identical next call goes to
      the target again. */
  lemma FalsyIsForwardedAgain(cache: map<CacheKey, Value>, respond: (string, seq<Value>) -> Value,
                              later: (string, seq<Value>) -> Value, name: string, args: seq<Value>)
    requires !Truthy(Dispatch(cache, respond, name, args).result)
    ensures var o := Dispatch(cache, respond, name, args);
            Dispatch(o.cache, later, name, args).forwarded
            && Dispatch(o.cache, later, name, args).result == later(name, args)
  {
  }

  /** Calls with different arguments use different entries. */
  lemma DistinctArgumentsDistinctKeys(name: string, args1: seq<Value>, args2: seq<Value>)
    requires args1 != args2
    ensures CacheKey(name, args1) != CacheKey(name, args2)
  {
  }

  /** The state after a series of calls: the cache, each call's result, and the calls that
      reached the target, in order. */
  datatype Trace = Trace(cache: map<CacheKey, Value>, results: seq<Value>, forwarded: seq<CacheKey>)

  function Run(cache: map<CacheKey, Value>, respond: (string, seq<Value>) -> Value, calls: seq<CacheKey>): Trace
    decreases |calls|
  {
    if |calls| == 0 then Trace(cache, [], [])
    else
      var t := Run(cache, respond, calls[..|calls| - 1]);
      var c := calls[|calls| - 1];
      var o := Dispatch(t.cache, respond, c.name, c.args);
      Trace(o.cache, t.results + [o.result], t.forwarded + if o.forwarded then [c] else [])
  }

  /** Every cached entry is what the target answers for it. */
  ghost predicate Agrees(cache: map<CacheKey, Value>, respond: (string, seq<Value>) -> Value) {
    forall k :: k in cache ==> cache[k] == respond(k.name, k.args)
  }

  /** For a deterministic target, caching does not change what any call returns. */
  lemma {:induction false} RunIsTransparent(cache: map<CacheKey, Value>, respond: (string, seq<Value>) -> Value, calls: seq<CacheKey>)
    requires Agrees(cache, respond)
    ensures Agrees(Run(cache, respond, calls).cache, respond)
    ensures |Run(cache, respond, calls).results| == |calls|
    ensures forall i :: 0 <= i < |calls| ==> Run(cache, respond, calls).results[i] == respond(calls[i].name, calls[i].args)
    decreases |calls|
  {
    if |calls| > 0 {
      var p := calls[..|calls| - 1];
      RunIsTransparent(cache, respond, p);
      forall i | 0 <= i < |p|
        ensures calls[i] == p[i]
      {
      }
    }
  }

  /** A call never loses a cached entry, and after a call with a truthy answer its own
      key is cached. */
  lemma DispatchKeepsHits(cache: map<CacheKey, Value>, respond: (string, seq<Value>) -> Value, c: CacheKey)
    requires Truthy(respond(c.name, c.args))
    ensures var o := Dispatch(cache, respond, c.name, c.args);
            && Hit(o.cache, c)
            && forall x :: Hit(cache, x) ==> Hit(o.cache, x)
  {
  }

  /** When the target only answers truthy values, it sees each distinct call at most once,
      and only calls that were not cached at the start. */
  lemma {:induction false} RunForwardsEachCallOnce(cache: map<CacheKey, Value>, respond: (string, seq<Value>) -> Value, calls: seq<CacheKey>)
    requires forall c :: c in calls ==> Truthy(respond(c.name, c.args))
    ensures Distinct(Run(cache, respond, calls).forwarded)
    ensures forall c :: c in Run(cache, respond, calls).forwarded ==> c in calls && !Hit(cache, c)
    ensures forall c :: c in calls ==> Hit(Run(cache, respond, calls).cache, c)
    ensures forall c :: Hit(cache, c) ==> Hit(Run(cache, respond, calls).cache, c)
    decreases |calls|
  {
    if |calls| > 0 {
      var p := calls[..|calls| - 1];
      var c := calls[|calls| - 1];
      assert calls == p + [c];
      RunForwardsEachCallOnce(cache, respond, p);
      var t := Run(cache, respond, p);
      var o := Dispatch(t.cache, respond, c.name, c.args);
      DispatchKeepsHits(t.cache, respond, c);
      assert Run(cache, respond, calls).cache == o.cache;
      if o.forwarded {
        assert !Hit(t.cache, c) && !Hit(cache, c);
        assert c !in p;
        assert c !in t.forwarded;
        DistinctAppend(t.forwarded, c);
        assert Run(cache, respond, calls).forwarded == t.forwarded + [c];
      } else {
        assert Run(cache, respond, calls).forwarded == t.forwarded;
      }
    }
  }

  /** The target: its class, how it answers, and the calls it has received. */
  class Target {
    const className: string
    const respond: (string, seq<Value>) -> Value
    var received: seq<CacheKey>

    constructor (className: string, respond: (string, seq<Value>) -> Value)
      ensures this.className == className && this.respond == respond && received == []
    {
      this.className := className;
      this.respond := respond;
      received := [];
    }

    /** `target.send(name, *args)`. */
    method Send(name: string, args: seq<Value>) returns (r: Value)
      modifies this
      ensures r == respond(name, args)
      ensures received == old(received) + [CacheKey(name, args)]
    {
      r := respond(name, args);
      received := received + [CacheKey(name, args)];
    }
  }

  class DynamicProxyObject {
    var cache: map<CacheKey, Value>
    const target: Target

    /** `initialize(target)`: an empty cache around the given target. */
    constructor (target: Target)
      ensures cache == map[] && this.target == target
    {
      cache := map[];
      this.target := target;
    }

    /** `class`: the target's class, not the proxy's. */
    function Class(): (c: string)
      ensures c == target.className
    {
      target.className
    }

    /** `cache_key`. */
    function CacheKeyOf(name: string, args: seq<Value>): (k: CacheKey)
      ensures k.name == name && k.args == args
    {
      CacheKey(name, args)
    }

    /** `method_missing`: answers from the cache, or forwards once and stores the result
        under its own key; no other entry changes. */
    method MethodMissing(name: string, args: seq<Value>) returns (r: Value)
      modifies this, target
      ensures var o := Dispatch(old(cache), target.respond, name, args);
              && cache == o.cache && r == o.result
              && target.received == old(target.received) + (if o.forwarded then [CacheKey(name, args)] else [])
    {
      var key := CacheKeyOf(name, args);
      if !(key in cache && Truthy(cache[key])) {
        var answer := target.Send(name, args);
        cache := cache[key := answer];
      }
      r := cache[key];
    }
  }

  /** Two identical calls reach the target once; a call with other arguments reaches it again. */
  method RepeatedCallsExample(target: Target)
    requires target.received == []
    requires Truthy(target.respond("foo", [])) && Truthy(target.respond("foo", [Int(1)]))
    modifies target
    ensures target.received == [CacheKey("foo", []), CacheKey("foo", [Int(1)])]
  {
    var proxy := new DynamicProxyObject(target);
    var a := proxy.MethodMissing("foo", []);
    var b := proxy.MethodMissing("foo", []);
    var c := proxy.MethodMissing("foo", [Int(1)]);
    var d := proxy.MethodMissing("foo", [Int(1)]);
    assert a == b && c == d;
  }
}
