/** `Container` of src/app/utils/serviceContainer.ts: named resolvers, registered either per call
    (`bind`) or as singletons whose first truthy result is cached. A resolver is a closure the
    model cannot see: it is named by a `ResolverId`, and the value a call returns is an input. */
module ServiceContainer {
  import opened Wrappers
  import opened JsValue

  /** Stands for one `() => any` closure. */
  type ResolverId = nat

  /** `{ resolver, singleton, instance? }`; an absent `instance` is `Undefined`. */
  datatype ServiceDefinition = ServiceDefinition(resolver: ResolverId, singleton: bool, instance: Value)

  /** What one `resolve` does with a registered definition when the resolver, if called, returns
      `produced`: the value returned, the definition afterwards, and whether the resolver ran. */
  datatype Resolved = Resolved(value: Value, definition: ServiceDefinition, invoked: bool)

  function Resolution(d: ServiceDefinition, produced: Value): (r: Resolved)
    ensures r.definition.resolver == d.resolver && r.definition.singleton == d.singleton
    ensures r.invoked <==> !d.singleton || !Truthy(d.instance)
    ensures r.invoked ==> r.value == produced
    ensures !r.invoked ==> r.value == d.instance
    ensures d.singleton ==> r.definition.instance == r.value
    ensures !d.singleton ==> r.definition == d
  {
    if d.singleton then
      var cached := if !Truthy(d.instance) then d.(instance := produced) else d;
      Resolved(cached.instance, cached, !Truthy(d.instance))
    else
      Resolved(produced, d, true)
  }

  /** A `bind` registration runs its resolver on every resolve and keeps nothing. */
  lemma BoundResolverRunsEveryTime(resolver: ResolverId, p1: Value, p2: Value)
    ensures var d := ServiceDefinition(resolver, false, Undefined);
            var first := Resolution(d, p1);
            var second := Resolution(first.definition, p2);
            first.invoked && second.invoked && first.value == p1 && second.value == p2
  {
  }

  /** A singleton whose resolver returned a truthy value keeps returning it without running the
      resolver again. */
  lemma SingletonCachesTruthyResult(resolver: ResolverId, p1: Value, p2: Value)
    requires Truthy(p1)
    ensures var d := ServiceDefinition(resolver, true, Undefined);
            var first := Resolution(d, p1);
            var second := Resolution(first.definition, p2);
            first.invoked && !second.invoked && second.value == p1 && second.definition == first.definition
  {
  }

  /** A singleton whose resolver returned a falsy value is not cached: the next resolve runs the
      resolver again and returns the new value. */
  lemma SingletonRetriesFalsyResult(resolver: ResolverId, p1: Value, p2: Value)
    requires !Truthy(p1)
    ensures var d := ServiceDefinition(resolver, true, Undefined);
            var first := Resolution(d, p1);
            var second := Resolution(first.definition, p2);
            first.invoked && second.invoked && first.value == p1 && second.value == p2
  {
  }

  class Container {
    /** `services`. */
    var services: map<string, ServiceDefinition>
    /** The resolvers called so far, in call order. */
    var calls: seq<ResolverId>

    constructor ()
      ensures services == map[] && calls == []
    {
      services := map[];
      calls := [];
    }

    /** `bind`: registers (or replaces) `name` with a per-call resolver, dropping any cache. */
    method Bind(name: string, resolver: ResolverId)
      modifies this
      ensures services == old(services)[name := ServiceDefinition(resolver, false, Undefined)]
      ensures forall n :: n != name && n in old(services) ==> n in services && services[n] == old(services)[n]
      ensures calls == old(calls)
    {
      services := services[name := ServiceDefinition(resolver, false, Undefined)];
    }

    /** `singleton`: registers (or replaces) `name` with a cached resolver, dropping any cache. */
    method Singleton(name: string, resolver: ResolverId)
      modifies this
      ensures services == old(services)[name := ServiceDefinition(resolver, true, Undefined)]
      ensures forall n :: n != name && n in old(services) ==> n in services && services[n] == old(services)[n]
      ensures calls == old(calls)
    {
      services := services[name := ServiceDefinition(resolver, true, Undefined)];
    }

    /** `resolve`: an unknown name throws "Service <name> not found" and changes nothing;
        otherwise the definition is resolved as `Resolution` says, calling the resolver at most
        once, and only that name's definition can change. */
    method Resolve(name: string, produced: Value) returns (r: Result<Value, string>)
      modifies this
      ensures name !in old(services) ==>
                r == Failure("Service " + name + " not found") && services == old(services) && calls == old(calls)
      ensures name in old(services) ==>
                var res := Resolution(old(services)[name], produced);
                r == Success(res.value)
                && services == old(services)[name := res.definition]
                && calls == old(calls) + (if res.invoked then [old(services)[name].resolver] else [])
    {
      if name !in services {
        return Failure("Service " + name + " not found");
      }
      var service := services[name];
      if service.singleton && !Truthy(service.instance) {
        calls := calls + [service.resolver];
        service := service.(instance := produced);
        services := services[name := service];
      }
      if service.singleton {
        r := Success(service.instance);
      } else {
        calls := calls + [service.resolver];
        r := Success(produced);
      }
    }
  }
}
