/** The registered services and the flat table that routes MQTT messages to their queues. */
module ServiceDispatch {
  import opened Wrappers

  datatype Service = Service(serviceId: string, name: string, ownerAwsAccount: string, topics: map<string, string>)

  /** The table of registered services, by service id. */
  type Registry = map<string, Service>

  // --- Keys of the flat table ---------------------------------------------------------

  function FlatKey(serviceId: string, topic: string): string {
    serviceId + "::" + topic
  }

  predicate SeparatorAt(s: string, i: int) {
    0 <= i < |s| - 1 && s[i..i + 2] == "::"
  }

  /** The id has no double colon and does not end in a colon. */
  predicate SafeId(s: string) {
    (forall i | 0 <= i < |s| :: !SeparatorAt(s, i)) && (s != "" ==> s[|s| - 1] != ':')
  }

  /** The separator stands right behind the service id, and the topic behind it. */
  lemma KeyParts(s: string, t: string)
    ensures |FlatKey(s, t)| == |s| + 2 + |t|
    ensures FlatKey(s, t)[..|s|] == s && FlatKey(s, t)[|s|..|s| + 2] == "::" && FlatKey(s, t)[|s| + 2..] == t
  {
  }

  /** In the key of a safe id no separator begins within the id. */
  lemma NoSeparatorWithin(s: string, t: string, n: nat)
    requires SafeId(s) && n < |s|
    ensures FlatKey(s, t)[n..n + 2] != "::"
  {
    KeyParts(s, t);
    var here := FlatKey(s, t)[n..n + 2];
    assert here[0] == s[n];
    assert !SeparatorAt(s, n);
    if n + 1 < |s| {
      assert here == s[n..n + 2];
    }
  }

  /** A shorter id can only share a key with an id that is not safe. */
  lemma NoShorterId(s: string, t: string, shorter: string, other: string)
    requires SafeId(s) && |shorter| < |s|
    ensures FlatKey(s, t) != FlatKey(shorter, other)
  {
    NoSeparatorWithin(s, t, |shorter|);
    KeyParts(shorter, other);
  }

  /** Safe ids cannot be confused. */
  lemma FlatKeyIsInjective(s1: string, t1: string, s2: string, t2: string)
    requires SafeId(s1) && SafeId(s2) && FlatKey(s1, t1) == FlatKey(s2, t2)
    ensures s1 == s2 && t1 == t2
  {
    if |s1| < |s2| {
      NoShorterId(s2, t2, s1, t1);
    } else if |s2| < |s1| {
      NoShorterId(s1, t1, s2, t2);
    }
    KeyParts(s1, t1);
    KeyParts(s2, t2);
  }

  /** An id that is not safe shares the key of each of its topics with a shorter, safe id. */
  lemma {:induction false} UnsafeIdClashes(s: string, t: string) returns (shorter: string, other: string)
    requires !SafeId(s)
    ensures |shorter| < |s| && SafeId(shorter) && FlatKey(s, t) == FlatKey(shorter, other)
    decreases |s|
  {
    shorter, other := UnsafeIdSplits(s, t);
    if !SafeId(shorter) {
      shorter, other := UnsafeIdClashes(shorter, other);
    }
  }

  lemma UnsafeIdSplits(s: string, t: string) returns (shorter: string, other: string)
    requires !SafeId(s)
    ensures |shorter| < |s| && FlatKey(s, t) == FlatKey(shorter, other)
  {
    if i :| 0 <= i < |s| && SeparatorAt(s, i) {
      shorter, other := s[..i], s[i + 2..] + "::" + t;
      assert s == s[..i] + "::" + s[i + 2..];
      assert s[..i] + "::" + s[i + 2..] + "::" + t == s[..i] + "::" + (s[i + 2..] + "::" + t);
    } else {
      var n := |s| - 1;
      shorter, other := s[..n], ":" + t;
      assert s == s[..n] + ":";
      assert s[..n] + ":" + "::" + t == s[..n] + "::" + (":" + t);
    }
  }

  ghost predicate SharesKeyWithShorter(s: string, t: string) {
    exists shorter, other :: |shorter| < |s| && FlatKey(s, t) == FlatKey(shorter, other)
  }

  /** So an id is safe if and only if no shorter id can share a key with it. */
  lemma SafeIffNoShorterId(s: string, t: string)
    ensures SafeId(s) <==> !SharesKeyWithShorter(s, t)
  {
    if SafeId(s) {
      forall shorter, other | |shorter| < |s| ensures FlatKey(s, t) != FlatKey(shorter, other) {
        NoShorterId(s, t, shorter, other);
      }
    } else {
      var shorter, other := UnsafeIdClashes(s, t);
    }
  }

  // --- The two-level lookup and its flat form -----------------------------------------

  predicate Routed(r: Registry, serviceId: string, topic: string) {
    serviceId in r && topic in r[serviceId].topics
  }

  /** The queue topic, empty when there is none. */
  function TwoLevel(r: Registry, serviceId: string, topic: string): string {
    if Routed(r, serviceId, topic) then r[serviceId].topics[topic] else ""
  }

  function FlatLookup(flat: map<string, string>, serviceId: string, topic: string): string {
    var key := FlatKey(serviceId, topic);
    if key in flat then flat[key] else ""
  }

  predicate SafeIds(r: Registry) {
    forall s | s in r :: SafeId(s)
  }

  /** The flat table has these routes of the registry, and nothing else. */
  ghost predicate IsFlat(flat: map<string, string>, r: Registry, routes: set<(string, string)>) {
    (forall p | p in routes ::
       Routed(r, p.0, p.1) && FlatKey(p.0, p.1) in flat && flat[FlatKey(p.0, p.1)] == r[p.0].topics[p.1]) &&
    (forall k | k in flat :: exists p :: p in routes && k == FlatKey(p.0, p.1))
  }

  ghost predicate AllRoutes(r: Registry, routes: set<(string, string)>) {
    forall s, t :: Routed(r, s, t) ==> (s, t) in routes
  }

  /** A full flat table agrees with the two-level lookup, for every query with a safe
      service id, registered or not, if the registered ids are safe. */
  lemma FlatAgreesWithTwoLevel(flat: map<string, string>, r: Registry, routes: set<(string, string)>,
                               serviceId: string, topic: string)
    requires SafeIds(r) && IsFlat(flat, r, routes) && AllRoutes(r, routes)
    requires SafeId(serviceId)
    ensures FlatLookup(flat, serviceId, topic) == TwoLevel(r, serviceId, topic)
  {
    var key := FlatKey(serviceId, topic);
    if Routed(r, serviceId, topic) {
      assert (serviceId, topic) in routes;
    } else if key in flat {
      var p :| p in routes && key == FlatKey(p.0, p.1);
      FlatKeyIsInjective(serviceId, topic, p.0, p.1);
      assert false;
    }
  }

  const QUEUE := "queue"

  /** The condition on the ids cannot be dropped: for every other id and every topic there
      is a registry that routes nothing for it, while the flat table sends it to the queue
      of another service. */
  lemma UnsafeIdTakesAnothersRoute(s: string, topic: string)
      returns (r: Registry, flat: map<string, string>, routes: set<(string, string)>)
    requires !SafeId(s)
    ensures IsFlat(flat, r, routes) && AllRoutes(r, routes) && SafeIds(r)
    ensures forall id | id in r :: r[id].serviceId == id
    ensures TwoLevel(r, s, topic) == "" && FlatLookup(flat, s, topic) == QUEUE
  {
    var shorter, other := UnsafeIdClashes(s, topic);
    r := map[shorter := Service(shorter, "", "", map[other := QUEUE])];
    flat := map[FlatKey(shorter, other) := QUEUE];
    routes := {(shorter, other)};
    assert (shorter, other) in routes && FlatKey(shorter, other) in flat;
    forall k | k in flat ensures exists p :: p in routes && k == FlatKey(p.0, p.1) {
      assert k == FlatKey((shorter, other).0, (shorter, other).1);
    }
  }

  /** Queries for `s` are always routed right, among services with safe ids. */
  ghost predicate AlwaysRoutedRight(s: string) {
    forall r, flat, routes, topic | SafeIds(r) && IsFlat(flat, r, routes) && AllRoutes(r, routes) ::
      FlatLookup(flat, s, topic) == TwoLevel(r, s, topic)
  }

  /** So the condition is exact. */
  lemma SafeIffAlwaysRoutedRight(s: string)
    ensures SafeId(s) <==> AlwaysRoutedRight(s)
  {
    if SafeId(s) {
      forall r, flat, routes, topic | SafeIds(r) && IsFlat(flat, r, routes) && AllRoutes(r, routes)
        ensures FlatLookup(flat, s, topic) == TwoLevel(r, s, topic)
      {
        FlatAgreesWithTwoLevel(flat, r, routes, s, topic);
      }
    } else {
      var r, flat, routes := UnsafeIdTakesAnothersRoute(s, "");
      assert FlatLookup(flat, s, "") != TwoLevel(r, s, "");
    }
  }

  /** And where both services are registered, no flat table has all the routes. */
  lemma ClashHasNoFlatTable(s: string, topic: string) returns (r: Registry)
    requires !SafeId(s)
    ensures s in r && |r| == 2 && forall id | id in r :: r[id].serviceId == id
    ensures forall flat, routes :: !(IsFlat(flat, r, routes) && AllRoutes(r, routes))
  {
    var shorter, other := UnsafeIdClashes(s, topic);
    r := map[shorter := Service(shorter, "", "", map[other := QUEUE]),
             s := Service(s, "", "", map[topic := "another " + QUEUE])];
    assert r.Keys == {shorter, s} && shorter != s;
    assert |r[s].topics[topic]| != |r[shorter].topics[other]|;
    forall flat, routes ensures !(IsFlat(flat, r, routes) && AllRoutes(r, routes)) {
      if IsFlat(flat, r, routes) && AllRoutes(r, routes) {
        HasRoute(flat, r, routes, shorter, other);
        HasRoute(flat, r, routes, s, topic);
      }
    }
  }

  lemma HasRoute(flat: map<string, string>, r: Registry, routes: set<(string, string)>, s: string, t: string)
    requires IsFlat(flat, r, routes) && AllRoutes(r, routes) && Routed(r, s, t)
    ensures FlatKey(s, t) in flat && flat[FlatKey(s, t)] == r[s].topics[t]
  {
    assert ((s, t).0, (s, t).1) in routes;
  }

  lemma FlatIsContained(f: map<string, string>, g: map<string, string>, r: Registry,
                        fr: set<(string, string)>, gr: set<(string, string)>)
    requires IsFlat(f, r, fr) && IsFlat(g, r, gr) && AllRoutes(r, gr)
    ensures forall k | k in f :: k in g && g[k] == f[k]
  {
    forall k | k in f ensures k in g && g[k] == f[k] {
      var p :| p in fr && k == FlatKey(p.0, p.1);
      assert (p.0, p.1) in gr;
    }
  }

  /** There is one full flat table, in whatever order it was filled. */
  lemma FlatIsUnique(f: map<string, string>, g: map<string, string>, r: Registry,
                     fr: set<(string, string)>, gr: set<(string, string)>)
    requires IsFlat(f, r, fr) && AllRoutes(r, fr) && IsFlat(g, r, gr) && AllRoutes(r, gr)
    ensures f == g
  {
    FlatIsContained(f, g, r, fr, gr);
    FlatIsContained(g, f, r, gr, fr);
  }

  lemma OneMoreRoute(flat: map<string, string>, r: Registry, routes: set<(string, string)>, s: string, t: string)
    requires SafeIds(r) && IsFlat(flat, r, routes) && Routed(r, s, t)
    ensures IsFlat(flat[FlatKey(s, t) := r[s].topics[t]], r, routes + {(s, t)})
  {
    var next := flat[FlatKey(s, t) := r[s].topics[t]];
    var more := routes + {(s, t)};
    forall p | p in more
      ensures Routed(r, p.0, p.1) && FlatKey(p.0, p.1) in next && next[FlatKey(p.0, p.1)] == r[p.0].topics[p.1]
    {
      if FlatKey(p.0, p.1) == FlatKey(s, t) {
        FlatKeyIsInjective(p.0, p.1, s, t);
      }
    }
    forall k | k in next ensures exists p :: p in more && k == FlatKey(p.0, p.1) {
      if k == FlatKey(s, t) {
        assert (s, t) in more;
      } else {
        var p :| p in routes && k == FlatKey(p.0, p.1);
        assert p in more;
      }
    }
  }

  // --- Registration -------------------------------------------------------------------

  /** A configured service is added unless it has no id or its id is taken. */
  function Register(r: Registry, c: Service): Registry {
    if c.serviceId == "" || c.serviceId in r then r else r[c.serviceId := c]
  }

  function RegisterAll(r: Registry, cs: seq<Service>): Registry
    decreases cs
  {
    if cs == [] then r else RegisterAll(Register(r, cs[0]), cs[1..])
  }

  /** Existing registrations are kept, every configured service with an id gets one, and a
      new one is the first configured with its id. */
  lemma {:induction false} RegisterAllKeeps(r: Registry, cs: seq<Service>)
    ensures forall s | s in r :: s in RegisterAll(r, cs) && RegisterAll(r, cs)[s] == r[s]
    ensures forall c | c in cs && c.serviceId != "" :: c.serviceId in RegisterAll(r, cs)
    ensures forall s | s in RegisterAll(r, cs) && s !in r ::
              RegisterAll(r, cs)[s] in cs && RegisterAll(r, cs)[s].serviceId == s
    decreases cs
  {
    if cs != [] {
      var next := Register(r, cs[0]);
      RegisterAllKeeps(next, cs[1..]);
      forall s | s in RegisterAll(r, cs) && s !in r
        ensures RegisterAll(r, cs)[s] in cs && RegisterAll(r, cs)[s].serviceId == s
      {
        if s in next {
          assert next[s] == cs[0];
        }
      }
    }
  }

  lemma {:induction false} RegisterAgain(r: Registry, cs: seq<Service>)
    requires forall c | c in cs && c.serviceId != "" :: c.serviceId in r
    ensures RegisterAll(r, cs) == r
    decreases cs
  {
    if cs != [] {
      assert cs[0] in cs;
      assert forall c | c in cs[1..] :: c in cs;
      RegisterAgain(r, cs[1..]);
    }
  }

  /** Initialising again registers nothing new. */
  lemma RegisterAllIsIdempotent(r: Registry, cs: seq<Service>)
    ensures RegisterAll(RegisterAll(r, cs), cs) == RegisterAll(r, cs)
  {
    RegisterAllKeeps(r, cs);
    RegisterAgain(RegisterAll(r, cs), cs);
  }

  lemma {:induction false} RegisterOneMore(r: Registry, cs: seq<Service>, c: Service)
    ensures RegisterAll(r, cs + [c]) == Register(RegisterAll(r, cs), c)
    decreases cs
  {
    if cs == [] {
      assert cs + [c] == [c] && [c][1..] == [];
    } else {
      assert (cs + [c])[1..] == cs[1..] + [c];
      RegisterOneMore(Register(r, cs[0]), cs[1..], c);
    }
  }

  // --- The program --------------------------------------------------------------------

  datatype Found = Missing | Present | Broken

  /** The rows come in no particular order. */
  ghost predicate Lists(services: seq<Service>, r: Registry) {
    (forall i | 0 <= i < |services| :: services[i].serviceId in r && r[services[i].serviceId] == services[i]) &&
    (forall s | s in r :: r[s] in services)
  }

  class Dispatcher {
    /** No statement fails. */
    const healthy: bool

    var registered: Registry        // the database table
    var serviceConfigTable: Registry
    var serviceDispatchTable: map<string, string>
    ghost var routes: set<(string, string)>

    /** A row is stored under its own id. */
    ghost predicate Valid()
      reads this
    {
      forall s | s in registered :: registered[s].serviceId == s
    }

    constructor (healthy: bool)
      ensures Valid() && registered == map[] && this.healthy == healthy
    {
      this.healthy := healthy;
      registered, serviceConfigTable, serviceDispatchTable, routes := map[], map[], map[], {};
    }

    method GetRegisteredService(serviceId: string) returns (found: Found)
      ensures found.Missing? ==> serviceId != "" && serviceId !in registered
      ensures found.Present? ==> serviceId in registered
      ensures serviceId == "" ==> found.Broken?
      ensures found.Broken? && healthy ==> serviceId == ""
    {
      var fault: bool := *;
      if serviceId == "" || (fault && !healthy) {
        return Broken;
      }
      return if serviceId in registered then Present else Missing;
    }

    method ListRegisteredServices() returns (services: seq<Service>, ok: bool)
      requires Valid()
      ensures ok ==> Lists(services, registered)
      ensures healthy ==> ok
    {
      ok := *;
      ok := ok || healthy;
      services := [];
      if !ok {
        return;
      }
      var rest := registered.Keys;
      while rest != {}
        invariant rest <= registered.Keys
        invariant forall i | 0 <= i < |services| ::
                    services[i].serviceId in registered && registered[services[i].serviceId] == services[i]
        invariant forall s | s in registered && s !in rest :: registered[s] in services
        decreases rest
      {
        var s :| s in rest;
        services := services + [registered[s]];
        rest := rest - {s};
      }
    }

    /** Registers the configured services that are missing. Of the errors of the lookup only
        "not found" counts; an error of the insert ends the initialisation. */
    method RegisterConfigured(configured: seq<Service>) returns (ok: bool)
      requires Valid()
      modifies `registered
      ensures Valid()
      ensures healthy ==> ok && registered == RegisterAll(old(registered), configured)
      ensures forall s | s in old(registered) :: s in registered && registered[s] == old(registered)[s]
      ensures forall s | s in registered && s !in old(registered) :: registered[s] in configured
    {
      var i := 0;
      while i < |configured|
        invariant 0 <= i <= |configured|
        invariant Valid()
        invariant healthy ==> registered == RegisterAll(old(registered), configured[..i])
        invariant forall s | s in old(registered) :: s in registered && registered[s] == old(registered)[s]
        invariant forall s | s in registered && s !in old(registered) :: registered[s] in configured
      {
        var c := configured[i];
        RegisterOneMore(old(registered), configured[..i], c);
        assert configured[..i + 1] == configured[..i] + [c];
        var found := GetRegisteredService(c.serviceId);
        if found.Missing? {
          // the insert may take effect and still report an error
          var applied, reported: bool := *, *;
          if applied || healthy {
            registered := registered[c.serviceId := c];
          }
          if !healthy && !(applied && reported) {
            return false;
          }
        }
        i := i + 1;
      }
      assert configured[..i] == configured;
      return true;
    }

    /** Rebuilds both tables from the listed services. */
    method BuildTables(services: seq<Service>)
      requires Valid() && Lists(services, registered)
      modifies `serviceConfigTable, `serviceDispatchTable, `routes
      ensures serviceConfigTable == registered
      ensures AllRoutes(registered, routes)
      ensures SafeIds(registered) ==> IsFlat(serviceDispatchTable, registered, routes)
    {
      serviceConfigTable := map[];
      var i := 0;
      while i < |services|
        invariant 0 <= i <= |services|
        invariant forall s | s in serviceConfigTable :: s in registered && serviceConfigTable[s] == registered[s]
        invariant forall j | 0 <= j < i :: services[j].serviceId in serviceConfigTable
      {
        serviceConfigTable := serviceConfigTable[services[i].serviceId := services[i]];
        i := i + 1;
      }
      forall s | s in registered ensures s in serviceConfigTable {
        assert registered[s] in services;
      }
      serviceDispatchTable, routes := map[], {};
      i := 0;
      while i < |services|
        invariant 0 <= i <= |services|
        invariant serviceConfigTable == registered
        invariant SafeIds(registered) ==> IsFlat(serviceDispatchTable, registered, routes)
        invariant forall j, t | 0 <= j < i && t in services[j].topics :: (services[j].serviceId, t) in routes
      {
        AddTopics(services[i]);
        i := i + 1;
      }
      forall s, t | Routed(registered, s, t) ensures (s, t) in routes {
        var j :| 0 <= j < |services| && services[j] == registered[s];
        assert t in services[j].topics;
      }
    }

    method AddTopics(service: Service)
      requires service.serviceId in registered && registered[service.serviceId] == service
      requires SafeIds(registered) ==> IsFlat(serviceDispatchTable, registered, routes)
      modifies `serviceDispatchTable, `routes
      ensures SafeIds(registered) ==> IsFlat(serviceDispatchTable, registered, routes)
      ensures old(routes) <= routes && forall t | t in service.topics :: (service.serviceId, t) in routes
    {
      var rest := service.topics.Keys;
      while rest != {}
        invariant rest <= service.topics.Keys && old(routes) <= routes
        invariant SafeIds(registered) ==> IsFlat(serviceDispatchTable, registered, routes)
        invariant forall t | t in service.topics && t !in rest :: (service.serviceId, t) in routes
        decreases rest
      {
        var t :| t in rest;
        if SafeIds(registered) {
          OneMoreRoute(serviceDispatchTable, registered, routes, service.serviceId, t);
        }
        serviceDispatchTable := serviceDispatchTable[FlatKey(service.serviceId, t) := service.topics[t]];
        routes := routes + {(service.serviceId, t)};
        rest := rest - {t};
      }
    }

    /** `initServiceDispatchLookupTable` */
    method Initialise(configured: seq<Service>) returns (ok: bool)
      requires Valid()
      modifies this
      ensures Valid()
      ensures forall s | s in old(registered) :: s in registered && registered[s] == old(registered)[s]
      ensures healthy ==> ok && registered == RegisterAll(old(registered), configured)
      ensures healthy ==> forall c | c in configured && c.serviceId != "" :: c.serviceId in serviceConfigTable
      ensures ok ==> serviceConfigTable == registered && AllRoutes(registered, routes) &&
                     (SafeIds(registered) ==> IsFlat(serviceDispatchTable, registered, routes))
      ensures !ok ==> serviceConfigTable == old(serviceConfigTable) &&
                      serviceDispatchTable == old(serviceDispatchTable)
    {
      ok := RegisterConfigured(configured);
      if !ok {
        return;
      }
      var services, listed := ListRegisteredServices();
      if !listed {
        return false;
      }
      BuildTables(services);
      RegisterAllKeeps(old(registered), configured);
    }

    /** `GetServiceQueueTopic`: once initialised, the flat table answers like the two-level
        lookup, as long as the service ids involved are safe. */
    method GetServiceQueueTopic(serviceId: string, mqttTopic: string) returns (queueTopic: string)
      ensures queueTopic == FlatLookup(serviceDispatchTable, serviceId, mqttTopic)
      ensures AllRoutes(registered, routes) && IsFlat(serviceDispatchTable, registered, routes) &&
              SafeIds(registered) && SafeId(serviceId) ==>
                queueTopic == TwoLevel(registered, serviceId, mqttTopic)
    {
      var key := FlatKey(serviceId, mqttTopic);
      queueTopic := if key in serviceDispatchTable then serviceDispatchTable[key] else "";
      if AllRoutes(registered, routes) && IsFlat(serviceDispatchTable, registered, routes) &&
         SafeIds(registered) && SafeId(serviceId) {
        FlatAgreesWithTwoLevel(serviceDispatchTable, registered, routes, serviceId, mqttTopic);
      }
    }

    /** `IsValidServiceId` */
    method IsValidServiceId(serviceId: string) returns (valid: bool)
      ensures valid <==> serviceId in serviceConfigTable
    {
      valid := serviceId in serviceConfigTable;
    }

    /** `GetServiceConfig` */
    method GetServiceConfig(serviceId: string) returns (config: Option<Service>)
      ensures config.Some? <==> serviceId in serviceConfigTable
      ensures config.Some? ==> config.value == serviceConfigTable[serviceId]
    {
      return if serviceId in serviceConfigTable then Some(serviceConfigTable[serviceId]) else None;
    }
  }

  /** Two initialisations with the same configuration and no fault, in whatever order the rows and the
      topics come: the second one leaves the registry and both tables as they are. */
  method InitialiseTwice(d: Dispatcher, configured: seq<Service>)
    returns (ghost registry: Registry, ghost flat: map<string, string>)
    requires d.Valid() && d.healthy
    modifies d
    ensures registry == RegisterAll(old(d.registered), configured) && d.registered == registry
    ensures d.serviceConfigTable == registry
    ensures SafeIds(registry) ==> d.serviceDispatchTable == flat
  {
    var ok := d.Initialise(configured);
    registry, flat := d.registered, d.serviceDispatchTable;
    ghost var routes := d.routes;
    ok := d.Initialise(configured);
    RegisterAllIsIdempotent(old(d.registered), configured);
    if SafeIds(registry) {
      FlatIsUnique(flat, d.serviceDispatchTable, registry, routes, d.routes);
    }
  }
}
