/** Cluster state and service status through start, stop, status polls and node removal. */
module ClusterLifecycle {
  import opened Wrappers

  datatype Role =
    | Broker | BrokerController | Controller | Zookeeper
    | KsqlDb | KafkaConnect | SchemaRegistry | OtherRole(name: string)

  /** Status of a service, and state of a cluster. */
  datatype Health = Running | Stopped | Error | Deploying | OtherHealth(name: string)

  datatype Service = Service(id: int, role: Role, host: int, status: Health)

  /** What is stored about a cluster. */
  datatype Snapshot = Snapshot(state: Health, services: seq<Service>)

  datatype Direction = Starting | Stopping

  /** START_ORDER and STOP_ORDER; roles in neither come last. */
  function Tier(d: Direction, role: Role): (t: nat)
    ensures t < 10
  {
    match d
    case Starting =>
      (match role
       case Controller | Zookeeper => 0
       case Broker | BrokerController => 1
       case KsqlDb | KafkaConnect => 2
       case SchemaRegistry => 3
       case OtherRole(_) => 9)
    case Stopping =>
      (match role
       case SchemaRegistry => 0
       case KsqlDb | KafkaConnect => 1
       case Broker | BrokerController => 2
       case Controller | Zookeeper => 3
       case OtherRole(_) => 9)
  }

  predicate IsCore(role: Role) {
    role.Broker? || role.BrokerController? || role.Controller? || role.Zookeeper?
  }

  // ---- Visiting order ----

  // Positions below n whose service is in tier t, in order.
  function InTier(services: seq<Service>, d: Direction, t: nat, n: nat): seq<nat>
    requires n <= |services|
  {
    if n == 0 then []
    else InTier(services, d, t, n - 1) + (if Tier(d, services[n - 1].role) == t then [n - 1] else [])
  }

  function OrderFrom(services: seq<Service>, d: Direction, t: nat): seq<nat>
    decreases 10 - t
  {
    if t >= 10 then [] else InTier(services, d, t, |services|) + OrderFrom(services, d, t + 1)
  }

  /** sorted(services, key=tier), as positions: by tier, and within a tier as they were. */
  function Order(services: seq<Service>, d: Direction): seq<nat> {
    OrderFrom(services, d, 0)
  }

  predicate Before(services: seq<Service>, d: Direction, i: nat, j: nat)
    requires i < |services| && j < |services|
  {
    var a, b := Tier(d, services[i].role), Tier(d, services[j].role);
    a < b || (a == b && i < j)
  }

  ghost predicate VisitsInOrder(services: seq<Service>, d: Direction, order: seq<nat>) {
    && (forall k :: 0 <= k < |order| ==> order[k] < |services|)
    && (forall k, l :: 0 <= k < l < |order| ==> Before(services, d, order[k], order[l]))
  }

  lemma {:induction false} InTierMembers(services: seq<Service>, d: Direction, t: nat, n: nat)
    requires n <= |services|
    ensures forall i: nat :: i in InTier(services, d, t, n) <==> i < n && Tier(d, services[i].role) == t
    ensures VisitsInOrder(services, d, InTier(services, d, t, n))
  {
    if n > 0 {
      InTierMembers(services, d, t, n - 1);
      var before := InTier(services, d, t, n - 1);
      assert forall k :: 0 <= k < |before| ==> before[k] in before;
    }
  }

  lemma InOrderConcat(services: seq<Service>, d: Direction, first: seq<nat>, rest: seq<nat>, t: nat)
    requires VisitsInOrder(services, d, first) && VisitsInOrder(services, d, rest)
    requires forall i: nat :: i in first <==> i < |services| && Tier(d, services[i].role) == t
    requires forall i: nat :: i in rest <==> i < |services| && Tier(d, services[i].role) >= t + 1
    ensures VisitsInOrder(services, d, first + rest)
    ensures forall i: nat :: i in first + rest <==> i < |services| && Tier(d, services[i].role) >= t
  {
    var all := first + rest;
    assert forall i: nat :: i in all <==> i in first || i in rest;
    forall k, l | 0 <= k < l < |all| ensures all[k] < |services| && all[l] < |services| && Before(services, d, all[k], all[l]) {
      assert k < |first| ==> all[k] == first[k] && first[k] in first;
      assert k >= |first| ==> all[k] == rest[k - |first|];
      assert l < |first| ==> all[l] == first[l];
      assert l >= |first| ==> all[l] == rest[l - |first|] && rest[l - |first|] in rest;
    }
  }

  lemma {:induction false} OrderFromMembers(services: seq<Service>, d: Direction, t: nat)
    requires t <= 10
    ensures forall i: nat :: i in OrderFrom(services, d, t) <==> i < |services| && Tier(d, services[i].role) >= t
    ensures VisitsInOrder(services, d, OrderFrom(services, d, t))
    decreases 10 - t
  {
    if t < 10 {
      InTierMembers(services, d, t, |services|);
      OrderFromMembers(services, d, t + 1);
      InOrderConcat(services, d, InTier(services, d, t, |services|), OrderFrom(services, d, t + 1), t);
    }
  }

  ghost predicate IsPermutation(order: seq<nat>, n: nat) {
    && (forall i: nat :: i in order <==> i < n)
    && (forall k, l :: 0 <= k < l < |order| ==> order[k] != order[l])
  }

  lemma {:induction false} PermutationLength(order: seq<nat>, n: nat)
    requires IsPermutation(order, n)
    ensures |order| == n
  {
    if n == 0 {
      assert forall k :: 0 <= k < |order| ==> order[k] in order;
    } else {
      assert n - 1 in order;
      var k :| 0 <= k < |order| && order[k] == n - 1;
      var less := order[..k] + order[k + 1..];
      assert forall i: nat :: i in less <==> i in order && i != n - 1 by {
        assert order == order[..k] + [order[k]] + order[k + 1..];
      }
      PermutationLength(less, n - 1);
    }
  }

  /** Every service is visited exactly once, tier by tier. */
  lemma VisitsEachOnce(services: seq<Service>, d: Direction)
    ensures VisitsInOrder(services, d, Order(services, d))
    ensures IsPermutation(Order(services, d), |services|)
    ensures |Order(services, d)| == |services|
  {
    OrderFromMembers(services, d, 0);
    PermutationLength(Order(services, d), |services|);
  }

  ghost predicate Precedes(order: seq<nat>, i: nat, j: nat) {
    exists k, l :: 0 <= k < l < |order| && order[k] == i && order[l] == j
  }

  lemma PrecedesIff(services: seq<Service>, d: Direction, i: nat, j: nat)
    requires i < |services| && j < |services|
    ensures Precedes(Order(services, d), i, j) <==> Before(services, d, i, j)
  {
    VisitsEachOnce(services, d);
    var order := Order(services, d);
    if Before(services, d, i, j) {
      assert i in order && j in order;
      var k :| 0 <= k < |order| && order[k] == i;
      var l :| 0 <= l < |order| && order[l] == j;
      assert k < l;
    }
  }

  /** Stopping visits services of different known tiers in the opposite order of starting. */
  lemma OppositeOrders(services: seq<Service>, i: nat, j: nat)
    requires i < |services| && j < |services|
    requires !services[i].role.OtherRole? && !services[j].role.OtherRole?
    requires Tier(Starting, services[i].role) != Tier(Starting, services[j].role)
    ensures Precedes(Order(services, Starting), i, j) <==> Precedes(Order(services, Stopping), j, i)
  {
    PrecedesIff(services, Starting, i, j);
    PrecedesIff(services, Stopping, j, i);
  }

  /** Which roles come before which when a cluster starts: controllers and ZooKeeper before
      brokers, brokers before ksqlDB and Connect, those before the schema registry, and what
      has any other role last. */
  predicate StartsBefore(a: Role, b: Role) {
    match a
    case Controller | Zookeeper => b != Controller && b != Zookeeper
    case Broker | BrokerController => b == KsqlDb || b == KafkaConnect || b == SchemaRegistry || b.OtherRole?
    case KsqlDb | KafkaConnect => b == SchemaRegistry || b.OtherRole?
    case SchemaRegistry => b.OtherRole?
    case OtherRole(_) => false
  }

  /** Stopping turns the order of the known roles round; other roles still come last. */
  predicate StopsBefore(a: Role, b: Role) {
    !a.OtherRole? && (b.OtherRole? || StartsBefore(b, a))
  }

  lemma RolesInTiers(a: Role, b: Role)
    ensures Tier(Starting, a) < Tier(Starting, b) <==> StartsBefore(a, b)
    ensures Tier(Stopping, a) < Tier(Stopping, b) <==> StopsBefore(a, b)
  {
  }

  /** A service is visited before another exactly when its role comes first, or neither role
      does and it is listed first. */
  lemma VisitOrderIff(services: seq<Service>, i: nat, j: nat)
    requires i < |services| && j < |services|
    ensures var a, b := services[i].role, services[j].role;
            && (Precedes(Order(services, Starting), i, j)
                <==> StartsBefore(a, b) || (!StartsBefore(b, a) && i < j))
            && (Precedes(Order(services, Stopping), i, j)
                <==> StopsBefore(a, b) || (!StopsBefore(b, a) && i < j))
  {
    var a, b := services[i].role, services[j].role;
    RolesInTiers(a, b);
    RolesInTiers(b, a);
    PrecedesIff(services, Starting, i, j);
    PrecedesIff(services, Stopping, i, j);
  }

  // ---- One service ----

  /** A row of what an operation reports. */
  datatype Outcome = Outcome(id: int, success: bool)

  /** The environment of a start or stop: which hosts exist, and on which services the
      attempted action succeeds. */
  datatype Env = Env(hosts: set<int>, works: set<int>)

  predicate Succeeds(env: Env, s: Service) {
    s.host in env.hosts && s.id in env.works
  }

  function Visited(d: Direction, env: Env, s: Service): Service {
    if s.host !in env.hosts then s
    else if s.id in env.works then s.(status := if d == Starting then Running else Stopped)
    else if d == Starting then s.(status := Error)
    else s
  }

  function VisitAll(d: Direction, env: Env, services: seq<Service>): (r: seq<Service>)
    ensures |r| == |services| && forall i :: 0 <= i < |r| ==> r[i] == Visited(d, env, services[i])
  {
    seq(|services|, i requires 0 <= i < |services| => Visited(d, env, services[i]))
  }

  predicate AllSucceed(env: Env, services: seq<Service>) {
    forall i :: 0 <= i < |services| ==> Succeeds(env, services[i])
  }

  /** One result row per visited service, in the order of the visits. */
  ghost predicate Reported(env: Env, services: seq<Service>, order: seq<nat>, results: seq<Outcome>) {
    && |results| == |order| == |services|
    && forall k :: 0 <= k < |results| ==>
         && order[k] < |services|
         && results[k] == Outcome(services[order[k]].id,
                                  services[order[k]].host in env.hosts && services[order[k]].id in env.works)
  }

  lemma AllOkIff(env: Env, services: seq<Service>, d: Direction, results: seq<Outcome>)
    requires Reported(env, services, Order(services, d), results)
    ensures (forall k :: 0 <= k < |results| ==> results[k].success) <==> AllSucceed(env, services)
  {
    VisitsEachOnce(services, d);
    var order := Order(services, d);
    if forall k :: 0 <= k < |results| ==> results[k].success {
      forall i: nat | i < |services| ensures Succeeds(env, services[i]) {
        assert i in order;
        var k :| 0 <= k < |order| && order[k] == i;
        assert results[k].success;
      }
    }
  }

  lemma StartedStatuses(env: Env, services: seq<Service>)
    ensures forall i :: 0 <= i < |services| ==>
              var s := services[i];
              VisitAll(Starting, env, services)[i]
              == s.(status := if s.host !in env.hosts then s.status else if s.id in env.works then Running else Error)
  {
  }

  lemma StoppedStatuses(env: Env, services: seq<Service>)
    ensures forall i :: 0 <= i < |services| ==>
              var s := services[i];
              VisitAll(Stopping, env, services)[i]
              == s.(status := if s.host in env.hosts && s.id in env.works then Stopped else s.status)
  {
  }

  lemma AllSucceedIff(env: Env, services: seq<Service>)
    ensures AllSucceed(env, services) <==> forall s :: s in services ==> s.host in env.hosts && s.id in env.works
  {
    assert AllSucceed(env, services) <==> forall i :: 0 <= i < |services| ==> Succeeds(env, services[i]);
  }

  // ---- The status poll ----

  datatype Raw = Active | Activating | Inactive | Failed | OtherRaw | NoAnswer

  function Polled(hosts: set<int>, raws: map<int, Raw>, s: Service): Service {
    if s.host !in hosts || s.id !in raws then s
    else
      match raws[s.id]
      case Active | Activating => s.(status := Running)
      case Inactive => s.(status := Stopped)
      case Failed => s.(status := Error)
      case _ => s
  }

  /** A core service on a known host that has failed. */
  predicate CoreFails(hosts: set<int>, raws: map<int, Raw>, s: Service) {
    IsCore(s.role) && s.host in hosts && s.id in raws && raws[s.id] == Failed
  }

  /** A service that answers that it runs or is about to, or that ran and says nothing else
      that can be understood. */
  predicate FoundRunning(hosts: set<int>, raws: map<int, Raw>, s: Service) {
    if s.host !in hosts || s.id !in raws || raws[s.id] == OtherRaw || raws[s.id] == NoAnswer then s.status == Running
    else raws[s.id] == Active || raws[s.id] == Activating
  }

  function PollAll(hosts: set<int>, raws: map<int, Raw>, services: seq<Service>): (r: seq<Service>)
    ensures |r| == |services| && forall i :: 0 <= i < |r| ==> r[i] == Polled(hosts, raws, services[i])
  {
    seq(|services|, i requires 0 <= i < |services| => Polled(hosts, raws, services[i]))
  }

  /** The statuses of the core services. */
  function CoreStatuses(services: seq<Service>): set<Health> {
    set i | 0 <= i < |services| && IsCore(services[i].role) :: services[i].status
  }

  function Synced(managed: bool, s: Snapshot): Snapshot {
    var statuses := CoreStatuses(s.services);
    if !managed || s.state == Deploying || statuses == {} then s
    else if Error in statuses then s.(state := Error)
    else if statuses == {Running} then s.(state := Running)
    else if statuses == {Stopped} then s.(state := Stopped)
    else if s.state == Running && exists h :: h in statuses && h != Running then s.(state := Error)
    else s
  }

  // ---- Removal guards ----

  predicate IsBroker(role: Role) {
    role.Broker? || role.BrokerController?
  }

  predicate IsController(role: Role) {
    role.Controller? || role.BrokerController?
  }

  function Without(services: seq<Service>, id: int): seq<Service> {
    if services == [] then []
    else
      var s := services[|services| - 1];
      Without(services[..|services| - 1], id) + (if s.id != id then [s] else [])
  }

  function CountBrokers(services: seq<Service>): nat {
    if services == [] then 0
    else CountBrokers(services[..|services| - 1]) + (if IsBroker(services[|services| - 1].role) then 1 else 0)
  }

  function CountControllers(services: seq<Service>): nat {
    if services == [] then 0
    else CountControllers(services[..|services| - 1]) + (if IsController(services[|services| - 1].role) then 1 else 0)
  }

  // The row with an id; ids are primary keys.
  function FindService(services: seq<Service>, id: int): (r: Option<Service>)
    ensures r.Some? ==> r.value in services && r.value.id == id
  {
    if services == [] then None
    else if services[|services| - 1].id == id then Some(services[|services| - 1])
    else FindService(services[..|services| - 1], id)
  }

  datatype Removal = Removed | NotFound | LastBroker | LastController | UnderReplicated | BrokerNeeded | CleanupFailed

  /** The decision of the endpoint, guard by guard. */
  function Decide(services: seq<Service>, id: int, rf: int, force: bool, env: Env): Removal {
    match FindService(services, id)
    case None => NotFound
    case Some(target) =>
      var remaining := Without(services, id);
      var brokers, controllers := CountBrokers(remaining), CountControllers(remaining);
      if !force && IsBroker(target.role) && brokers == 0 then LastBroker
      else if !force && IsController(target.role) && controllers == 0 then LastController
      else if !force && IsBroker(target.role) && brokers < rf then UnderReplicated
      else if !force && IsBroker(target.role) && brokers == 0
              && (exists s :: s in remaining && (s.role == KsqlDb || s.role == KafkaConnect)) then BrokerNeeded
      else if !force && target.host in env.hosts && target.id !in env.works then CleanupFailed
      else Removed
  }

  // ---- Runs ----

  datatype Op =
    | Start(env: Env)
    | Stop(env: Env)
    | Poll(hosts: set<int>, raws: map<int, Raw>)
    | Remove(id: int, force: bool, env: Env)

  function Step(managed: bool, rf: int, s: Snapshot, op: Op): Snapshot {
    match op
    case Start(env) =>
      Snapshot(if AllSucceed(env, s.services) then Running else Error, VisitAll(Starting, env, s.services))
    case Stop(env) =>
      Snapshot(if AllSucceed(env, s.services) then Stopped else Error, VisitAll(Stopping, env, s.services))
    case Poll(hosts, raws) => Synced(managed, s.(services := PollAll(hosts, raws, s.services)))
    case Remove(id, force, env) =>
      if Decide(s.services, id, rf, force, env).Removed? then s.(services := Without(s.services, id)) else s
  }

  function Run(managed: bool, rf: int, s: Snapshot, ops: seq<Op>): Snapshot {
    if ops == [] then s else Step(managed, rf, Run(managed, rf, s, ops[..|ops| - 1]), ops[|ops| - 1])
  }

  class Cluster {
    const managed: bool
    const rf: int
    var state: Health
    var services: seq<Service>

    function Contents(): Snapshot
      reads this
    {
      Snapshot(state, services)
    }

    constructor (managed: bool, rf: int, state: Health, services: seq<Service>)
      ensures this.managed == managed && this.rf == rf && Contents() == Snapshot(state, services)
    {
      this.managed, this.rf, this.state, this.services := managed, rf, state, services;
    }

    method VisitOne(d: Direction, env: Env, i: nat) returns (ok: bool)
      requires i < |services|
      modifies this`services
      ensures services == old(services)[i := Visited(d, env, old(services)[i])]
      ensures ok <==> Succeeds(env, old(services)[i])
    {
      var s := services[i];
      if s.host !in env.hosts {
        return false;
      }
      ok := s.id in env.works;
      if ok {
        services := services[i := s.(status := if d == Starting then Running else Stopped)];
      } else if d == Starting {
        services := services[i := s.(status := Error)];
      }
    }

    /** The loop shared by start and stop: one result row per service, in tier order. */
    method Visit(d: Direction, env: Env) returns (results: seq<Outcome>)
      modifies this`services
      ensures services == VisitAll(d, env, old(services))
      ensures Reported(env, old(services), Order(old(services), d), results)
    {
      VisitsEachOnce(services, d);
      ghost var start := services;
      var order := Order(services, d);
      results := [];
      for k := 0 to |order|
        invariant |services| == |start| && |results| == k
        invariant forall l :: 0 <= l < |order| ==>
                    services[order[l]] == if l < k then Visited(d, env, start[order[l]]) else start[order[l]]
        invariant forall l :: 0 <= l < k ==> results[l] == Outcome(start[order[l]].id, Succeeds(env, start[order[l]]))
      {
        var ok := VisitOne(d, env, order[k]);
        results := results + [Outcome(services[order[k]].id, ok)];
      }
      forall i: nat | i < |start| ensures services[i] == Visited(d, env, start[i]) {
        assert i in order;
        var l :| 0 <= l < |order| && order[l] == i;
      }
    }

    /** start_cluster */
    method StartCluster(env: Env) returns (results: seq<Outcome>)
      modifies this
      ensures Contents() == Step(managed, rf, old(Contents()), Start(env))
      ensures Reported(env, old(services), Order(old(services), Starting), results)
      ensures |services| == |old(services)|
      ensures forall i :: 0 <= i < |services| ==>
                var s := old(services)[i];
                services[i] == s.(status := if s.host !in env.hosts then s.status
                                            else if s.id in env.works then Running else Error)
      ensures state == if forall s :: s in old(services) ==> s.host in env.hosts && s.id in env.works
                       then Running else Error
    {
      ghost var before := services;
      results := Visit(Starting, env);
      state := if forall k :: 0 <= k < |results| ==> results[k].success then Running else Error;
      AllOkIff(env, before, Starting, results);
      AllSucceedIff(env, before);
      StartedStatuses(env, before);
    }

    /** stop_cluster */
    method StopCluster(env: Env) returns (results: seq<Outcome>)
      modifies this
      ensures Contents() == Step(managed, rf, old(Contents()), Stop(env))
      ensures Reported(env, old(services), Order(old(services), Stopping), results)
      ensures |services| == |old(services)|
      ensures forall i :: 0 <= i < |services| ==>
                var s := old(services)[i];
                services[i] == s.(status := if s.host in env.hosts && s.id in env.works then Stopped else s.status)
      ensures state == if forall s :: s in old(services) ==> s.host in env.hosts && s.id in env.works
                       then Stopped else Error
    {
      ghost var before := services;
      results := Visit(Stopping, env);
      state := if forall k :: 0 <= k < |results| ==> results[k].success then Stopped else Error;
      AllOkIff(env, before, Stopping, results);
      AllSucceedIff(env, before);
      StoppedStatuses(env, before);
    }

    /** sync_cluster_state_from_services: says whether it changed the state. */
    method Sync() returns (changed: bool)
      modifies this`state
      ensures Contents() == Synced(managed, old(Contents()))
      ensures changed <==> state != old(state)
    {
      if !managed || state == Deploying {
        return false;
      }
      var statuses := CoreStatuses(services);
      if statuses == {} {
        return false;
      }
      var newState := state;
      if Error in statuses {
        newState := Error;
      } else if statuses == {Running} {
        newState := Running;
      } else if statuses == {Stopped} {
        newState := Stopped;
      } else if state == Running && exists h :: h in statuses && h != Running {
        newState := Error;
      }
      changed := newState != state;
      state := newState;
    }

    /** get_cluster_status */
    method GetClusterStatus(hosts: set<int>, raws: map<int, Raw>)
      modifies this
      ensures Contents() == Step(managed, rf, old(Contents()), Poll(hosts, raws))
      ensures |services| == |old(services)|
      ensures forall i :: 0 <= i < |services| ==>
                var s := old(services)[i];
                services[i] == s.(status :=
                  if s.host !in hosts || s.id !in raws then s.status
                  else match raws[s.id]
                       case Active => Running
                       case Activating => Running
                       case Inactive => Stopped
                       case Failed => Error
                       case OtherRaw => s.status
                       case NoAnswer => s.status)
      ensures managed && old(state) != Deploying && (exists s :: s in old(services) && CoreFails(hosts, raws, s)) ==>
                state == Error
      ensures managed && old(state) != Deploying && (exists s :: s in old(services) && IsCore(s.role)) ==>
                (state == Running <==> forall s :: s in old(services) && IsCore(s.role) ==> FoundRunning(hosts, raws, s))
    {
      PollOutcome(managed, Contents(), hosts, raws);
      ghost var start := services;
      for i := 0 to |services|
        invariant |services| == |start| && state == old(state)
        invariant forall j :: 0 <= j < |start| ==>
                    services[j] == if j < i then Polled(hosts, raws, start[j]) else start[j]
      {
        var s := services[i];
        if s.host in hosts && s.id in raws {
          match raws[s.id] {
            case Active | Activating => services := services[i := s.(status := Running)];
            case Inactive => services := services[i := s.(status := Stopped)];
            case Failed => services := services[i := s.(status := Error)];
            case _ =>
          }
        }
      }
      assert services == PollAll(hosts, raws, start);
      var _ := Sync();
    }

    /** remove_service */
    method RemoveService(id: int, force: bool, env: Env) returns (r: Removal)
      modifies this
      ensures r == Decide(old(services), id, rf, force, env)
      ensures Contents() == Step(managed, rf, old(Contents()), Remove(id, force, env))
    {
      var target := FindService(services, id);
      if target.None? {
        return NotFound;
      }
      var role := target.value.role;
      if !force {
        var remaining := Without(services, id);
        var brokers, controllers := CountBrokers(remaining), CountControllers(remaining);
        if IsBroker(role) && brokers == 0 {
          return LastBroker;
        }
        if IsController(role) && controllers == 0 {
          return LastController;
        }
        if IsBroker(role) && brokers < rf {
          return UnderReplicated;
        }
        // The guard for services that depend on brokers comes last and asks for brokers == 0
        // again, so it has nothing left to refuse (RemovedIff).
      }
      if target.value.host in env.hosts && target.value.id !in env.works && !force {
        return CleanupFailed;
      }
      services := Without(services, id);
      return Removed;
    }
  }

  // ---- Running means running ----

  ghost predicate AllCoreRunning(services: seq<Service>) {
    forall i :: 0 <= i < |services| && IsCore(services[i].role) ==> services[i].status == Running
  }

  ghost predicate HonestState(s: Snapshot) {
    s.state == Running ==> AllCoreRunning(s.services)
  }

  /** After a sync of a managed cluster that is not being deployed and has core services,
      the state is `running` exactly when every core service is. */
  lemma SyncedRunningIff(s: Snapshot)
    requires s.state != Deploying && CoreStatuses(s.services) != {}
    ensures Synced(true, s).state == Running <==> AllCoreRunning(s.services)
  {
    StatusesRunning(s.services);
  }

  lemma StatusesRunning(services: seq<Service>)
    ensures AllCoreRunning(services) <==> forall h :: h in CoreStatuses(services) ==> h == Running
    ensures AllCoreRunning(services) ==> CoreStatuses(services) == {} || CoreStatuses(services) == {Running}
  {
    forall i | 0 <= i < |services| && IsCore(services[i].role) ensures services[i].status in CoreStatuses(services) {
    }
  }

  /** What a sync makes of the core services, whatever they are: an error wins, agreement is
      taken over, and a mixture turns `running` into an error and leaves any other state. */
  lemma SyncedState(s: Snapshot)
    requires s.state != Deploying && exists v :: v in s.services && IsCore(v.role)
    ensures Synced(true, s).services == s.services
    ensures Synced(true, s).state
            == if AnyCore(s.services, Error) then Error
               else if AllCore(s.services, Running) then Running
               else if AllCore(s.services, Stopped) then Stopped
               else if s.state == Running then Error
               else s.state
  {
    CoreStatusesIff(s.services, Error);
    CoreStatusesIff(s.services, Running);
    CoreStatusesIff(s.services, Stopped);
    SyncedByStatuses(s);
  }

  predicate AnyCore(services: seq<Service>, h: Health) {
    exists i :: 0 <= i < |services| && IsCore(services[i].role) && services[i].status == h
  }

  predicate AllCore(services: seq<Service>, h: Health) {
    forall i :: 0 <= i < |services| && IsCore(services[i].role) ==> services[i].status == h
  }

  lemma CoreStatusesIff(services: seq<Service>, h: Health)
    requires exists v :: v in services && IsCore(v.role)
    ensures CoreStatuses(services) != {}
    ensures h in CoreStatuses(services) <==> AnyCore(services, h)
    ensures CoreStatuses(services) == {h} <==> AllCore(services, h)
  {
    var v :| v in services && IsCore(v.role);
    var i :| 0 <= i < |services| && services[i] == v;
    assert services[i].status in CoreStatuses(services);
    forall j | 0 <= j < |services| && IsCore(services[j].role) ensures services[j].status in CoreStatuses(services) {
    }
  }

  lemma SyncedByStatuses(s: Snapshot)
    requires s.state != Deploying && CoreStatuses(s.services) != {}
    ensures var statuses := CoreStatuses(s.services);
            Synced(true, s)
            == s.(state := if Error in statuses then Error else if statuses == {Running} then Running
                           else if statuses == {Stopped} then Stopped
                           else if s.state == Running then Error else s.state)
  {
    var statuses := CoreStatuses(s.services);
    var h :| h in statuses;
    if statuses != {Running} {
      assert exists g :: g in statuses && g != Running;
    }
  }

  /** A cluster that is not managed, is being deployed or has no core service is left alone. */
  lemma NotSynced(managed: bool, s: Snapshot)
    requires !managed || s.state == Deploying || forall v :: v in s.services ==> !IsCore(v.role)
    ensures Synced(managed, s) == s
  {
    if forall v :: v in s.services ==> !IsCore(v.role) {
      assert forall i :: 0 <= i < |s.services| ==> s.services[i] in s.services;
      assert CoreStatuses(s.services) == {};
    }
  }

  /** What a poll decides: a failed core service makes an error of the cluster, and it runs
      afterwards exactly when every core service was found running. */
  lemma PollDecides(s: Snapshot, hosts: set<int>, raws: map<int, Raw>)
    requires exists v :: v in s.services && IsCore(v.role)
    requires s.state != Deploying
    ensures var t := Synced(true, s.(services := PollAll(hosts, raws, s.services)));
            && ((exists v :: v in s.services && CoreFails(hosts, raws, v)) ==> t.state == Error)
            && (t.state == Running <==> forall v :: v in s.services && IsCore(v.role) ==> FoundRunning(hosts, raws, v))
  {
    var polled := PollAll(hosts, raws, s.services);
    var v :| v in s.services && IsCore(v.role);
    var k :| 0 <= k < |s.services| && s.services[k] == v;
    assert polled[k] in polled && IsCore(polled[k].role);
    SyncedState(s.(services := polled));
    if w :| w in s.services && CoreFails(hosts, raws, w) {
      var i :| 0 <= i < |s.services| && s.services[i] == w;
      assert polled[i].status == Error && AnyCore(polled, Error);
    }
    FoundIsPolled(hosts, raws, s.services);
  }

  lemma PollOutcome(managed: bool, s: Snapshot, hosts: set<int>, raws: map<int, Raw>)
    ensures var t := Step(managed, 0, s, Poll(hosts, raws));
            managed && s.state != Deploying ==>
              && ((exists v :: v in s.services && CoreFails(hosts, raws, v)) ==> t.state == Error)
              && ((exists v :: v in s.services && IsCore(v.role)) ==>
                    (t.state == Running
                     <==> forall v :: v in s.services && IsCore(v.role) ==> FoundRunning(hosts, raws, v)))
  {
    if managed && s.state != Deploying && exists v :: v in s.services && IsCore(v.role) {
      PollDecides(s, hosts, raws);
    }
  }

  lemma FoundIsPolled(hosts: set<int>, raws: map<int, Raw>, services: seq<Service>)
    ensures AllCore(PollAll(hosts, raws, services), Running)
            <==> forall v :: v in services && IsCore(v.role) ==> FoundRunning(hosts, raws, v)
  {
    var polled := PollAll(hosts, raws, services);
    forall i | 0 <= i < |services| ensures polled[i].status == Running <==> FoundRunning(hosts, raws, services[i]) {
    }
    if AllCore(polled, Running) {
      forall v | v in services && IsCore(v.role) ensures FoundRunning(hosts, raws, v) {
        var i :| 0 <= i < |services| && services[i] == v;
        assert polled[i].role == v.role;
      }
    }
  }

  /** Syncing twice is syncing once. */
  lemma SyncIdempotent(managed: bool, s: Snapshot)
    ensures Synced(managed, Synced(managed, s)) == Synced(managed, s)
  {
  }

  lemma StepKeepsHonest(rf: int, s: Snapshot, op: Op)
    requires HonestState(s)
    ensures HonestState(Step(true, rf, s, op))
  {
    match op
    case Start(_) =>
    case Stop(_) =>
    case Poll(hosts, raws) => PollMakesHonest(s, hosts, raws);
    case Remove(id, _, _) => WithoutIsPart(s.services, id);
  }

  /** A status poll of a managed cluster makes its state honest, whatever it was before. */
  lemma PollMakesHonest(s: Snapshot, hosts: set<int>, raws: map<int, Raw>)
    ensures HonestState(Step(true, 0, s, Poll(hosts, raws)))
  {
    var t := s.(services := PollAll(hosts, raws, s.services));
    StatusesRunning(t.services);
    if t.state != Deploying && CoreStatuses(t.services) != {} {
      SyncedRunningIff(t);
    }
  }

  lemma {:induction false} WithoutIsPart(services: seq<Service>, id: int)
    ensures forall s :: s in Without(services, id) <==> s in services && s.id != id
  {
    if services != [] {
      WithoutIsPart(services[..|services| - 1], id);
      assert services == services[..|services| - 1] + [services[|services| - 1]];
    }
  }

  /** Over every run of starts, stops, polls and removals of a managed cluster, `running`
      means that every core service is running. */
  lemma {:induction false} RunKeepsHonest(rf: int, s: Snapshot, ops: seq<Op>)
    requires HonestState(s)
    ensures HonestState(Run(true, rf, s, ops))
  {
    if ops != [] {
      RunKeepsHonest(rf, s, ops[..|ops| - 1]);
      StepKeepsHonest(rf, Run(true, rf, s, ops[..|ops| - 1]), ops[|ops| - 1]);
    }
  }

  /** Adding a service to a running cluster leaves the state honest exactly when the new
      service is not a core service or starts out running; added services are pending. */
  lemma AddKeepsHonestIff(s: Snapshot, added: Service)
    requires HonestState(s)
    ensures HonestState(s.(services := s.services + [added]))
            <==> (s.state == Running && IsCore(added.role) ==> added.status == Running)
  {
    var t := s.services + [added];
    assert t[|s.services|] == added;
    assert forall i :: 0 <= i < |s.services| ==> t[i] == s.services[i];
  }

  // ---- What removals keep ----

  function AtLeast(rf: int): int {
    if rf > 1 then rf else 1
  }

  /** The guards in one condition. The fourth guard never decides anything: it repeats the
      first under a further condition. */
  lemma RemovedIff(services: seq<Service>, id: int, rf: int, force: bool, env: Env)
    ensures var target := FindService(services, id);
            var remaining := Without(services, id);
            Decide(services, id, rf, force, env).Removed?
            <==> target.Some?
                 && (force || ((IsBroker(target.value.role) ==> CountBrokers(remaining) >= AtLeast(rf))
                               && (IsController(target.value.role) ==> CountControllers(remaining) >= 1)
                               && (target.value.host in env.hosts ==> target.value.id in env.works)))
    ensures !Decide(services, id, rf, force, env).BrokerNeeded?
  {
  }

  /** The groups of roles, by name. */
  lemma RoleGroups(role: Role)
    ensures IsCore(role) <==> role != KsqlDb && role != KafkaConnect && role != SchemaRegistry && !role.OtherRole?
    ensures IsBroker(role) && IsController(role) <==> role == BrokerController
    ensures IsBroker(role) && !IsController(role) <==> role == Broker
    ensures IsController(role) && !IsBroker(role) <==> role == Controller
  {
  }

  lemma {:induction false} NoneCounted(services: seq<Service>, id: int)
    ensures CountBrokers(Without(services, id)) == 0
            <==> forall s :: s in services && s.id != id ==> !IsBroker(s.role)
    ensures CountControllers(Without(services, id)) == 0
            <==> forall s :: s in services && s.id != id ==> !IsController(s.role)
  {
    if services != [] {
      var before, last := services[..|services| - 1], services[|services| - 1];
      NoneCounted(before, id);
      var w := Without(before, id);
      assert services == before + [last];
      assert w + [] == w && (w + [last])[..|w|] == w;
    }
  }

  lemma {:induction false} FoundIffThere(services: seq<Service>, id: int)
    ensures FindService(services, id).None? <==> forall s :: s in services ==> s.id != id
  {
    if services != [] {
      FoundIffThere(services[..|services| - 1], id);
      assert services == services[..|services| - 1] + [services[|services| - 1]];
    }
  }

  /** Why a removal is refused: there is no such service; no other service is a broker, or a
      controller, where this one is; too few brokers would be left; or the cleanup on a known
      host failed. Forced removals are refused only when there is nothing to remove. */
  lemma RefusalIff(services: seq<Service>, id: int, rf: int, force: bool, env: Env)
    ensures var r, target := Decide(services, id, rf, force, env), FindService(services, id);
            && (r.NotFound? <==> forall s :: s in services ==> s.id != id)
            && (force && target.Some? ==> r.Removed?)
            && (!force && target.Some? ==>
                  var role := target.value.role;
                  && (r.LastBroker?
                      <==> IsBroker(role) && forall s :: s in services && s.id != id ==> !IsBroker(s.role))
                  && (r.LastController?
                      <==> !r.LastBroker? && IsController(role)
                           && forall s :: s in services && s.id != id ==> !IsController(s.role))
                  && (r.UnderReplicated?
                      <==> !r.LastBroker? && !r.LastController? && IsBroker(role)
                           && CountBrokers(Without(services, id)) < rf)
                  && (r.CleanupFailed?
                      <==> !r.LastBroker? && !r.LastController? && !r.UnderReplicated?
                           && target.value.host in env.hosts && target.value.id !in env.works))
  {
    NoneCounted(services, id);
    FoundIffThere(services, id);
  }

  /** The positions of the services whose role is in a group. */
  function Positions(services: seq<Service>, group: Role -> bool): set<nat> {
    set i: nat | i < |services| && group(services[i].role)
  }

  lemma PositionsSnoc(services: seq<Service>, group: Role -> bool)
    requires services != []
    ensures var n := |services| - 1;
            |Positions(services, group)| == |Positions(services[..n], group)| + if group(services[n].role) then 1 else 0
  {
    var n := |services| - 1;
    var front := Positions(services[..n], group);
    assert n !in front;
    assert Positions(services, group) == if group(services[n].role) then front + {n} else front;
  }

  /** The counts are the numbers of services in the group. */
  lemma {:induction false} CountsAreNumbers(services: seq<Service>)
    ensures CountBrokers(services) == |Positions(services, IsBroker)|
    ensures CountControllers(services) == |Positions(services, IsController)|
  {
    if services == [] {
      assert Positions(services, IsBroker) == {} && Positions(services, IsController) == {};
    } else {
      CountsAreNumbers(services[..|services| - 1]);
      PositionsSnoc(services, IsBroker);
      PositionsSnoc(services, IsController);
    }
  }

  predicate EnoughBrokers(rf: int, services: seq<Service>) {
    CountBrokers(services) >= AtLeast(rf)
  }

  predicate HasController(services: seq<Service>) {
    CountControllers(services) >= 1
  }

  ghost predicate DistinctIds(services: seq<Service>) {
    forall i, j :: 0 <= i < j < |services| ==> services[i].id != services[j].id
  }

  lemma {:induction false} NotFoundMeansNothingRemoved(services: seq<Service>, id: int)
    requires forall i :: 0 <= i < |services| ==> services[i].id != id
    ensures Without(services, id) == services && FindService(services, id) == None
  {
    if services != [] {
      NotFoundMeansNothingRemoved(services[..|services| - 1], id);
    }
  }

  /** Removing a row takes away what the row counted for, and nothing else. */
  lemma {:induction false} CountsWithout(services: seq<Service>, id: int)
    requires DistinctIds(services)
    ensures var target := FindService(services, id);
            && CountBrokers(Without(services, id))
               == CountBrokers(services) - (if target.Some? && IsBroker(target.value.role) then 1 else 0)
            && CountControllers(Without(services, id))
               == CountControllers(services) - (if target.Some? && IsController(target.value.role) then 1 else 0)
  {
    if services != [] {
      var before, last := services[..|services| - 1], services[|services| - 1];
      if last.id == id {
        NotFoundMeansNothingRemoved(before, id);
        assert before + [] == before;
      } else {
        CountsWithout(before, id);
        var w := Without(before, id);
        assert (w + [last])[..|w|] == w;
      }
    }
  }

  lemma {:induction false} WithoutKeepsDistinct(services: seq<Service>, id: int)
    requires DistinctIds(services)
    ensures DistinctIds(Without(services, id))
  {
    if services != [] {
      var before, last := services[..|services| - 1], services[|services| - 1];
      WithoutKeepsDistinct(before, id);
      WithoutIsPart(before, id);
      var w := Without(before, id);
      forall i | 0 <= i < |w| ensures w[i].id != last.id {
        assert w[i] in before;
      }
    }
  }

  lemma {:induction false} CountsByRole(a: seq<Service>, b: seq<Service>)
    requires |a| == |b| && forall i :: 0 <= i < |a| ==> a[i].role == b[i].role
    ensures CountBrokers(a) == CountBrokers(b) && CountControllers(a) == CountControllers(b)
  {
    if a != [] {
      CountsByRole(a[..|a| - 1], b[..|b| - 1]);
    }
  }

  lemma RemovalKeepsBrokers(services: seq<Service>, id: int, rf: int, env: Env)
    requires DistinctIds(services) && EnoughBrokers(rf, services) && Decide(services, id, rf, false, env).Removed?
    ensures EnoughBrokers(rf, Without(services, id))
  {
    CountsWithout(services, id);
    RemovedIff(services, id, rf, false, env);
  }

  lemma RemovalKeepsController(services: seq<Service>, id: int, rf: int, env: Env)
    requires DistinctIds(services) && HasController(services) && Decide(services, id, rf, false, env).Removed?
    ensures HasController(Without(services, id))
  {
    CountsWithout(services, id);
    RemovedIff(services, id, rf, false, env);
  }

  // What a run without forced removals is to keep of a cluster, whatever it had of it.
  ghost predicate StaffKept(rf: int, before: seq<Service>, after: seq<Service>) {
    && (DistinctIds(before) ==> DistinctIds(after))
    && (EnoughBrokers(rf, before) ==> EnoughBrokers(rf, after))
    && (HasController(before) ==> HasController(after))
  }

  lemma SameRolesKeepStaff(rf: int, a: seq<Service>, b: seq<Service>)
    requires |a| == |b| && forall i :: 0 <= i < |a| ==> a[i].role == b[i].role && a[i].id == b[i].id
    ensures StaffKept(rf, a, b)
  {
    CountsByRole(a, b);
  }

  lemma StepKeepsStaff(managed: bool, rf: int, s: Snapshot, op: Op)
    requires DistinctIds(s.services) && (op.Remove? ==> !op.force)
    ensures StaffKept(rf, s.services, Step(managed, rf, s, op).services)
  {
    var services := s.services;
    match op
    case Start(env) => SameRolesKeepStaff(rf, services, VisitAll(Starting, env, services));
    case Stop(env) => SameRolesKeepStaff(rf, services, VisitAll(Stopping, env, services));
    case Poll(hosts, raws) => SameRolesKeepStaff(rf, services, PollAll(hosts, raws, services));
    case Remove(id, _, env) =>
      if Decide(services, id, rf, false, env).Removed? {
        WithoutKeepsDistinct(services, id);
        if EnoughBrokers(rf, services) {
          RemovalKeepsBrokers(services, id, rf, env);
        }
        if HasController(services) {
          RemovalKeepsController(services, id, rf, env);
        }
      }
  }

  /** Over every run whose removals are not forced, a cluster with at least one broker and as
      many as its replication factor keeps them, and, independently, a cluster with a
      controller keeps one; a ZooKeeper cluster has only the first to keep. */
  lemma {:induction false} RunKeepsStaff(managed: bool, rf: int, s: Snapshot, ops: seq<Op>)
    requires DistinctIds(s.services)
    requires forall i :: 0 <= i < |ops| && ops[i].Remove? ==> !ops[i].force
    ensures DistinctIds(Run(managed, rf, s, ops).services)
    ensures EnoughBrokers(rf, s.services) ==> EnoughBrokers(rf, Run(managed, rf, s, ops).services)
    ensures HasController(s.services) ==> HasController(Run(managed, rf, s, ops).services)
  {
    if ops != [] {
      RunKeepsStaff(managed, rf, s, ops[..|ops| - 1]);
      StepKeepsStaff(managed, rf, Run(managed, rf, s, ops[..|ops| - 1]), ops[|ops| - 1]);
    }
  }

  /** On a cluster with enough brokers the guards refuse a removal that is not forced exactly
      when it would leave too few brokers, or take the only controller of a cluster that has one. */
  lemma GuardsAreExact(services: seq<Service>, id: int, rf: int, env: Env)
    requires DistinctIds(services) && EnoughBrokers(rf, services) && FindService(services, id).Some?
    ensures var r, rest := Decide(services, id, rf, false, env), Without(services, id);
            r.LastBroker? || r.LastController? || r.UnderReplicated?
            <==> !EnoughBrokers(rf, rest) || (HasController(services) && !HasController(rest))
  {
    CountsWithout(services, id);
  }

  // ---- A cluster on which the stored state is wrong ----

  /** A running broker and the pending one that is added to it: the state goes on saying
      `running`, until the next status poll finds the new broker stopped. */
  lemma PendingBrokerAdded(host: int)
    ensures var cluster := Snapshot(Running, [Service(1, Broker, host, Running)]);
            var added := Service(2, Broker, host, OtherHealth("pending"));
            var grown := cluster.(services := cluster.services + [added]);
            && HonestState(cluster) && !HonestState(grown) && grown.state == Running
            && Step(true, 1, grown, Poll({host}, map[1 := Active, 2 := Inactive])).state == Error
  {
    var cluster := Snapshot(Running, [Service(1, Broker, host, Running)]);
    var added := Service(2, Broker, host, OtherHealth("pending"));
    AddKeepsHonestIff(cluster, added);
    var polled := PollAll({host}, map[1 := Active, 2 := Inactive], cluster.services + [added]);
    assert polled[0] == Service(1, Broker, host, Running) && polled[1] == Service(2, Broker, host, Stopped);
    MixedStatuses(polled);
  }

  lemma MixedStatuses(services: seq<Service>)
    requires |services| == 2 && IsCore(services[0].role) && IsCore(services[1].role)
    requires services[0].status == Running && services[1].status == Stopped
    ensures Synced(true, Snapshot(Running, services)).state == Error
  {
    var statuses := CoreStatuses(services);
    assert services[0].status in statuses && services[1].status in statuses;
    assert forall h :: h in statuses ==> h == Running || h == Stopped;
  }
}
