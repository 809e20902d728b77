/** One topology collection: the bounded scheduler, and what is collected from a machine and an instance
    (crates/nexustier-gateway/src/telemetry.rs:201-423, 514-564). */
module Collection {
  import opened Wrappers
  import opened Topology

  type SessionId = nat

  // ---------- Rust's stable `sort_by_key` ----------

  ghost predicate SortedBy<T>(s: seq<T>, key: T -> nat) {
    forall i, j :: 0 <= i < j < |s| ==> key(s[i]) <= key(s[j])
  }

  /** Before the first element that is not smaller: equal elements keep their order. */
  function InsertBy<T>(x: T, s: seq<T>, key: T -> nat): seq<T> {
    if s == [] || key(x) <= key(s[0]) then [x] + s else [s[0]] + InsertBy(x, s[1..], key)
  }

  lemma {:induction false} InsertKeepsElements<T>(x: T, s: seq<T>, key: T -> nat)
    ensures multiset(InsertBy(x, s, key)) == multiset{x} + multiset(s)
  {
    if s != [] && key(x) > key(s[0]) {
      InsertKeepsElements(x, s[1..], key);
      assert s == [s[0]] + s[1..];
    }
  }

  lemma {:induction false} InsertSorted<T>(x: T, s: seq<T>, key: T -> nat)
    requires SortedBy(s, key)
    ensures SortedBy(InsertBy(x, s, key), key)
  {
    if s != [] && key(x) > key(s[0]) {
      InsertSorted(x, s[1..], key);
      InsertKeepsElements(x, s[1..], key);
      var rest := InsertBy(x, s[1..], key);
      forall k | 0 <= k < |rest| ensures key(s[0]) <= key(rest[k]) {
        assert rest[k] in multiset(rest);
        if rest[k] != x {
          assert rest[k] in s[1..];
        }
      }
    }
  }

  /** The elements with this key, in order. */
  ghost function WithKey<T(!new)>(s: seq<T>, key: T -> nat, k: nat): seq<T> {
    if s == [] then [] else (if key(s[0]) == k then [s[0]] else []) + WithKey(s[1..], key, k)
  }

  lemma {:induction false} InsertStable<T(!new)>(x: T, s: seq<T>, key: T -> nat, k: nat)
    requires SortedBy(s, key)
    ensures WithKey(InsertBy(x, s, key), key, k) == (if key(x) == k then [x] else []) + WithKey(s, key, k)
  {
    var r := InsertBy(x, s, key);
    if s == [] || key(x) <= key(s[0]) {
      assert r[1..] == s;
    } else {
      assert r[1..] == InsertBy(x, s[1..], key);
      InsertStable(x, s[1..], key, k);
      if key(x) == k {
        SmallerBefore(s, key, k);
      }
    }
  }

  lemma SmallerBefore<T(!new)>(s: seq<T>, key: T -> nat, k: nat)
    requires s != [] && key(s[0]) < k
    ensures WithKey(s, key, k) == WithKey(s[1..], key, k)
  {
  }

  /** Sorting keeps the order of elements with equal keys. */
  lemma {:induction false} SortIsStable<T(!new)>(s: seq<T>, key: T -> nat, k: nat)
    ensures WithKey(SortBy(s, key), key, k) == WithKey(s, key, k)
  {
    if s != [] {
      SortIsStable(s[1..], key, k);
      InsertStable(s[0], SortBy(s[1..], key), key, k);
    }
  }

  function SortBy<T>(s: seq<T>, key: T -> nat): (r: seq<T>)
    ensures multiset(r) == multiset(s)
    ensures SortedBy(r, key)
    ensures |r| == |s|
  {
    if s == [] then []
    else
      var rest := SortBy(s[1..], key);
      InsertKeepsElements(s[0], rest, key);
      InsertSorted(s[0], rest, key);
      assert s == [s[0]] + s[1..];
      assert |multiset(InsertBy(s[0], rest, key))| == |InsertBy(s[0], rest, key)|;
      InsertBy(s[0], rest, key)
  }

  // ---------- the scheduler ----------

  /** How many tasks run and how many sessions wait whenever the scheduler waits. */
  datatype Load = Load(running: nat, queued: nat)

  function Results(collect: SessionId -> Option<Machine>, done: seq<SessionId>): seq<Machine>
    requires forall x :: x in done ==> collect(x).Some?
  {
    seq(|done|, k requires 0 <= k < |done| => collect(done[k]).value)
  }

  function TaskFailed(): TelemetryError { TelemetryError("task_failed", "collect_machine", "task panicked") }

  function TimedOut(): TelemetryError { TelemetryError("collection_timeout", "collect_topology", "deadline elapsed") }

  /** Every session is somewhere: collected, lost to a panic, running, or waiting. */
  ghost predicate Placed(sessions: seq<SessionId>, done: seq<SessionId>, panicked: seq<SessionId>,
                         tasks: seq<SessionId>, pending: seq<SessionId>) {
    multiset(done) + multiset(panicked) + multiset(tasks) + multiset(pending) == multiset(sessions)
  }

  lemma StartPlaced(sessions: seq<SessionId>, done: seq<SessionId>, panicked: seq<SessionId>,
                    tasks: seq<SessionId>, pending: seq<SessionId>)
    requires Placed(sessions, done, panicked, tasks, pending) && pending != []
    ensures Placed(sessions, done, panicked, tasks + [pending[0]], pending[1..])
  {
    assert pending == [pending[0]] + pending[1..];
  }

  lemma FinishPlaced(sessions: seq<SessionId>, done: seq<SessionId>, panicked: seq<SessionId>,
                     tasks: seq<SessionId>, pending: seq<SessionId>, k: nat)
    requires Placed(sessions, done, panicked, tasks, pending) && k < |tasks|
    ensures Placed(sessions, done + [tasks[k]], panicked, tasks[..k] + tasks[k + 1..], pending)
    ensures Placed(sessions, done, panicked + [tasks[k]], tasks[..k] + tasks[k + 1..], pending)
  {
    assert tasks == tasks[..k] + [tasks[k]] + tasks[k + 1..];
  }

  lemma ResultsStep(collect: SessionId -> Option<Machine>, done: seq<SessionId>, x: SessionId)
    requires forall y :: y in done ==> collect(y).Some?
    requires collect(x).Some?
    ensures forall y :: y in done + [x] ==> collect(y).Some?
    ensures Results(collect, done + [x]) == Results(collect, done) + [collect(x).value]
  {
  }

  /** What the scheduler has got so far. */
  ghost predicate Gathered(collect: SessionId -> Option<Machine>, done: seq<SessionId>, panicked: seq<SessionId>,
                           found: seq<Machine>, errors: seq<TelemetryError>) {
    && (forall x :: x in done ==> collect(x).Some?)
    && (forall x :: x in panicked ==> collect(x).None?)
    && found == Results(collect, done) && |errors| == |panicked|
  }

  lemma GatherStep(collect: SessionId -> Option<Machine>, done: seq<SessionId>, panicked: seq<SessionId>,
                   found: seq<Machine>, errors: seq<TelemetryError>, x: SessionId)
    requires Gathered(collect, done, panicked, found, errors)
    ensures collect(x).Some? ==> Gathered(collect, done + [x], panicked, found + [collect(x).value], errors)
    ensures collect(x).None? ==> Gathered(collect, done, panicked + [x], found, errors + [TaskFailed()])
  {
    if collect(x).Some? {
      ResultsStep(collect, done, x);
    }
  }

  ghost predicate Bounded(loads: seq<Load>, concurrency: nat) {
    forall l :: l in loads ==> l.running <= concurrency && (l.queued > 0 ==> l.running == concurrency)
  }

  lemma LoadStep(loads: seq<Load>, concurrency: nat, load: Load)
    requires Bounded(loads, concurrency) && load.running <= concurrency
             && (load.queued > 0 ==> load.running == concurrency)
    ensures Bounded(loads + [load], concurrency)
  {
  }

  /** What a collection of these sessions amounts to. `timeout` is the number reported when the deadline strikes. */
  ghost predicate Collected(sessions: seq<SessionId>, collect: SessionId -> Option<Machine>, machines: seq<Machine>,
                            errors: seq<TelemetryError>, timeout: Option<nat>) {
    && SortedBy(machines, (m: Machine) => m.Id())
    && (forall x :: x in sessions ==> errors != [] || (collect(x).Some? && collect(x).value in machines))
    && (forall m :: m in machines ==> exists x :: x in sessions && collect(x) == Some(m))
    && |machines| + |errors| + (if timeout.Some? then timeout.value - 1 else 0) == |sessions|
  }

  /** `collect_topology`. `collect` is what the task of a session would return, `None` if it panics; tasks finish in
      any order and the deadline may strike whenever the scheduler waits. */
  method CollectTopology(sessions: seq<SessionId>, concurrency: nat, collect: SessionId -> Option<Machine>)
    returns (machines: seq<Machine>, errors: seq<TelemetryError>, timeout: Option<nat>,
             ghost done: seq<SessionId>, ghost panicked: seq<SessionId>, ghost left: seq<SessionId>,
             ghost loads: seq<Load>)
    requires concurrency > 0
    ensures Placed(sessions, done, panicked, left, [])
    ensures forall x :: x in done ==> collect(x).Some?
    ensures forall x :: x in panicked ==> collect(x).None?
    ensures multiset(machines) == multiset(Results(collect, done))
    ensures |errors| == |panicked| + if timeout.Some? then 1 else 0
    ensures forall k :: 0 <= k < |panicked| ==>
              errors[k].code == "task_failed" && errors[k].operation == "collect_machine"
    ensures timeout.Some? ==>
              errors[|panicked|].code == "collection_timeout" && errors[|panicked|].operation == "collect_topology"
    ensures timeout == if left == [] then None else Some(|left|)
    ensures Collected(sessions, collect, machines, errors, timeout)
    ensures Bounded(loads, concurrency) && |loads| == |done| + |panicked| + if timeout.Some? then 1 else 0
  {
    hide Placed;
    hide Gathered;
    hide Collected;
    hide Bounded;
    hide SortBy;
    var pending := sessions;
    var tasks: seq<SessionId> := [];
    done, panicked, left, loads := [], [], [], [];
    timeout, errors := None, [];
    NothingYet(sessions, collect);
    while |tasks| < concurrency && pending != []
      invariant |tasks| <= concurrency && Placed(sessions, done, panicked, tasks, pending)
      decreases |pending|
    {
      StartPlaced(sessions, done, panicked, tasks, pending);
      tasks, pending := tasks + [pending[0]], pending[1..];
    }
    var found: seq<Machine> := [];
    while tasks != []
      invariant |tasks| <= concurrency && (pending != [] ==> |tasks| == concurrency)
      invariant Placed(sessions, done, panicked, tasks, pending)
      invariant Gathered(collect, done, panicked, found, errors)
      invariant Bounded(loads, concurrency) && |loads| == |done| + |panicked|
      invariant |errors| == |panicked| && forall k :: 0 <= k < |errors| ==> errors[k] == TaskFailed()
      decreases |tasks| + |pending|
    {
      LoadStep(loads, concurrency, Load(|tasks|, |pending|));
      loads := loads + [Load(|tasks|, |pending|)];
      if * {
        timeout := Some(|pending| + |tasks|);
        left := tasks + pending;
        break;
      }
      var k: nat :| k < |tasks|;
      var x := tasks[k];
      FinishPlaced(sessions, done, panicked, tasks, pending, k);
      GatherStep(collect, done, panicked, found, errors, x);
      tasks := tasks[..k] + tasks[k + 1..];
      match collect(x) {
        case Some(machine) => done, found := done + [x], found + [machine];
        case None => panicked, errors := panicked + [x], errors + [TaskFailed()];
      }
      if pending != [] {
        StartPlaced(sessions, done, panicked, tasks, pending);
        tasks, pending := tasks + [pending[0]], pending[1..];
      }
    }
    machines := SortBy(found, (m: Machine) => m.Id());
    LeftPlaced(sessions, done, panicked, tasks, pending);
    SchedulerAccounts(sessions, collect, done, panicked, left, found, machines, errors);
    if timeout.Some? {
      errors := errors + [TimedOut()];
    }
  }

  lemma NothingYet(sessions: seq<SessionId>, collect: SessionId -> Option<Machine>)
    ensures Placed(sessions, [], [], [], sessions) && Gathered(collect, [], [], [], [])
    ensures forall concurrency: nat :: Bounded([], concurrency)
  {
  }

  lemma LeftPlaced(sessions: seq<SessionId>, done: seq<SessionId>, panicked: seq<SessionId>,
                   tasks: seq<SessionId>, pending: seq<SessionId>)
    requires Placed(sessions, done, panicked, tasks, pending)
    ensures Placed(sessions, done, panicked, tasks + pending, [])
    ensures tasks == [] && pending == [] ==> Placed(sessions, done, panicked, [], [])
  {
  }

  lemma SchedulerAccounts(sessions: seq<SessionId>, collect: SessionId -> Option<Machine>,
                          done: seq<SessionId>, panicked: seq<SessionId>, left: seq<SessionId>,
                          found: seq<Machine>, machines: seq<Machine>, errors: seq<TelemetryError>)
    requires Placed(sessions, done, panicked, left, []) && Gathered(collect, done, panicked, found, errors)
    requires machines == SortBy(found, (m: Machine) => m.Id())
    ensures forall x :: x in done ==> collect(x).Some?
    ensures forall x :: x in panicked ==> collect(x).None?
    ensures |errors| == |panicked| && multiset(machines) == multiset(Results(collect, done))
    ensures left == [] ==> Collected(sessions, collect, machines, errors, None)
    ensures left != [] ==> Collected(sessions, collect, machines, errors + [TimedOut()], Some(|left|))
  {
    hide SortBy;
    SchedulerCounts(sessions, done, panicked, left);
    forall x | x in sessions && x !in panicked && x !in left ensures collect(x).Some? && collect(x).value in machines {
      assert x in multiset(sessions);
      assert x in done;
      var k :| 0 <= k < |done| && done[k] == x;
      assert found[k] == collect(x).value;
      assert found[k] in multiset(found);
      assert found[k] in multiset(machines);
    }
    forall m | m in machines ensures exists x :: x in sessions && collect(x) == Some(m) {
      assert m in multiset(machines);
      assert m in found;
      var k :| 0 <= k < |found| && found[k] == m;
      assert done[k] in multiset(done);
      assert done[k] in multiset(sessions);
      assert done[k] in sessions && collect(done[k]) == Some(m);
    }
  }

  lemma SchedulerCounts(sessions: seq<SessionId>, done: seq<SessionId>, panicked: seq<SessionId>, left: seq<SessionId>)
    requires Placed(sessions, done, panicked, left, [])
    ensures |done| + |panicked| + |left| == |sessions|
  {
    assert multiset(done) + multiset(panicked) + multiset(left) == multiset(sessions);
    assert |multiset(done) + multiset(panicked) + multiset(left)| == |multiset(sessions)|;
  }

  // ---------- remote calls ----------

  datatype Rpc<+T> = Answer(value: T) | RpcError(message: string) | RpcTimeout(message: string)

  /** The one error a failed call leaves behind. */
  function RpcErrors<T>(result: Rpc<T>, operation: string): seq<TelemetryError> {
    match result
    case Answer(_) => []
    case RpcError(e) => [TelemetryError("rpc_error", operation, e)]
    case RpcTimeout(e) => [TelemetryError("rpc_timeout", operation, e)]
  }

  method RpcValue<T>(result: Rpc<T>, operation: string, errors: seq<TelemetryError>)
    returns (value: Option<T>, errors': seq<TelemetryError>)
    ensures value == if result.Answer? then Some(result.value) else None
    ensures errors' == errors + RpcErrors(result, operation)
    ensures result.RpcError? ==> errors' == errors + [TelemetryError("rpc_error", operation, result.message)]
    ensures result.RpcTimeout? ==> errors' == errors + [TelemetryError("rpc_timeout", operation, result.message)]
    ensures result.Answer? ==> errors' == errors
  {
    match result {
      case Answer(v) => value, errors' := Some(v), errors;
      case RpcError(e) => value, errors' := None, errors + [TelemetryError("rpc_error", operation, e)];
      case RpcTimeout(e) => value, errors' := None, errors + [TelemetryError("rpc_timeout", operation, e)];
    }
  }

  // ---------- peers and routes ----------

  datatype PeerInfo = PeerInfo(peerId: PeerId, connections: seq<string>)

  datatype RouteInfo = RouteInfo(peerId: PeerId, hostname: string, cost: int, pathLatency: int)

  /** The peer a route is joined with: the last entry of that id, and only for the first route that asks for it. */
  function PeerFor(peers: seq<PeerInfo>, routes: seq<RouteInfo>, k: nat): Option<PeerInfo>
    requires k < |routes|
  {
    if Taken(routes, k, routes[k].peerId) then None else LastPeer(peers, routes[k].peerId)
  }

  /** Exactly the first route of an id is joined, with the last peer entry of that id. */
  lemma FirstRouteGetsLastPeer(peers: seq<PeerInfo>, routes: seq<RouteInfo>, k: nat)
    requires k < |routes|
    ensures var id := routes[k].peerId;
            && (PeerFor(peers, routes, k).Some?
                <==> && (forall j :: 0 <= j < k ==> routes[j].peerId != id)
                     && (exists j :: 0 <= j < |peers| && peers[j].peerId == id))
            && (PeerFor(peers, routes, k).Some? ==>
                  exists j :: 0 <= j < |peers| && peers[j] == PeerFor(peers, routes, k).value && peers[j].peerId == id
                              && forall l :: j < l < |peers| ==> peers[l].peerId != id)
  {
  }

  /** One of the first `k` routes has this id. */
  predicate Taken(routes: seq<RouteInfo>, k: nat, id: PeerId)
    requires k <= |routes|
  {
    exists j :: 0 <= j < k && routes[j].peerId == id
  }

  function LastPeer(peers: seq<PeerInfo>, id: PeerId): (r: Option<PeerInfo>)
    ensures r.Some? <==> exists j :: 0 <= j < |peers| && peers[j].peerId == id
    ensures r.Some? ==>
              exists j :: 0 <= j < |peers| && peers[j] == r.value && peers[j].peerId == id
                          && forall k :: j < k < |peers| ==> peers[k].peerId != id
  {
    if peers == [] then None
    else if peers[|peers| - 1].peerId == id then Some(peers[|peers| - 1])
    else
      assert peers == peers[..|peers| - 1] + [peers[|peers| - 1]];
      LastPeer(peers[..|peers| - 1], id)
  }

  /** `join_peers_and_routes`. `view` is what the route and its peer, if any, are displayed as. */
  method JoinPeersAndRoutes(peers: seq<PeerInfo>, routes: seq<RouteInfo>, view: (RouteInfo, Option<PeerInfo>) -> Peer)
    returns (views: seq<Peer>)
    ensures multiset(views) == multiset(Views(peers, routes, view, |routes|)) && |views| == |routes|
    ensures SortedBy(views, (p: Peer) => p.peerId)
    ensures forall id: nat :: WithKey(views, PEER_ID, id) == WithKey(Views(peers, routes, view, |routes|), PEER_ID, id)
  {
    var byId: map<PeerId, PeerInfo> := map[];
    for k := 0 to |peers|
      invariant forall id: PeerId :: LastPeer(peers[..k], id) == Look(byId, id)
    {
      assert peers[..k + 1][..k] == peers[..k];
      byId := byId[peers[k].peerId := peers[k]];
    }
    assert peers[..|peers|] == peers;
    var found: seq<Peer> := [];
    for k := 0 to |routes|
      invariant Unclaimed(byId, peers, routes, k)
      invariant found == Views(peers, routes, view, k)
    {
      NextView(byId, peers, routes, view, k);
      var id := routes[k].peerId;
      var peer := Look(byId, id);
      byId := byId - {id};
      found := found + [view(routes[k], peer)];
    }
    views := SortBy(found, PEER_ID);
    forall id: nat ensures WithKey(views, PEER_ID, id) == WithKey(found, PEER_ID, id) {
      SortIsStable(found, PEER_ID, id);
    }
  }

  const PEER_ID := (p: Peer) => p.peerId

  function Views(peers: seq<PeerInfo>, routes: seq<RouteInfo>, view: (RouteInfo, Option<PeerInfo>) -> Peer,
                 n: nat): seq<Peer>
    requires n <= |routes|
  {
    seq(n, k requires 0 <= k < n => view(routes[k], PeerFor(peers, routes, k)))
  }

  function Look(byId: map<PeerId, PeerInfo>, id: PeerId): Option<PeerInfo> {
    if id in byId then Some(byId[id]) else None
  }

  /** The index holds exactly the peers that no earlier route has taken. */
  ghost predicate Unclaimed(byId: map<PeerId, PeerInfo>, peers: seq<PeerInfo>, routes: seq<RouteInfo>, k: nat)
    requires k <= |routes|
  {
    forall id: PeerId :: Look(byId, id) == if Taken(routes, k, id) then None else LastPeer(peers, id)
  }

  lemma NextView(byId: map<PeerId, PeerInfo>, peers: seq<PeerInfo>, routes: seq<RouteInfo>,
                 view: (RouteInfo, Option<PeerInfo>) -> Peer, k: nat)
    requires k < |routes| && Unclaimed(byId, peers, routes, k)
    ensures Views(peers, routes, view, k + 1)
            == Views(peers, routes, view, k) + [view(routes[k], Look(byId, routes[k].peerId))]
    ensures Unclaimed(byId - {routes[k].peerId}, peers, routes, k + 1)
  {
    hide LastPeer;
    var a, b := Views(peers, routes, view, k), Views(peers, routes, view, k + 1);
    assert PeerFor(peers, routes, k) == Look(byId, routes[k].peerId);
    assert b[k] == view(routes[k], Look(byId, routes[k].peerId));
    assert forall j :: 0 <= j < k ==> a[j] == b[j];
    assert b == a + [b[k]];
    forall id: PeerId
      ensures Look(byId - {routes[k].peerId}, id) == if Taken(routes, k + 1, id) then None else LastPeer(peers, id)
    {
      if id == routes[k].peerId {
        assert Taken(routes, k + 1, id);
      } else {
        assert Taken(routes, k + 1, id) <==> Taken(routes, k, id);
        assert Look(byId, id) == Look(byId - {routes[k].peerId}, id);
      }
    }
  }

  // ---------- instances and machines ----------

  lemma HasErrorConcat(a: seq<TelemetryError>, b: seq<TelemetryError>, operation: string)
    ensures HasOperationError(a + b, operation) <==> HasOperationError(a, operation) || HasOperationError(b, operation)
  {
    if HasOperationError(a, operation) {
      var k :| 0 <= k < |a| && a[k].operation == operation;
      assert (a + b)[k].operation == operation;
    }
    if HasOperationError(b, operation) {
      var k :| 0 <= k < |b| && b[k].operation == operation;
      assert (a + b)[|a| + k].operation == operation;
    }
  }

  /** `collect_instance`: a failed call leaves its part empty and is the only reason for its error. */
  method CollectInstance(id: Uuid, peers: Rpc<seq<PeerInfo>>, routes: Rpc<seq<RouteInfo>>, node: Rpc<Option<Node>>,
                         stats: Rpc<seq<Metric>>, view: (RouteInfo, Option<PeerInfo>) -> Peer, now: Millis64)
    returns (i: Instance)
    ensures i.instanceId == id && i.observedAtMs == now
    ensures HasOperationError(i.errors, LIST_PEERS) <==> !peers.Answer?
    ensures HasOperationError(i.errors, LIST_ROUTES) <==> !routes.Answer?
    ensures !routes.Answer? ==> i.peers == []
    ensures routes.Answer? ==>
              multiset(i.peers)
              == multiset(Views(if peers.Answer? then peers.value else [], routes.value, view, |routes.value|))
    ensures SortedBy(i.peers, (p: Peer) => p.peerId)
    ensures routes.Answer? ==> forall p: nat ::
              WithKey(i.peers, PEER_ID, p)
              == WithKey(Views(if peers.Answer? then peers.value else [], routes.value, view, |routes.value|),
                         PEER_ID, p)
    ensures i.errors == RpcErrors(peers, LIST_PEERS) + RpcErrors(routes, LIST_ROUTES)
                        + RpcErrors(node, "show_node_info") + RpcErrors(stats, "get_stats")
    ensures i.node == if node.Answer? then node.value else None
    ensures i.metrics == if stats.Answer? then stats.value else []
  {
    hide HasOperationError;
    hide RpcErrors;
    var errors: seq<TelemetryError> := [];
    var peerValue, routeValue, nodeValue, statsValue;
    peerValue, errors := RpcValue(peers, LIST_PEERS, errors);
    routeValue, errors := RpcValue(routes, LIST_ROUTES, errors);
    nodeValue, errors := RpcValue(node, "show_node_info", errors);
    statsValue, errors := RpcValue(stats, "get_stats", errors);
    OnlyOwnErrors(peers, routes, node, stats);
    assert [] + RpcErrors(peers, LIST_PEERS) == RpcErrors(peers, LIST_PEERS);
    var joined := JoinPeersAndRoutes(if peerValue.Some? then peerValue.value else [],
                                     if routeValue.Some? then routeValue.value else [], view);
    i := Instance(id, now, if nodeValue.Some? then nodeValue.value else None, joined,
                  if statsValue.Some? then statsValue.value else [], errors);
  }

  lemma OnlyOwnError<T>(result: Rpc<T>, operation: string)
    ensures forall o :: HasOperationError(RpcErrors(result, operation), o) <==> !result.Answer? && o == operation
  {
    if !result.Answer? {
      assert RpcErrors(result, operation)[0].operation == operation;
    }
  }

  lemma OnlyOwnErrors<A, B, C, D>(peers: Rpc<A>, routes: Rpc<B>, node: Rpc<C>, stats: Rpc<D>)
    ensures var e := RpcErrors(peers, LIST_PEERS) + RpcErrors(routes, LIST_ROUTES)
                     + RpcErrors(node, "show_node_info") + RpcErrors(stats, "get_stats");
            && (HasOperationError(e, LIST_PEERS) <==> !peers.Answer?)
            && (HasOperationError(e, LIST_ROUTES) <==> !routes.Answer?)
  {
    OnlyOwnError(peers, LIST_PEERS);
    OnlyOwnError(routes, LIST_ROUTES);
    OnlyOwnError(node, "show_node_info");
    OnlyOwnError(stats, "get_stats");
    var e1, e2 := RpcErrors(peers, LIST_PEERS), RpcErrors(routes, LIST_ROUTES);
    var e3, e4 := RpcErrors(node, "show_node_info"), RpcErrors(stats, "get_stats");
    hide HasOperationError;
    hide RpcErrors;
    forall o: string ensures HasOperationError(e1 + e2 + e3 + e4, o)
      <==> HasOperationError(e1, o) || HasOperationError(e2, o) || HasOperationError(e3, o) || HasOperationError(e4, o)
    {
      HasErrorConcat(e1, e2, o);
      HasErrorConcat(e1 + e2, e3, o);
      HasErrorConcat(e1 + e2 + e3, e4, o);
    }
  }

  const INSTANCE_ID := (i: Instance) => i.instanceId

  const UNAVAILABLE := Session(NIL_UUID, "", "", "", "", 0, 0, [], None)

  /** `collect_machine`. `session` is the session's view, absent if it has no heartbeat or no machine id. */
  method CollectMachine(session: Option<Session>, listing: Rpc<seq<Uuid>>, collect: Uuid -> Instance, now: Millis64)
    returns (m: Machine)
    requires forall id :: collect(id).instanceId == id
    ensures m.observedAtMs == now
    ensures m.session == if session.Some? then session.value else UNAVAILABLE
    ensures HasOperationError(m.errors, LIST_INSTANCES) <==> session.Some? && !listing.Answer?
    ensures session.Some? && listing.Answer? ==> m.errors == [] && SortedBy(m.instances, (i: Instance) => i.instanceId)
    ensures session.Some? && listing.Answer? ==>
              multiset(m.instances)
              == multiset(seq(|listing.value|, k requires 0 <= k < |listing.value| => collect(listing.value[k])))
    ensures session.Some? && listing.Answer? ==> forall i: nat ::
              WithKey(m.instances, INSTANCE_ID, i)
              == WithKey(seq(|listing.value|, k requires 0 <= k < |listing.value| => collect(listing.value[k])),
                         INSTANCE_ID, i)
    ensures !(session.Some? && listing.Answer?) ==> m.instances == []
    ensures session.Some? ==> m.errors == RpcErrors(listing, LIST_INSTANCES)
    ensures session.None? ==>
              && |m.errors| == 1
              && m.errors[0].code == "session_unavailable" && m.errors[0].operation == "session_snapshot"
  {
    if session.None? {
      m := Machine(UNAVAILABLE, now, [], [TelemetryError("session_unavailable", "session_snapshot", "no heartbeat")]);
      return;
    }
    var ids, errors := RpcValue(listing, LIST_INSTANCES, []);
    OnlyOwnError(listing, LIST_INSTANCES);
    assert errors == RpcErrors(listing, LIST_INSTANCES);
    if ids.None? {
      m := Machine(session.value, now, [], errors);
      return;
    }
    var found: seq<Instance> := [];
    for k := 0 to |ids.value|
      invariant found == seq(k, j requires 0 <= j < k => collect(ids.value[j]))
    {
      found := found + [collect(ids.value[k])];
    }
    forall i: nat ensures WithKey(SortBy(found, INSTANCE_ID), INSTANCE_ID, i) == WithKey(found, INSTANCE_ID, i) {
      SortIsStable(found, INSTANCE_ID, i);
    }
    m := Machine(session.value, now, SortBy(found, INSTANCE_ID), []);
  }
}
