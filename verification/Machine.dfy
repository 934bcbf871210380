/** Whole runs: the framework as a state machine whose steps are its handlers, each taken as one atomic step,
    with everything that comes from outside as part of the event. */
module Machine {
  import opened Types
  import opened Nodes
  import opened Offers
  import opened Scaling
  import opened Scheduling
  import opened Updates

  datatype Event =
    | Beating(b: Beat)
    | Checking(now: int)
    | Offered(offers: seq<Offer>, accepted: bool)
    | Updated(u: Update, mesosAgent: string, networks: nat)
    | ScaleRequest(k: Kind, count: int)
    | StopRequest(ds: bool)
    | StartRequest
    | Sweeping
    | CleaningNodes
    | NodeReported(n: Node, at: nat)
    | ClusterChanged(nodes: seq<Node>, up: bool)
    | Resubscribed
    | Crashed

  /** The cache with the node in the place of the one of its name. */
  function Replaced(cache: seq<Node>, n: Node): seq<Node> {
    seq(|cache|, i requires 0 <= i < |cache| => if cache[i].name == n.name then n else cache[i])
  }

  /** The controller caches a node under its name; a new key may land anywhere (`at`) in the iteration order. */
  function CachePut(cache: seq<Node>, n: Node, at: nat): seq<Node> {
    if n.name in Names(cache) then Replaced(cache, n)
    else var q := if at < |cache| then at else |cache|; cache[..q] + [n] + cache[q..]
  }

  /** One step.  The event loop saves the configuration after every update, and resets the locks of the
      heartbeat loop when it subscribes again. */
  ghost function Apply(env: Settings, s: Sys, e: Event): Sys {
    match e
    case Beating(b) => HeartbeatDone(env, s, b)
    case Checking(now) => CheckedFrom(env, s, 0, now)
    case Offered(offers, accepted) => OffersHandled(env, s, offers, accepted)
    case Updated(u, a, n) => SaveConfig(UpdateHandled(s, u, a, n))
    case ScaleRequest(k, count) => ScaledTo(s, k, count)
    case StopRequest(ds) => Stopped(s, ds)
    case StartRequest => StartRequested(s)
    case Sweeping => SweptFrom(s, 0)
    case CleaningNodes => Cleaned(s)
    case NodeReported(n, at) => s.(cache := CachePut(s.cache, n, at))
    case ClusterChanged(nodes, up) => s.(cluster := nodes, kubeUp := up)
    case Resubscribed => SaveConfig(s.(reviveLock := true, suppressLock := false))
    case Crashed => Restarted(s)
  }

  ghost function Run(env: Settings, s: Sys, events: seq<Event>): Sys {
    if |events| == 0 then s
    else Apply(env, Run(env, s, events[..|events| - 1]), events[|events| - 1])
  }

  /** The task IDs generated for an event. */
  function IdsOf(e: Event): set<string> {
    if e.Beating? then {e.b.ids.datastore, e.b.ids.server, e.b.ids.agent} else {}
  }

  function Issued(issued: set<string>, events: seq<Event>): set<string> {
    if |events| == 0 then issued
    else Issued(issued, events[..|events| - 1]) + IdsOf(events[|events| - 1])
  }

  /** Generated IDs are UUIDs: not empty, never used before, and different from each other. */
  ghost predicate FreshIds(issued: set<string>, e: Event) {
    && "" !in IdsOf(e) && IdsOf(e) !! issued
    && (e.Beating? ==> var ids := e.b.ids;
          ids.datastore != ids.server && ids.datastore != ids.agent && ids.server != ids.agent)
  }

  ghost predicate FreshRun(issued: set<string>, events: seq<Event>) {
    |events| > 0 ==>
      && FreshRun(issued, events[..|events| - 1])
      && FreshIds(Issued(issued, events[..|events| - 1]), events[|events| - 1])
  }

  /** The ACCEPT calls, in order. */
  function Accepts(log: seq<Call>): (r: seq<Call>)
    ensures forall c | c in r :: c.Accept?
  {
    if |log| == 0 then []
    else if log[|log| - 1].Accept? then Accepts(log[..|log| - 1]) + [log[|log| - 1]]
    else Accepts(log[..|log| - 1])
  }

  /** The task IDs of the ACCEPT calls, in order. */
  function Launches(log: seq<Call>): seq<string> {
    var calls := Accepts(log);
    seq(|calls|, i requires 0 <= i < |calls| => calls[i].task)
  }

  lemma AcceptsEmit(log: seq<Call>, c: Call)
    ensures Accepts(log + [c]) == if c.Accept? then Accepts(log) + [c] else Accepts(log)
    ensures Launches(log + [c]) == if c.Accept? then Launches(log) + [c.task] else Launches(log)
  {
    assert (log + [c])[..|log|] == log;
  }

  lemma {:induction false} AcceptsOthers(log: seq<Call>, more: seq<Call>)
    requires forall i | 0 <= i < |more| :: !more[i].Accept?
    ensures Accepts(log + more) == Accepts(log)
  {
    if |more| == 0 {
      assert log + more == log;
    } else {
      var front, c := more[..|more| - 1], more[|more| - 1];
      assert log + more == (log + front) + [c];
      AcceptsEmit(log + front, c);
      AcceptsOthers(log, front);
    }
  }
}
