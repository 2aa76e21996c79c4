// The supervisor and its workers as one system: supervisor actions, channel deliveries, connects,
// disconnects and write failures interleave in any order.

module Fleet {
  import opened Prelude
  import opened Protocol
  import opened Ownership

  /** How many commands a channel holds before a send has to wait. */
  const CHANNEL_CAPACITY := 32

  /** A running worker and how much of its command log it has consumed. */
  datatype Peer = Peer(worker: Worker, read: nat)

  datatype FleetValue = FleetValue(sup: SupervisorValue, peers: map<string, Peer>)

  const EMPTY_FLEET := FleetValue(SupervisorValue(map[], 0, map[]), map[])

  datatype FleetEvent =
    | Supervise(action: Action)
    | SendShutdown(to: string)
    | Network(at: string, event: WorkerEvent)
    | Receive(reader: string, writeOk: bool)

  function Pending(f: FleetValue, w: string): seq<Command>
    requires w in f.sup.workers && w in f.peers && f.peers[w].read <= |f.sup.workers[w].log|
  {
    f.sup.workers[w].log[f.peers[w].read..]
  }

  /** A send goes through when the receiver still runs and the channel has room. */
  predicate Accepts(f: FleetValue, w: string) {
    && w in f.sup.workers && w in f.peers
    && !f.peers[w].worker.phase.Stopped?
    && |f.sup.workers[w].log| < f.peers[w].read + CHANNEL_CAPACITY
  }

  /** Events that cannot happen in a state leave it alone. */
  function Next(f: FleetValue, e: FleetEvent): FleetValue {
    match e
    case Supervise(Give(w, ids)) => if Accepts(f, w) then f.(sup := Act(f.sup, Give(w, ids))) else f
    case Supervise(Take(w, ids)) => if Accepts(f, w) then f.(sup := Act(f.sup, Take(w, ids))) else f
    case Supervise(Spawn(ids)) =>
      FleetValue(Act(f.sup, Spawn(ids)),
        f.peers[WorkerName(f.sup.counter + 1) := Peer(Worker(ids, Disconnected), 0)])
    case SendShutdown(w) =>
      if Accepts(f, w) then
        var h := f.sup.workers[w];
        f.(sup := f.sup.(workers := f.sup.workers[w := h.(log := h.log + [Shutdown])]))
      else f
    case Network(w, event) =>
      if w in f.peers && !event.Deliver?
      then f.(peers := f.peers[w := f.peers[w].(worker := WorkerStep(f.peers[w].worker, event))])
      else f
    case Receive(w, writeOk) =>
      if w in f.peers && w in f.sup.workers && f.peers[w].worker.phase.Connected?
         && f.peers[w].read < |f.sup.workers[w].log|
      then
        var command := f.sup.workers[w].log[f.peers[w].read];
        f.(peers := f.peers[w :=
          Peer(WorkerStep(f.peers[w].worker, Deliver(command, writeOk)), f.peers[w].read + 1)])
      else f
  }

  function RunFleet(events: seq<FleetEvent>): FleetValue {
    if events == [] then EMPTY_FLEET
    else Next(RunFleet(events[..|events| - 1]), events[|events| - 1])
  }

  // ---------------------------------------------------------------------------
  // The invariant
  // ---------------------------------------------------------------------------

  /** The whole log, obeyed from the first ids on, gives the ids the supervisor believes in. */
  ghost predicate LogAgrees(h: WorkerHandle) {
    SetOf(Replay(h.initial, h.log)) == SetOf(h.ids)
  }

  /** The worker has obeyed exactly the consumed part of the log, and its connection covers its ids. */
  ghost predicate PeerAgrees(h: WorkerHandle, p: Peer) {
    && p.read <= |h.log|
    && p.worker.ids == Replay(h.initial, h.log[..p.read])
    && ConnectionCovers(p.worker)
  }

  ghost predicate FleetInvariant(f: FleetValue) {
    && f.sup.workers.Keys == f.peers.Keys
    && NamesCounted(f.sup)
    && (forall w :: w in f.peers ==> LogAgrees(f.sup.workers[w]))
    && (forall w :: w in f.peers ==> PeerAgrees(f.sup.workers[w], f.peers[w]))
  }

  lemma MoreLogKeepsPeer(h: WorkerHandle, p: Peer, command: Command, ids: seq<TokenId>)
    requires PeerAgrees(h, p)
    ensures PeerAgrees(WorkerHandle(h.initial, h.log + [command], ids), p)
  {
    assert (h.log + [command])[..p.read] == h.log[..p.read];
  }

  lemma MoreLogAgrees(h: WorkerHandle, command: Command, ids: seq<TokenId>)
    requires LogAgrees(h)
    requires SetOf(ids) == SetOf(Obey(h.ids, command))
    ensures LogAgrees(WorkerHandle(h.initial, h.log + [command], ids))
  {
    assert (h.log + [command])[..|h.log|] == h.log;
    ObeySet(Replay(h.initial, h.log), command);
    ObeySet(h.ids, command);
  }

  lemma DeliverKeepsPeer(h: WorkerHandle, p: Peer, writeOk: bool)
    requires PeerAgrees(h, p) && p.worker.phase.Connected? && p.read < |h.log|
    ensures PeerAgrees(h, Peer(WorkerStep(p.worker, Deliver(h.log[p.read], writeOk)), p.read + 1))
  {
    assert h.log[..p.read + 1][..p.read] == h.log[..p.read];
    WorkerStepCovers(p.worker, Deliver(h.log[p.read], writeOk));
  }

  /** The handle a send leaves behind still agrees with the log and with the worker. */
  lemma SendAgrees(f: FleetValue, w: string, after: FleetValue, command: Command, ids: seq<TokenId>)
    requires FleetInvariant(f) && w in f.peers
    requires SetOf(ids) == SetOf(Obey(f.sup.workers[w].ids, command))
    requires after.peers == f.peers && after.sup.counter == f.sup.counter
    requires after.sup.workers ==
      f.sup.workers[w := WorkerHandle(f.sup.workers[w].initial, f.sup.workers[w].log + [command], ids)]
    ensures FleetInvariant(after)
  {
    MoreLogAgrees(f.sup.workers[w], command, ids);
    MoreLogKeepsPeer(f.sup.workers[w], f.peers[w], command, ids);
  }

  lemma SpawnAgrees(f: FleetValue, ids: seq<TokenId>)
    requires FleetInvariant(f)
    ensures FleetInvariant(Next(f, Supervise(Spawn(ids))))
  {
    ActKeepsNames(f.sup, Spawn(ids));
    NextNameIsFree(f.sup);
  }

  lemma GiveAgrees(f: FleetValue, w: string, ids: seq<TokenId>)
    requires FleetInvariant(f)
    ensures FleetInvariant(Next(f, Supervise(Give(w, ids))))
  {
    if Accepts(f, w) {
      AddIdsSet(f.sup.workers[w].ids, ids);
      SetOfAppend(f.sup.workers[w].ids, ids);
      SendAgrees(f, w, Next(f, Supervise(Give(w, ids))), Subscribe(ids), f.sup.workers[w].ids + ids);
    }
  }

  lemma TakeAgrees(f: FleetValue, w: string, ids: seq<TokenId>)
    requires FleetInvariant(f)
    ensures FleetInvariant(Next(f, Supervise(Take(w, ids))))
  {
    if Accepts(f, w) {
      SendAgrees(f, w, Next(f, Supervise(Take(w, ids))), Unsubscribe(ids), RemoveIds(f.sup.workers[w].ids, ids));
    }
  }

  lemma PeerMoves(f: FleetValue, w: string, peer: Peer)
    requires FleetInvariant(f) && w in f.peers && PeerAgrees(f.sup.workers[w], peer)
    ensures FleetInvariant(f.(peers := f.peers[w := peer]))
  {
  }

  lemma NextKeepsInvariant(f: FleetValue, e: FleetEvent)
    requires FleetInvariant(f)
    ensures FleetInvariant(Next(f, e))
  {
    match e {
      case Supervise(Give(w, ids)) => GiveAgrees(f, w, ids);
      case Supervise(Take(w, ids)) => TakeAgrees(f, w, ids);
      case Supervise(Spawn(ids)) => SpawnAgrees(f, ids);
      case SendShutdown(w) =>
        if Accepts(f, w) {
          SendAgrees(f, w, Next(f, e), Shutdown, f.sup.workers[w].ids);
        }
      case Network(w, event) =>
        if w in f.peers && !event.Deliver? {
          WorkerStepCovers(f.peers[w].worker, event);
          PeerMoves(f, w, f.peers[w].(worker := WorkerStep(f.peers[w].worker, event)));
        }
      case Receive(w, writeOk) =>
        if Next(f, e) != f {
          DeliverKeepsPeer(f.sup.workers[w], f.peers[w], writeOk);
          PeerMoves(f, w, Next(f, e).peers[w]);
        }
    }
  }

  lemma {:induction false} FleetAlwaysAgrees(events: seq<FleetEvent>)
    ensures FleetInvariant(RunFleet(events))
  {
    if events != [] {
      FleetAlwaysAgrees(events[..|events| - 1]);
      NextKeepsInvariant(RunFleet(events[..|events| - 1]), events[|events| - 1]);
    }
  }

  // ---------------------------------------------------------------------------
  // End to end
  // ---------------------------------------------------------------------------

  /** Obeying what is pending completes the log. */
  lemma DrainedPeer(h: WorkerHandle, p: Peer)
    requires PeerAgrees(h, p)
    ensures Replay(p.worker.ids, h.log[p.read..]) == Replay(h.initial, h.log)
  {
    ReplayInParts(h.initial, h.log[..p.read], h.log[p.read..]);
    assert h.log[..p.read] + h.log[p.read..] == h.log;
  }

  /** What was sent on a live connection and what is pending amount to what the worker will have. */
  lemma DrainedConnection(worker: Worker, pending: seq<Command>)
    requires ConnectionCovers(worker) && worker.phase.Connected?
    ensures SetOf(Replay([], worker.phase.sent + pending)) == SetOf(Replay(worker.ids, pending))
  {
    ReplayInParts([], worker.phase.sent, pending);
    ReplaySet(Replay([], worker.phase.sent), worker.ids, pending);
  }

  /**
   * In every reachable state, for every worker: once it has obeyed what is still in its channel, it has the
   * ids the supervisor lists for it; and if it is connected, what was sent on this connection together with
   * what is pending amounts to the same ids, however often the connection was lost before.
   */
  lemma EndToEndAgreement(events: seq<FleetEvent>, w: string)
    requires w in RunFleet(events).sup.workers
    ensures var f := RunFleet(events);
      && w in f.peers && f.peers[w].read <= |f.sup.workers[w].log|
      && SetOf(Replay(f.peers[w].worker.ids, Pending(f, w))) == SetOf(f.sup.workers[w].ids)
      && (f.peers[w].worker.phase.Connected? ==>
           SetOf(Replay([], f.peers[w].worker.phase.sent + Pending(f, w))) == SetOf(f.sup.workers[w].ids))
  {
    FleetAlwaysAgrees(events);
    var f := RunFleet(events);
    var h, p := f.sup.workers[w], f.peers[w];
    assert PeerAgrees(h, p) && LogAgrees(h);
    DrainedPeer(h, p);
    if p.worker.phase.Connected? {
      DrainedConnection(p.worker, Pending(f, w));
    }
  }

  /** At every moment of a live connection each id of the worker has been named in a subscription on it. */
  lemma LiveConnectionNamesAll(events: seq<FleetEvent>, w: string)
    requires w in RunFleet(events).peers && RunFleet(events).peers[w].worker.phase.Connected?
    ensures var worker := RunFleet(events).peers[w].worker; SetOf(worker.ids) <= Named(worker.phase.sent)
  {
    FleetAlwaysAgrees(events);
    ReplayedIdsWereSent(RunFleet(events).peers[w].worker.phase.sent);
  }

  /** A connected worker with an empty channel has subscribed, on this connection, to all the supervisor counts. */
  lemma DrainedAndConnected(events: seq<FleetEvent>, w: string)
    requires w in RunFleet(events).sup.workers && w in RunFleet(events).peers
    requires RunFleet(events).peers[w].worker.phase.Connected?
    requires RunFleet(events).peers[w].read == |RunFleet(events).sup.workers[w].log|
    ensures SetOf(RunFleet(events).sup.workers[w].ids) <= Named(RunFleet(events).peers[w].worker.phase.sent)
  {
    EndToEndAgreement(events, w);
    LiveConnectionNamesAll(events, w);
  }

  // ---------------------------------------------------------------------------
  // Agreement as sequences
  // ---------------------------------------------------------------------------

  /** The worker's list will be the supervisor's list, in the same order. */
  ghost predicate InOrder(h: WorkerHandle) {
    Replay(h.initial, h.log) == h.ids
  }

  /** Giving keeps the lists equal as sequences exactly when the ids are distinct and not on the list. */
  lemma GiveKeepsOrderIff(h: WorkerHandle, ids: seq<TokenId>)
    requires InOrder(h)
    ensures InOrder(WorkerHandle(h.initial, h.log + [Subscribe(ids)], h.ids + ids))
      <==> NoDuplicates(ids) && SetOf(h.ids) !! SetOf(ids)
  {
    assert (h.log + [Subscribe(ids)])[..|h.log|] == h.log;
    AppendAgreesIffFresh(h.ids, ids);
  }

  lemma TakeKeepsOrder(h: WorkerHandle, ids: seq<TokenId>)
    requires InOrder(h)
    ensures InOrder(WorkerHandle(h.initial, h.log + [Unsubscribe(ids)], RemoveIds(h.ids, ids)))
  {
    assert (h.log + [Unsubscribe(ids)])[..|h.log|] == h.log;
  }

  /** The give hands out distinct ids its worker does not have. */
  ghost predicate FreshGive(s: SupervisorValue, action: Action)
    requires action.Give?
  {
    && NoDuplicates(action.ids)
    && (action.worker in s.workers ==> SetOf(s.workers[action.worker].ids) !! SetOf(action.ids))
  }

  lemma NextKeepsOrder(f: FleetValue, e: FleetEvent)
    requires forall w :: w in f.sup.workers ==> InOrder(f.sup.workers[w])
    requires e.Supervise? && e.action.Give? ==> FreshGive(f.sup, e.action)
    ensures forall w :: w in Next(f, e).sup.workers ==> InOrder(Next(f, e).sup.workers[w])
  {
    match e {
      case Supervise(Give(w, ids)) => if Accepts(f, w) { GiveKeepsOrderIff(f.sup.workers[w], ids); }
      case Supervise(Take(w, ids)) => if Accepts(f, w) { TakeKeepsOrder(f.sup.workers[w], ids); }
      case SendShutdown(w) =>
        if Accepts(f, w) {
          var log := f.sup.workers[w].log;
          assert (log + [Shutdown])[..|log|] == log;
        }
      case _ =>
    }
  }

  lemma {:induction false} HandedContains(gives: seq<Action>, i: nat)
    requires i < |gives|
    ensures multiset(gives[i].ids) <= multiset(Handed(gives))
  {
    if i < |gives| - 1 {
      HandedContains(gives[..|gives| - 1], i);
    }
  }

  /** The supervisor's own allocations give fresh ids whenever the new ids of the request are distinct. */
  lemma AllocationsAreFresh(
    s: SupervisorValue, ids: seq<TokenId>, max: nat, alive: string -> bool, gives: seq<Action>, spawns: seq<Action>,
    i: nat)
    requires Allocates(s, NewIds(s.workers, ids), max, alive, gives, spawns)
    requires NoDuplicates(NewIds(s.workers, ids)) && i < |gives|
    ensures FreshGive(RunActions(s, gives[..i]), gives[i])
  {
    var added, give := NewIds(s.workers, ids), gives[i];
    HandedContains(gives, i);
    NoDuplicatesByCount(added);
    NoDuplicatesByCount(give.ids);
    assert forall id :: multiset(give.ids)[id] <= multiset(added)[id] <= 1;
    GivesKeepOthers(s, gives[..i], give.worker);
    forall id | id in SetOf(give.ids)
      ensures id !in s.workers[give.worker].ids
    {
      assert id in multiset(give.ids) && id in multiset(added);
      NewIdsAreNew(s.workers, ids, id);
    }
  }
}
