// The whole system told from its events alone: what was sent to each worker, what it received and lived
// through, and what it therefore is.

module ReadOff {
  import opened Prelude
  import opened Protocol
  import opened Ownership
  import opened Fleet

  /**
   * What the events say about one worker: the ids it was spawned with, the commands put into its channel, the list
   * kept for it, and the script of its own events.
   */
  datatype Account = Account(
    initial: Option<seq<TokenId>>,
    sent: seq<Command>,
    listed: seq<TokenId>,
    script: seq<WorkerEvent>)

  function Spawns(events: seq<FleetEvent>): nat {
    if events == [] then 0
    else
      var e := events[|events| - 1];
      Spawns(events[..|events| - 1]) + if e.Supervise? && e.action.Spawn? then 1 else 0
  }

  /** The worker exists, was not shut down, and fewer than 32 commands wait in its channel. */
  ghost predicate HasRoom(a: Account) {
    a.initial.Some? && !IsOver(a.script) && |a.sent| < |Commands(a.script)| + 32
  }

  /** The worker has a connection, and a command waits in its channel. */
  ghost predicate HasNext(a: Account) {
    IsUp(a.script) && !IsOver(a.script) && |Commands(a.script)| < |a.sent|
  }

  /** One more event; `spawns` workers have been spawned before. */
  ghost function OneMore(spawns: nat, a: Account, w: string, e: FleetEvent): Account {
    match e
    case Supervise(Spawn(ids)) => if w == WorkerName(spawns + 1) then Account(Some(ids), [], ids, []) else a
    case Supervise(Give(v, ids)) =>
      if v == w && HasRoom(a) then a.(sent := a.sent + [Subscribe(ids)], listed := a.listed + ids) else a
    case Supervise(Take(v, ids)) =>
      if v == w && HasRoom(a) then a.(sent := a.sent + [Unsubscribe(ids)], listed := RemoveIds(a.listed, ids)) else a
    case SendShutdown(v) => if v == w && HasRoom(a) then a.(sent := a.sent + [Shutdown]) else a
    case Network(v, event) =>
      if v == w && a.initial.Some? && !event.Deliver? then a.(script := a.script + [event]) else a
    case Receive(v, writeOk) =>
      if v == w && HasNext(a) then
        a.(script := a.script + [Deliver(a.sent[|Commands(a.script)|], writeOk)])
      else a
  }

  ghost function AccountOf(events: seq<FleetEvent>, w: string): Account {
    if events == [] then Account(None, [], [], [])
    else OneMore(Spawns(events[..|events| - 1]), AccountOf(events[..|events| - 1], w), w, events[|events| - 1])
  }

  // ---------------------------------------------------------------------------
  // The fleet is what its events say
  // ---------------------------------------------------------------------------

  ghost predicate WorkerFits(h: WorkerHandle, p: Peer, a: Account) {
    && a.initial.Some?
    && h == WorkerHandle(a.initial.value, a.sent, a.listed)
    && p == Peer(RunWorker(Worker(a.initial.value, Disconnected), a.script), |Commands(a.script)|)
    && Commands(a.script) <= a.sent
    && |a.sent| <= |Commands(a.script)| + 32
  }

  ghost predicate Fits(f: FleetValue, w: string, a: Account) {
    if w in f.sup.workers && w in f.peers then WorkerFits(f.sup.workers[w], f.peers[w], a)
    else w !in f.sup.workers && w !in f.peers && a == Account(None, [], [], [])
  }

  /** Which phase the worker is in can be read off its script. */
  lemma PhaseFits(h: WorkerHandle, p: Peer, a: Account)
    requires WorkerFits(h, p, a)
    ensures p.worker.phase.Stopped? <==> IsOver(a.script)
    ensures p.worker.phase.Connected? <==> IsUp(a.script) && !IsOver(a.script)
  {
    ScriptOutcome(a.initial.value, a.script);
  }

  lemma NoScript(a: Account)
    requires a == Account(None, [], [], [])
    ensures !HasNext(a) && !HasRoom(a)
  {
  }

  lemma ScriptMore(h: WorkerHandle, p: Peer, a: Account, event: WorkerEvent)
    requires WorkerFits(h, p, a)
    requires event.Deliver? ==> |Commands(a.script)| < |a.sent| && event.command == a.sent[|Commands(a.script)|]
    ensures WorkerFits(h, Peer(WorkerStep(p.worker, event), p.read + if event.Deliver? then 1 else 0),
      a.(script := a.script + [event]))
  {
    assert (a.script + [event])[..|a.script|] == a.script;
    CommandsStep(a.script, event);
  }

  lemma SentOneMore(h: WorkerHandle, p: Peer, a: Account, command: Command, ids: seq<TokenId>)
    requires WorkerFits(h, p, a) && |a.sent| < |Commands(a.script)| + 32
    ensures WorkerFits(WorkerHandle(h.initial, h.log + [command], ids), p,
      a.(sent := a.sent + [command], listed := ids))
  {
  }

  lemma FreshFits(ids: seq<TokenId>)
    ensures WorkerFits(WorkerHandle(ids, [], ids), Peer(Worker(ids, Disconnected), 0), Account(Some(ids), [], ids, []))
  {
  }

  lemma NextFits(f: FleetValue, w: string, a: Account, e: FleetEvent)
    requires Fits(f, w, a)
    ensures Fits(Next(f, e), w, OneMore(f.sup.counter, a, w, e))
  {
    if w in f.sup.workers && w in f.peers {
      PhaseFits(f.sup.workers[w], f.peers[w], a);
    } else {
      NoScript(a);
    }
    match e {
      case Supervise(Spawn(ids)) => FreshFits(ids);
      case Supervise(Give(v, ids)) =>
        if v == w && HasRoom(a) {
          SentOneMore(f.sup.workers[w], f.peers[w], a, Subscribe(ids), a.listed + ids);
        }
      case Supervise(Take(v, ids)) =>
        if v == w && HasRoom(a) {
          SentOneMore(f.sup.workers[w], f.peers[w], a, Unsubscribe(ids), RemoveIds(a.listed, ids));
        }
      case SendShutdown(v) =>
        if v == w && HasRoom(a) {
          SentOneMore(f.sup.workers[w], f.peers[w], a, Shutdown, a.listed);
        }
      case Network(v, event) =>
        if v == w && a.initial.Some? && !event.Deliver? {
          ScriptMore(f.sup.workers[w], f.peers[w], a, event);
        }
      case Receive(v, writeOk) =>
        if v == w && HasNext(a) {
          ScriptMore(f.sup.workers[w], f.peers[w], a, Deliver(a.sent[|Commands(a.script)|], writeOk));
        }
    }
  }

  lemma {:induction false} CounterCounts(events: seq<FleetEvent>)
    ensures RunFleet(events).sup.counter == Spawns(events)
  {
    if events != [] {
      CounterCounts(events[..|events| - 1]);
    }
  }

  lemma {:induction false} FleetFits(events: seq<FleetEvent>, w: string)
    ensures Fits(RunFleet(events), w, AccountOf(events, w))
  {
    if events != [] {
      var front := events[..|events| - 1];
      FleetFits(front, w);
      CounterCounts(front);
      NextFits(RunFleet(front), w, AccountOf(front, w), events[|events| - 1]);
    }
  }

  /**
   * From the events alone: which workers exist, what is in their channels and how much of it they have consumed,
   * what the supervisor lists for them, what ids they hold, whether they are connected, and what they have sent on
   * the connection they have. No channel ever holds more than 32 commands.
   */
  lemma FleetReadOff(events: seq<FleetEvent>, w: string)
    ensures var f, a := RunFleet(events), AccountOf(events, w);
      && (w in f.sup.workers <==> a.initial.Some?) && (w in f.peers <==> a.initial.Some?)
      && (a.initial.Some? ==>
           && f.sup.workers[w] == WorkerHandle(a.initial.value, a.sent, a.listed)
           && f.peers[w].read == |Commands(a.script)| && Commands(a.script) <= a.sent
           && |a.sent| <= f.peers[w].read + 32
           && IsOutcome(a.initial.value, a.script, f.peers[w].worker))
  {
    FleetFits(events, w);
    var a := AccountOf(events, w);
    if a.initial.Some? {
      ScriptOutcome(a.initial.value, a.script);
    }
  }
}
