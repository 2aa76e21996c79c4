// The worker side in place: the handler that keeps the subscribed ids, and the manager that connects,
// obeys commands and reconnects. The network is a script of events.

module Workers {
  import opened Prelude
  import opened Protocol

  /** What an optional message puts on a connection. */
  function Messages(message: Option<Command>): seq<Command> {
    match message
    case None => []
    case Some(command) => [command]
  }

  class PolymarketHandler {
    var subscribedIds: seq<TokenId>

    constructor (initialIds: seq<TokenId>)
      ensures subscribedIds == initialIds
    {
      subscribedIds := initialIds;
    }

    method AddSubscriptions(ids: seq<TokenId>)
      modifies this
      ensures subscribedIds == AddIds(old(subscribedIds), ids)
    {
      for i := 0 to |ids|
        invariant subscribedIds == AddIds(old(subscribedIds), ids[..i])
      {
        assert ids[..i + 1][..i] == ids[..i];
        if ids[i] !in subscribedIds {
          subscribedIds := subscribedIds + [ids[i]];
        }
      }
      assert ids[..|ids|] == ids;
    }

    method RemoveSubscriptions(ids: seq<TokenId>)
      modifies this
      ensures subscribedIds == RemoveIds(old(subscribedIds), ids)
    {
      var kept := [];
      for i := 0 to |subscribedIds|
        invariant subscribedIds == old(subscribedIds)
        invariant kept == RemoveIds(subscribedIds[..i], ids)
      {
        assert subscribedIds[..i + 1][..i] == subscribedIds[..i];
        if subscribedIds[i] !in ids {
          kept := kept + [subscribedIds[i]];
        }
      }
      assert subscribedIds[..|subscribedIds|] == subscribedIds;
      subscribedIds := kept;
    }

    /** Obeys a command and returns the message to send, if any. */
    method HandleCommand(command: Command) returns (message: Option<Command>)
      modifies this
      ensures subscribedIds == Obey(old(subscribedIds), command)
      ensures message == if command.Shutdown? then None else Some(command)
    {
      match command {
        case Subscribe(ids) =>
          AddSubscriptions(ids);
          return Some(command);
        case Unsubscribe(ids) =>
          RemoveSubscriptions(ids);
          return Some(command);
        case Shutdown =>
          return None;
      }
    }

    /** The message that subscribes a fresh connection to all current ids, if there are any. */
    method OnConnectMessage() returns (message: Option<Command>)
      ensures Messages(message) == ConnectMessages(subscribedIds)
      ensures SetOf(Replay([], Messages(message))) == SetOf(subscribedIds)
    {
      ConnectSendsAll(subscribedIds);
      if subscribedIds == [] {
        return None;
      }
      return Some(Subscribe(subscribedIds));
    }
  }

  lemma OneMoreEvent(worker: Worker, events: seq<WorkerEvent>, event: WorkerEvent)
    ensures RunWorker(worker, events + [event]) == WorkerStep(RunWorker(worker, events), event)
  {
    assert (events + [event])[..|events|] == events;
  }

  lemma OneEvent(worker: Worker, event: WorkerEvent)
    ensures RunWorker(worker, [event]) == WorkerStep(worker, event)
  {
    assert [event][..0] == [];
  }

  lemma {:induction false} RunWorkerInParts(worker: Worker, first: seq<WorkerEvent>, second: seq<WorkerEvent>)
    ensures RunWorker(worker, first + second) == RunWorker(RunWorker(worker, first), second)
  {
    if second == [] {
      assert first + second == first;
    } else {
      assert (first + second)[..|first + second| - 1] == first + second[..|second| - 1];
      RunWorkerInParts(worker, first, second[..|second| - 1]);
    }
  }

  lemma {:induction false} RunKeepsCovering(worker: Worker, events: seq<WorkerEvent>)
    requires ConnectionCovers(worker)
    ensures ConnectionCovers(RunWorker(worker, events))
  {
    if events != [] {
      RunKeepsCovering(worker, events[..|events| - 1]);
      WorkerStepCovers(RunWorker(worker, events[..|events| - 1]), events[|events| - 1]);
    }
  }

  /** A worker that was stopped has obeyed what came before and obeys nothing more. */
  lemma {:induction false} StoppedStaysStopped(worker: Worker, events: seq<WorkerEvent>)
    requires worker.phase.Stopped?
    ensures RunWorker(worker, events) == worker
  {
    if events != [] {
      StoppedStaysStopped(worker, events[..|events| - 1]);
    }
  }

  /** None of these events ends a connection. */
  predicate KeepAll(script: seq<WorkerEvent>, from: nat, to: nat)
    requires to <= |script|
  {
    forall j :: from <= j < to ==> Keeps(script[j])
  }

  class WsManager {
    const handler: PolymarketHandler
    var phase: Phase

    function Value(): Worker
      reads this, handler
    {
      Worker(handler.subscribedIds, phase)
    }

    constructor (handler: PolymarketHandler)
      ensures this.handler == handler && phase == Disconnected
    {
      this.handler, phase := handler, Disconnected;
    }

    /**
     * Reconnects after every failure until it is shut down or the script of events ends: nothing of the script is
     * lost, and what was sent on a live connection amounts to the ids.
     */
    method Run(script: seq<WorkerEvent>) returns (consumed: nat)
      requires phase.Disconnected?
      modifies this, handler
      ensures consumed <= |script| && (phase.Stopped? || consumed == |script|)
      ensures Value() == RunWorker(old(Value()), script)
      ensures IsOutcome(old(handler.subscribedIds), script, Value()) && ConnectionCovers(Value())
    {
      consumed := 0;
      var shutdown := false;
      while !shutdown && consumed < |script|
        invariant consumed <= |script|
        invariant Value() == RunWorker(old(Value()), script[..consumed])
        invariant if shutdown then phase.Stopped? else phase.Disconnected? || consumed == |script|
        decreases |script| - consumed, !shutdown
      {
        ghost var before := consumed;
        consumed, shutdown := ConnectAndRunLoop(script, consumed);
        RunWorkerInParts(old(Value()), script[..before], script[before..consumed]);
        assert script[..consumed] == script[..before] + script[before..consumed];
      }
      RunWorkerInParts(old(Value()), script[..consumed], script[consumed..]);
      assert script == script[..consumed] + script[consumed..];
      if phase.Stopped? {
        StoppedStaysStopped(Value(), script[consumed..]);
      }
      RunKeepsCovering(old(Value()), script);
      ScriptOutcome(old(handler.subscribedIds), script);
    }

    /** One connection attempt and, if it succeeds, the command loop until the connection or the worker ends. */
    method ConnectAndRunLoop(script: seq<WorkerEvent>, start: nat) returns (next: nat, shutdown: bool)
      requires phase.Disconnected? && start < |script|
      modifies this, handler
      ensures start < next <= |script|
      ensures Value() == RunWorker(old(Value()), script[start..next])
      ensures !script[start].ConnectOk? ==> next == start + 1 && phase.Disconnected?
      ensures script[start].ConnectOk? ==>
        if phase.Connected? then next == |script| && KeepAll(script, start + 1, next)
        else start + 1 < next && KeepAll(script, start + 1, next - 1) && !Keeps(script[next - 1])
      ensures if shutdown then phase.Stopped? else phase.Disconnected? || next == |script|
    {
      next := start + 1;
      assert script[start..next] == [script[start]];
      OneEvent(Value(), script[start]);
      if !script[start].ConnectOk? {
        return next, false;
      }
      var hello := handler.OnConnectMessage();
      phase := Connected(Messages(hello));
      next, shutdown := RunLoop(script, start + 1);
      RunWorkerInParts(old(Value()), script[start..start + 1], script[start + 1..next]);
      assert script[start..next] == script[start..start + 1] + script[start + 1..next];
    }

    /** The command loop of one connection. */
    method RunLoop(script: seq<WorkerEvent>, from: nat) returns (next: nat, shutdown: bool)
      requires phase.Connected? && from <= |script|
      modifies this, handler
      ensures from <= next <= |script|
      ensures Value() == RunWorker(old(Value()), script[from..next])
      ensures if phase.Connected? then next == |script| && KeepAll(script, from, next)
              else from < next && KeepAll(script, from, next - 1) && !Keeps(script[next - 1])
      ensures if shutdown then phase.Stopped? else phase.Disconnected? || next == |script|
    {
      next := from;
      while next < |script|
        invariant from <= next <= |script| && phase.Connected?
        invariant Value() == RunWorker(old(Value()), script[from..next])
        invariant KeepAll(script, from, next)
      {
        var event := script[next];
        assert script[from..next + 1] == script[from..next] + [event];
        OneMoreEvent(old(Value()), script[from..next], event);
        next := next + 1;
        match event {
          case Lost =>
            phase := Disconnected;
            return next, false;
          case Deliver(command, writeOk) =>
            if command.Shutdown? {
              phase := Stopped;
              return next, true;
            }
            var message := handler.HandleCommand(command);
            if !writeOk {
              phase := Disconnected;
              return next, false;
            }
            phase := Connected(phase.sent + [message.value]);
          case _ =>
        }
      }
      return next, false;
    }
  }
}
