// The subscription protocol between the supervisor and its workers, as values: commands travel over a
// per-worker channel, workers obey them in order, and connections come and go at any time.

module Protocol {
  import opened Prelude

  type TokenId = string

  datatype Command = Subscribe(ids: seq<TokenId>) | Unsubscribe(ids: seq<TokenId>) | Shutdown

  // ---------------------------------------------------------------------------
  // What a worker does with a command
  // ---------------------------------------------------------------------------

  /** Appends the ids that are not in the list yet. */
  function AddIds(list: seq<TokenId>, ids: seq<TokenId>): seq<TokenId> {
    if ids == [] then list
    else
      var before := AddIds(list, ids[..|ids| - 1]);
      if ids[|ids| - 1] in before then before else before + [ids[|ids| - 1]]
  }

  /** Keeps the ids that are not to be removed, in order. */
  function RemoveIds(list: seq<TokenId>, gone: seq<TokenId>): seq<TokenId> {
    if list == [] then []
    else RemoveIds(list[..|list| - 1], gone) + if list[|list| - 1] in gone then [] else [list[|list| - 1]]
  }

  function Obey(list: seq<TokenId>, command: Command): seq<TokenId> {
    match command
    case Subscribe(ids) => AddIds(list, ids)
    case Unsubscribe(ids) => RemoveIds(list, ids)
    case Shutdown => list
  }

  function Replay(list: seq<TokenId>, commands: seq<Command>): seq<TokenId> {
    if commands == [] then list
    else Obey(Replay(list, commands[..|commands| - 1]), commands[|commands| - 1])
  }

  lemma {:induction false} ReplayInParts(list: seq<TokenId>, first: seq<Command>, second: seq<Command>)
    ensures Replay(list, first + second) == Replay(Replay(list, first), second)
  {
    if second == [] {
      assert first + second == first;
    } else {
      assert (first + second)[..|first + second| - 1] == first + second[..|second| - 1];
      ReplayInParts(list, first, second[..|second| - 1]);
    }
  }

  lemma {:induction false} AddIdsSet(list: seq<TokenId>, ids: seq<TokenId>)
    ensures SetOf(AddIds(list, ids)) == SetOf(list) + SetOf(ids)
  {
    if ids != [] {
      var front, last := ids[..|ids| - 1], ids[|ids| - 1];
      AddIdsSet(list, front);
      assert ids == front + [last];
      SetOfAppend(front, [last]);
      SetOfAppend(AddIds(list, front), [last]);
    }
  }

  lemma {:induction false} RemoveIdsSet(list: seq<TokenId>, gone: seq<TokenId>)
    ensures SetOf(RemoveIds(list, gone)) == SetOf(list) - SetOf(gone)
  {
    if list != [] {
      var front, last := list[..|list| - 1], list[|list| - 1];
      RemoveIdsSet(front, gone);
      assert list == front + [last];
      SetOfAppend(front, [last]);
      SetOfAppend(RemoveIds(front, gone), if last in gone then [] else [last]);
    }
  }

  /** What is left of a list in two parts is what is left of the first, then of the second. */
  lemma {:induction false} RemoveIdsInParts(first: seq<TokenId>, second: seq<TokenId>, gone: seq<TokenId>)
    ensures RemoveIds(first + second, gone) == RemoveIds(first, gone) + RemoveIds(second, gone)
  {
    if second == [] {
      assert first + second == first;
    } else {
      var front := second[..|second| - 1];
      assert (first + second)[..|first + second| - 1] == first + front;
      RemoveIdsInParts(first, front, gone);
    }
  }

  /** Ids are added one after the other. */
  lemma {:induction false} AddIdsInParts(list: seq<TokenId>, first: seq<TokenId>, second: seq<TokenId>)
    ensures AddIds(list, first + second) == AddIds(AddIds(list, first), second)
  {
    if second == [] {
      assert first + second == first;
    } else {
      var front := second[..|second| - 1];
      assert (first + second)[..|first + second| - 1] == first + front;
      AddIdsInParts(list, first, front);
    }
  }

  /** One id is added at the end unless it is there; one id is left unless it is to go. */
  lemma OneId(list: seq<TokenId>, id: TokenId)
    ensures AddIds(list, [id]) == if id in list then list else list + [id]
    ensures RemoveIds([id], list) == if id in list then [] else [id]
  {
    assert [id][..0] == [];
  }

  /** Obeying depends, as far as membership goes, on membership alone. */
  lemma ObeySet(list: seq<TokenId>, command: Command)
    ensures SetOf(Obey(list, command)) == match command
      case Subscribe(ids) => SetOf(list) + SetOf(ids)
      case Unsubscribe(ids) => SetOf(list) - SetOf(ids)
      case Shutdown => SetOf(list)
  {
    match command {
      case Subscribe(ids) => AddIdsSet(list, ids);
      case Unsubscribe(ids) => RemoveIdsSet(list, ids);
      case Shutdown =>
    }
  }

  lemma {:induction false} ReplaySet(a: seq<TokenId>, b: seq<TokenId>, commands: seq<Command>)
    requires SetOf(a) == SetOf(b)
    ensures SetOf(Replay(a, commands)) == SetOf(Replay(b, commands))
  {
    if commands != [] {
      var front, last := commands[..|commands| - 1], commands[|commands| - 1];
      ReplaySet(a, b, front);
      ObeySet(Replay(a, front), last);
      ObeySet(Replay(b, front), last);
    }
  }

  lemma SnocAgrees(a: seq<TokenId>, b: seq<TokenId>, x: TokenId)
    ensures a + [x] == b + [x] <==> a == b
  {
    assert (a + [x])[..|a|] == a && (b + [x])[..|b|] == b;
  }

  lemma SnocDistinct(front: seq<TokenId>, x: TokenId)
    ensures NoDuplicates(front + [x]) <==> NoDuplicates(front) && x !in front
  {
    var all := front + [x];
    if NoDuplicates(all) {
      assert forall i :: 0 <= i < |front| ==> all[i] == front[i] && all[i] != all[|front|];
    }
  }

  /**
   * The supervisor appends blindly where the worker skips what it has: the two lists stay equal exactly
   * when the new ids are distinct and not in the list.
   */
  lemma {:induction false} AppendAgreesIffFresh(list: seq<TokenId>, ids: seq<TokenId>)
    ensures AddIds(list, ids) == list + ids <==> NoDuplicates(ids) && SetOf(list) !! SetOf(ids)
    ensures |AddIds(list, ids)| <= |list| + |ids|
  {
    if ids == [] {
      assert list + ids == list;
    } else {
      var front, last := ids[..|ids| - 1], ids[|ids| - 1];
      var before := AddIds(list, front);
      AppendAgreesIffFresh(list, front);
      assert last in before <==> last in list || last in front by {
        AddIdsSet(list, front);
        assert last in before <==> last in SetOf(before);
      }
      assert SetOf(ids) == SetOf(front) + {last} && NoDuplicates(ids) == (NoDuplicates(front) && last !in front) by {
        assert ids == front + [last];
        SetOfAppend(front, [last]);
        SnocDistinct(front, last);
      }
      if last in before {
        assert |AddIds(list, ids)| < |list + ids|;
      } else {
        assert list + ids == (list + front) + [last];
        SnocAgrees(before, list + front, last);
      }
    }
  }

  // ---------------------------------------------------------------------------
  // One worker and its connection
  // ---------------------------------------------------------------------------

  /** `sent` is what has been sent on the current connection, in order. */
  datatype Phase = Disconnected | Connected(sent: seq<Command>) | Stopped

  datatype Worker = Worker(ids: seq<TokenId>, phase: Phase)

  /**
   * What the network and the channel do to a worker: an attempt to connect succeeds or fails, a connection
   * is lost, or a command arrives and the message it calls for is written or the write fails.
   */
  datatype WorkerEvent = ConnectOk | ConnectFailed | Lost | Deliver(command: Command, writeOk: bool)

  /** The message sent right after connecting: all current ids, or nothing when there are none. */
  function ConnectMessages(ids: seq<TokenId>): seq<Command> {
    if ids == [] then [] else [Subscribe(ids)]
  }

  /**
   * On a fresh connection this message subscribes to exactly the worker's ids, and to the same list in the same
   * order unless an id is on it twice.
   */
  lemma ConnectSendsAll(ids: seq<TokenId>)
    ensures SetOf(Replay([], ConnectMessages(ids))) == SetOf(ids)
    ensures Replay([], ConnectMessages(ids)) == ids <==> NoDuplicates(ids)
  {
    if ids != [] {
      assert [Subscribe(ids)][..0] == [];
      assert Replay([], [Subscribe(ids)]) == AddIds([], ids);
      AddIdsSet([], ids);
      AppendAgreesIffFresh([], ids);
      assert [] + ids == ids;
    }
  }

  /** Events that do not apply in a phase leave the worker alone. */
  function WorkerStep(worker: Worker, event: WorkerEvent): Worker {
    match event
    case ConnectOk =>
      if worker.phase.Disconnected? then worker.(phase := Connected(ConnectMessages(worker.ids))) else worker
    case ConnectFailed => worker
    case Lost => if worker.phase.Connected? then worker.(phase := Disconnected) else worker
    case Deliver(command, writeOk) =>
      if !worker.phase.Connected? then worker
      else if command.Shutdown? then worker.(phase := Stopped)
      else
        Worker(Obey(worker.ids, command), if writeOk then Connected(worker.phase.sent + [command]) else Disconnected)
  }

  function RunWorker(worker: Worker, events: seq<WorkerEvent>): Worker {
    if events == [] then worker
    else WorkerStep(RunWorker(worker, events[..|events| - 1]), events[|events| - 1])
  }

  /** What was sent on a live connection amounts to the ids the worker has. */
  ghost predicate ConnectionCovers(worker: Worker) {
    worker.phase.Connected? ==> SetOf(Replay([], worker.phase.sent)) == SetOf(worker.ids)
  }

  lemma WorkerStepCovers(worker: Worker, event: WorkerEvent)
    requires ConnectionCovers(worker)
    ensures ConnectionCovers(WorkerStep(worker, event))
  {
    if event.ConnectOk? && worker.phase.Disconnected? {
      ConnectSendsAll(worker.ids);
    }
    if event.Deliver? && worker.phase.Connected? && !event.command.Shutdown? {
      var sent := worker.phase.sent;
      assert (sent + [event.command])[..|sent|] == sent;
      ObeySet(worker.ids, event.command);
      ObeySet(Replay([], sent), event.command);
    }
  }

  /** Every id sent is named by some subscription message of the connection. */
  function Named(sent: seq<Command>): set<TokenId> {
    set i, id | 0 <= i < |sent| && sent[i].Subscribe? && id in sent[i].ids :: id
  }

  lemma {:induction false} ReplayedIdsWereSent(sent: seq<Command>)
    ensures SetOf(Replay([], sent)) <= Named(sent)
  {
    if sent != [] {
      var front, last := sent[..|sent| - 1], sent[|sent| - 1];
      ReplayedIdsWereSent(front);
      ObeySet(Replay([], front), last);
      forall id | id in SetOf(Replay([], sent))
        ensures id in Named(sent)
      {
        if id in Named(front) {
          var i :| 0 <= i < |front| && front[i].Subscribe? && id in front[i].ids;
          assert sent[i] == front[i];
        } else {
          assert sent[|sent| - 1].Subscribe? && id in sent[|sent| - 1].ids;
        }
      }
    }
  }

  // ---------------------------------------------------------------------------
  // What a script of events leads to, read off the script
  // ---------------------------------------------------------------------------

  /** The event does not end a connection. */
  predicate Keeps(e: WorkerEvent) {
    e.ConnectOk? || e.ConnectFailed? || (e.Deliver? && e.writeOk && !e.command.Shutdown?)
  }

  predicate UpSince(events: seq<WorkerEvent>, i: nat) {
    i < |events| && events[i].ConnectOk? && forall j :: i < j < |events| ==> Keeps(events[j])
  }

  /** Some connect succeeded, and nothing has ended a connection since. */
  ghost predicate IsUp(events: seq<WorkerEvent>) {
    exists i :: UpSince(events, i)
  }

  ghost predicate ShutsDown(events: seq<WorkerEvent>, k: nat) {
    k < |events| && events[k].Deliver? && events[k].command.Shutdown? && IsUp(events[..k])
  }

  /** A shutdown was delivered over some connection. */
  ghost predicate IsOver(events: seq<WorkerEvent>) {
    exists k :: ShutsDown(events, k)
  }

  /** The connect that opened the connection that is still up. */
  ghost predicate OpensAt(events: seq<WorkerEvent>, c: nat) {
    UpSince(events, c) && !IsUp(events[..c])
  }

  /** The subscribe and unsubscribe commands delivered while there was a connection. */
  ghost function Obeyed(events: seq<WorkerEvent>): seq<Command> {
    if events == [] then []
    else
      var front, e := events[..|events| - 1], events[|events| - 1];
      Obeyed(front)
        + if e.Deliver? && !e.command.Shutdown? && IsUp(front) && !IsOver(front) then [e.command] else []
  }

  /** All commands of the script. */
  function Commands(events: seq<WorkerEvent>): seq<Command> {
    if events == [] then []
    else
      var e := events[|events| - 1];
      Commands(events[..|events| - 1]) + if e.Deliver? then [e.command] else []
  }

  /** What has been sent since the connect at `c`: all the ids there were then, and the commands delivered since. */
  ghost predicate SentSince(ids: seq<TokenId>, events: seq<WorkerEvent>, sent: seq<Command>, c: nat) {
    && OpensAt(events, c)
    && var held := Replay(ids, Obeyed(events[..c]));
       sent == (if held == [] then [] else [Subscribe(held)]) + Commands(events[c + 1..])
  }

  /** What becomes of a worker that starts with these ids and no connection. */
  ghost predicate IsOutcome(ids: seq<TokenId>, events: seq<WorkerEvent>, worker: Worker) {
    && worker.ids == Replay(ids, Obeyed(events))
    && (worker.phase.Stopped? <==> IsOver(events))
    && (worker.phase.Connected? <==> IsUp(events) && !IsOver(events))
    && (worker.phase.Connected? ==> exists c :: SentSince(ids, events, worker.phase.sent, c))
  }

  lemma UpStep(events: seq<WorkerEvent>, e: WorkerEvent)
    ensures IsUp(events + [e]) <==> e.ConnectOk? || (IsUp(events) && Keeps(e))
  {
    var more := events + [e];
    if e.ConnectOk? {
      assert UpSince(more, |events|);
    }
    if i: nat :| UpSince(events, i) && Keeps(e) {
      assert UpSince(more, i);
    }
    if i: nat :| UpSince(more, i) && !e.ConnectOk? {
      assert more[|events|] == e;
      assert forall j :: i < j < |events| ==> events[j] == more[j];
      assert UpSince(events, i);
    }
  }

  lemma OverStep(events: seq<WorkerEvent>, e: WorkerEvent)
    ensures IsOver(events + [e]) <==> IsOver(events) || (e.Deliver? && e.command.Shutdown? && IsUp(events))
  {
    var more := events + [e];
    assert more[..|events|] == events;
    if k: nat :| ShutsDown(events, k) {
      assert more[..k] == events[..k];
      assert ShutsDown(more, k);
    }
    if e.Deliver? && e.command.Shutdown? && IsUp(events) {
      assert ShutsDown(more, |events|);
    }
    if k: nat :| ShutsDown(more, k) && k < |events| {
      assert more[..k] == events[..k];
      assert ShutsDown(events, k);
    }
  }

  /** There is only one such connect. */
  lemma OpensOnce(events: seq<WorkerEvent>, c: nat, d: nat)
    requires OpensAt(events, c) && OpensAt(events, d)
    ensures c == d
  {
    if c < d {
      assert UpSince(events[..d], c);
    } else if d < c {
      assert UpSince(events[..c], d);
    }
  }

  lemma CommandsStep(events: seq<WorkerEvent>, e: WorkerEvent)
    ensures Commands(events + [e]) == Commands(events) + if e.Deliver? then [e.command] else []
  {
    assert (events + [e])[..|events|] == events;
  }

  lemma ObeyedStep(events: seq<WorkerEvent>, e: WorkerEvent)
    ensures Obeyed(events + [e])
         == Obeyed(events)
            + if e.Deliver? && !e.command.Shutdown? && IsUp(events) && !IsOver(events) then [e.command] else []
  {
    assert (events + [e])[..|events|] == events;
  }

  lemma OpenStays(events: seq<WorkerEvent>, c: nat, e: WorkerEvent)
    requires OpensAt(events, c) && Keeps(e)
    ensures OpensAt(events + [e], c) && (events + [e])[..c] == events[..c]
    ensures Commands((events + [e])[c + 1..]) == Commands(events[c + 1..]) + if e.Deliver? then [e.command] else []
  {
    var more := events + [e];
    assert more[..c] == events[..c];
    assert more[c + 1..] == events[c + 1..] + [e];
    assert UpSince(more, c);
    CommandsStep(events[c + 1..], e);
  }

  lemma AddLast(first: seq<Command>, second: seq<Command>, third: seq<Command>)
    ensures first + second + third == first + (second + third)
  {
  }

  /** A connection that is kept has been sent one more command, if there was one. */
  lemma SentMore(ids: seq<TokenId>, events: seq<WorkerEvent>, sent: seq<Command>, c: nat, e: WorkerEvent)
    requires SentSince(ids, events, sent, c) && Keeps(e)
    ensures SentSince(ids, events + [e], sent + (if e.Deliver? then [e.command] else []), c)
  {
    var held := Replay(ids, Obeyed(events[..c]));
    OpenStays(events, c, e);
    AddLast(if held == [] then [] else [Subscribe(held)], Commands(events[c + 1..]),
      if e.Deliver? then [e.command] else []);
  }

  lemma SentAtConnect(ids: seq<TokenId>, events: seq<WorkerEvent>)
    requires !IsUp(events)
    ensures var now := Replay(ids, Obeyed(events));
      SentSince(ids, events + [ConnectOk], if now == [] then [] else [Subscribe(now)], |events|)
  {
    var more := events + [ConnectOk];
    assert more[..|events|] == events && more[|events| + 1..] == [];
    assert UpSince(more, |events|);
  }

  lemma ReplayOneMore(list: seq<TokenId>, commands: seq<Command>, command: Command)
    ensures Replay(list, commands + [command]) == Obey(Replay(list, commands), command)
  {
    assert (commands + [command])[..|commands|] == commands;
  }

  lemma OutcomeStep(ids: seq<TokenId>, events: seq<WorkerEvent>, worker: Worker, e: WorkerEvent)
    requires IsOutcome(ids, events, worker)
    ensures IsOutcome(ids, events + [e], WorkerStep(worker, e))
  {
    var more, after := events + [e], WorkerStep(worker, e);
    UpStep(events, e);
    OverStep(events, e);
    ObeyedStep(events, e);
    assert Obeyed(events) + [] == Obeyed(events);
    if e.Deliver? && !e.command.Shutdown? && worker.phase.Connected? {
      ReplayOneMore(ids, Obeyed(events), e.command);
    }
    if after.phase.Connected? {
      if worker.phase.Connected? {
        var c: nat :| SentSince(ids, events, worker.phase.sent, c);
        SentMore(ids, events, worker.phase.sent, c, e);
        assert worker.phase.sent + [] == worker.phase.sent;
        assert SentSince(ids, more, after.phase.sent, c);
      } else {
        SentAtConnect(ids, events);
        assert SentSince(ids, more, after.phase.sent, |events|);
      }
    }
  }

  /**
   * Read off any script, backwards: the worker is stopped, connected or disconnected according to the last event
   * that mattered; its ids have obeyed what was delivered over connections; and while connected, it has sent all
   * the ids it had when it connected, and every command since.
   */
  lemma {:induction false} ScriptOutcome(ids: seq<TokenId>, events: seq<WorkerEvent>)
    ensures IsOutcome(ids, events, RunWorker(Worker(ids, Disconnected), events))
  {
    if events != [] {
      var front, e := events[..|events| - 1], events[|events| - 1];
      ScriptOutcome(ids, front);
      OutcomeStep(ids, front, RunWorker(Worker(ids, Disconnected), front), e);
      assert front + [e] == events;
    }
  }
}
