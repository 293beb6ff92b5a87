/** The review gateway as a state machine (app/routes.py, app/websocket_manager.py,
    app/main.py). Everything between two `await`s runs atomically on the event
    loop, so one `Event` is one such stretch of code:

    - a submission is `Submit` (serialise, hash, start the broadcast), then
      `BroadcastDone` (the sends finish, failed connections are pruned, and
      only then is the wait registered), then `Wake` or `Timeout`, and, when a
      warning is found at wake-up, `AgentDone` once the arbiter answers;
    - an analyzer connection is `Open`, then any number of `Receive`s, and
      ends on the first failure.

    Analyzer messages may arrive between any two steps, in particular between
    `Submit` and `BroadcastDone`, which is where the source's race lives. */
module Gateway {
  import opened Wrappers
  import opened Json
  import opened Schemas
  import Routes
  import Registry

  /** Every `asyncio.Event` ever created, numbered in creation order. */
  type EventId = nat

  /** How a handler's wait ended: signalled with nothing stored, timed out,
      or escalated to the arbiter, which answered through `transport`. */
  datatype Ending = NoWarnings | TimedOut | Answered(transport: Routes.AgentTransport)

  /** Where one submission handler stands. While escalating it holds the
      stored warning it read at wake-up; once finished it holds how its wait
      ended, which fixes the reply dict it turns into its response. */
  datatype Phase =
    | Broadcasting
    | Waiting(ev: EventId)
    | Escalating(ev: EventId, warning: map<string, JsonValue>)
    | Finished(ending: Ending)

  /** One `process_agent_transaction` call: its request, its identity and its phase. */
  datatype Task = Task(req: TransactionRequest, hash: string, phase: Phase)

  /** The module-level state: the connection list, the endpoint loops still
      running, the stored warnings (keyed by whatever the analyzer sent as
      `transaction_hash`), the pending-wait registry, the set/unset state of
      every event, and the submission handlers. */
  datatype State = State(
    connections: seq<Registry.Conn>,
    sessions: set<Registry.Conn>,
    warnings: map<JsonValue, map<string, JsonValue>>,
    active: map<string, EventId>,
    flags: seq<bool>,
    tasks: seq<Task>)

  datatype Event =
    | Open(c: Registry.Conn)
    | Receive(c: Registry.Conn, msg: JsonValue)
    | ReceiveFailed(c: Registry.Conn)
    | Submit(req: TransactionRequest)
    | BroadcastDone(t: nat, failed: set<Registry.Conn>)
    | Wake(t: nat)
    | Timeout(t: nat)
    | AgentDone(t: nat, transport: Routes.AgentTransport)

  /** The body an escalating handler posts to the arbiter: the dumped stored warning. */
  function EscalationBody(env: Routes.Env, task: Task): JsonValue
    requires task.phase.Escalating?
  {
    Routes.AgentRequestBody(env, task.req, Some(env.dumps(JObject(task.phase.warning))))
  }

  /** The reply dict each ending produces. */
  function Answer(ending: Ending): JsonValue {
    match ending
    case NoWarnings => Routes.NoWarningsReply()
    case TimedOut => Routes.TimeoutReply()
    case Answered(transport) => Routes.AgentReply(transport)
  }

  /** The response a finished handler returns to its client. */
  function Response(env: Routes.Env, task: Task): Reply
    requires task.phase.Finished?
  {
    Routes.Respond(env, task.hash, Answer(task.phase.ending))
  }

  predicate HoldsEvent(p: Phase) {
    p.Waiting? || p.Escalating?
  }

  /** `active[h]` belongs to a handler that is still waiting on, or escalating
      after, exactly that event. */
  ghost predicate Owned(s: State, h: string)
    requires h in s.active
  {
    exists i :: 0 <= i < |s.tasks| && s.tasks[i].hash == h && HoldsEvent(s.tasks[i].phase)
                && s.tasks[i].phase.ev == s.active[h]
  }

  /** What every reachable state satisfies. */
  ghost predicate Inv(s: State) {
    Registry.Distinct(s.connections)
    && (forall c :: c in s.connections ==> c in s.sessions)
    && (forall h :: h in s.active ==> s.active[h] < |s.flags|)
    && (forall i :: 0 <= i < |s.tasks| && HoldsEvent(s.tasks[i].phase) ==> s.tasks[i].phase.ev < |s.flags|)
    && (forall i, j :: 0 <= i < |s.tasks| && 0 <= j < |s.tasks| && i != j
          && HoldsEvent(s.tasks[i].phase) && HoldsEvent(s.tasks[j].phase)
          ==> s.tasks[i].phase.ev != s.tasks[j].phase.ev)
    && (forall h :: h in s.active ==> Owned(s, h))
    && (forall k :: k in s.warnings ==> Truthy(k) && Get(s.warnings[k], "transaction_hash") == k)
  }

  /** The state at start-up: no connections, no warnings, nothing pending. */
  function Init(): (s: State)
    ensures Inv(s)
    ensures s.connections == [] && s.warnings == map[] && s.active == map[]
  {
    State([], {}, map[], map[], [], [])
  }

  /** The `finally` of an endpoint loop: the loop is over and the connection is disconnected. */
  function EndSession(s: State, c: Registry.Conn): (r: State)
    ensures c !in r.sessions && r.sessions == s.sessions - {c}
    ensures r.connections == Registry.Disconnect(s.connections, c)
    ensures r.(sessions := s.sessions, connections := s.connections) == s
  {
    s.(sessions := s.sessions - {c}, connections := Registry.Disconnect(s.connections, c))
  }

  /** `process_warning`. A falsy `transaction_hash` is ignored; a list or dict
      one raises (`None`); otherwise the message is stored under that key,
      replacing any earlier one, whether or not anybody waits for it, and the
      event registered for that identity, if any, is set. Nothing else changes. */
  function ProcessWarning(s: State, f: map<string, JsonValue>): (r: Option<State>)
    ensures !Truthy(Get(f, "transaction_hash")) ==> r == Some(s)
    ensures Truthy(Get(f, "transaction_hash")) && !Hashable(Get(f, "transaction_hash")) ==> r.None?
    ensures var h := Get(f, "transaction_hash");
      Truthy(h) && Hashable(h) ==>
        r.Some? && r.value.warnings == s.warnings[h := f]
        && r.value.(warnings := s.warnings, flags := s.flags) == s
        && |r.value.flags| == |s.flags|
        && forall ev :: 0 <= ev < |s.flags| ==>
             r.value.flags[ev] == (s.flags[ev] || (h.JStr? && h.s in s.active && s.active[h.s] == ev))
  {
    var h := Get(f, "transaction_hash");
    if !Truthy(h) then Some(s)
    else if !Hashable(h) then None
    else
      var stored := s.(warnings := s.warnings[h := f]);
      if h.JStr? && h.s in s.active && s.active[h.s] < |s.flags| then
        Some(stored.(flags := s.flags[s.active[h.s] := true]))
      else Some(stored)
  }

  /** One iteration of the endpoint loop on a received message: only a dict
      whose `type` is "warning" is processed; a non-dict, or a warning whose
      processing raises, ends the loop. */
  function OnMessage(s: State, c: Registry.Conn, msg: JsonValue): (r: State)
    ensures msg.JObject? && Get(msg.fields, "type") != JStr("warning") ==> r == s
    ensures !msg.JObject? ==> r == EndSession(s, c)
    ensures msg.JObject? && Get(msg.fields, "type") == JStr("warning") ==>
      r == (match ProcessWarning(s, msg.fields) case Some(s2) => s2 case None => EndSession(s, c))
  {
    if !msg.JObject? then EndSession(s, c)
    else if Get(msg.fields, "type") != JStr("warning") then s
    else
      match ProcessWarning(s, msg.fields)
      case Some(s2) => s2
      case None => EndSession(s, c)
  }

  /** `get_warning`: the warning stored under the identity, if any. */
  function GetWarning(s: State, h: string): (r: Option<map<string, JsonValue>>)
    ensures r.Some? <==> JStr(h) in s.warnings
    ensures r.Some? ==> r.value == s.warnings[JStr(h)]
  {
    if JStr(h) in s.warnings then Some(s.warnings[JStr(h)]) else None
  }

  /** `clear_warning`: drops the warning stored under the identity, if any. */
  function ClearWarning(s: State, h: string): (r: State)
    ensures JStr(h) !in r.warnings
    ensures forall k :: k != JStr(h) ==> (k in r.warnings <==> k in s.warnings)
    ensures forall k :: k in r.warnings ==> r.warnings[k] == s.warnings[k]
    ensures r.(warnings := s.warnings) == s
  {
    s.(warnings := s.warnings - {JStr(h)})
  }

  /** End of the broadcast and start of the wait: failed connections are gone,
      a fresh unset event is created and registered under the handler's
      identity, overwriting any earlier registration for it. */
  function Register(s: State, t: nat, failed: set<Registry.Conn>): (r: State)
    requires t < |s.tasks|
    ensures r.connections == Registry.Broadcast(s.connections, failed).remaining
    ensures r.flags == s.flags + [false]
    ensures r.active == s.active[s.tasks[t].hash := |s.flags|]
    ensures |r.tasks| == |s.tasks| && r.tasks[t] == s.tasks[t].(phase := Waiting(|s.flags|))
    ensures forall i :: 0 <= i < |s.tasks| && i != t ==> r.tasks[i] == s.tasks[i]
    ensures r.warnings == s.warnings && r.sessions == s.sessions
  {
    var task := s.tasks[t];
    s.(connections := Registry.Broadcast(s.connections, failed).remaining,
       flags := s.flags + [false],
       active := s.active[task.hash := |s.flags|],
       tasks := s.tasks[t := task.(phase := Waiting(|s.flags|))])
  }

  /** The `finally` of the wait plus the handler's return: the registration and
      the stored warning for the identity are popped (other identities are
      untouched), and the handler's ending is fixed. */
  function Finish(s: State, t: nat, ending: Ending): (r: State)
    requires t < |s.tasks|
    ensures s.tasks[t].hash !in r.active && JStr(s.tasks[t].hash) !in r.warnings
    ensures forall h :: h != s.tasks[t].hash ==> (h in r.active <==> h in s.active)
    ensures forall h :: h in r.active ==> r.active[h] == s.active[h]
    ensures forall k :: k != JStr(s.tasks[t].hash) ==> (k in r.warnings <==> k in s.warnings)
    ensures forall k :: k in r.warnings ==> r.warnings[k] == s.warnings[k]
    ensures |r.tasks| == |s.tasks|
    ensures r.tasks[t] == s.tasks[t].(phase := Finished(ending))
    ensures forall i :: 0 <= i < |s.tasks| && i != t ==> r.tasks[i] == s.tasks[i]
    ensures r.flags == s.flags && r.connections == s.connections && r.sessions == s.sessions
  {
    var task := s.tasks[t];
    s.(tasks := s.tasks[t := task.(phase := Finished(ending))],
       active := s.active - {task.hash},
       warnings := ClearWarning(s, task.hash).warnings)
  }

  /** The wait returned: a stored (non-empty) warning for the identity is
      taken up for escalation to the arbiter, otherwise the handler approves.
      Only handler `t` changes, and no event is touched. */
  function Resume(s: State, t: nat): (r: State)
    requires t < |s.tasks| && s.tasks[t].phase.Waiting?
    ensures r.flags == s.flags && r.connections == s.connections && r.sessions == s.sessions
    ensures |r.tasks| == |s.tasks| && forall i :: 0 <= i < |s.tasks| && i != t ==> r.tasks[i] == s.tasks[i]
    ensures forall h :: h in r.active ==> h in s.active && r.active[h] == s.active[h]
    ensures var k := JStr(s.tasks[t].hash);
      k in s.warnings && |s.warnings[k]| > 0 ==>
        r.tasks[t] == s.tasks[t].(phase := Escalating(s.tasks[t].phase.ev, s.warnings[k]))
        && r.active == s.active && r.warnings == s.warnings
    ensures var k := JStr(s.tasks[t].hash);
      !(k in s.warnings && |s.warnings[k]| > 0) ==>
        r.tasks[t] == s.tasks[t].(phase := Finished(NoWarnings))
        && s.tasks[t].hash !in r.active && k !in r.warnings
        && (forall h :: h != s.tasks[t].hash ==> (h in r.active <==> h in s.active))
        && (forall j :: j != k ==> (j in r.warnings <==> j in s.warnings))
  {
    var task := s.tasks[t];
    var stored := GetWarning(s, task.hash);
    if stored.Some? && |stored.value| > 0 then
      s.(tasks := s.tasks[t := task.(phase := Escalating(task.phase.ev, stored.value))])
    else Finish(s, t, NoWarnings)
  }

  /** One atomic step, or `None` when the event cannot happen in `s`. */
  function Step(env: Routes.Env, s: State, e: Event): Option<State> {
    match e
    case Open(c) =>
      if c in s.sessions || c in s.connections then None
      else Some(s.(connections := Registry.Connect(s.connections, c), sessions := s.sessions + {c}))
    case Receive(c, msg) =>
      if c !in s.sessions then None else Some(OnMessage(s, c, msg))
    case ReceiveFailed(c) =>
      if c !in s.sessions then None else Some(EndSession(s, c))
    case Submit(req) =>
      Some(s.(tasks := s.tasks + [Task(req, Routes.TransactionHash(env, req), Broadcasting)]))
    case BroadcastDone(t, failed) =>
      if t >= |s.tasks| || !s.tasks[t].phase.Broadcasting? then None
      else Some(Register(s, t, failed))
    case Wake(t) =>
      if t >= |s.tasks| || !s.tasks[t].phase.Waiting? then None
      else if s.tasks[t].phase.ev >= |s.flags| || !s.flags[s.tasks[t].phase.ev] then None
      else Some(Resume(s, t))
    case Timeout(t) =>
      if t >= |s.tasks| || !s.tasks[t].phase.Waiting? then None
      else Some(Finish(s, t, TimedOut))
    case AgentDone(t, transport) =>
      if t >= |s.tasks| || !s.tasks[t].phase.Escalating? then None
      else Some(Finish(s, t, Answered(transport)))
  }

  /** A whole interleaving, or `None` if some event in it cannot happen. */
  function Run(env: Routes.Env, s: State, trace: seq<Event>): Option<State>
    decreases |trace|
  {
    if |trace| == 0 then Some(s)
    else
      match Step(env, s, trace[0])
      case None => None
      case Some(s2) => Run(env, s2, trace[1..])
  }

  // ----- the invariant -----

  /** A step that leaves the handlers and the registry alone, keeps the events
      and the stored-warning keys consistent, and keeps the connection list
      consistent, keeps the invariant. */
  lemma KeepsInv(s: State, r: State)
    requires Inv(s)
    requires Registry.Distinct(r.connections) && (forall c :: c in r.connections ==> c in r.sessions)
    requires r.tasks == s.tasks && r.active == s.active && |r.flags| == |s.flags|
    requires forall k :: k in r.warnings ==> Truthy(k) && Get(r.warnings[k], "transaction_hash") == k
    ensures Inv(r)
  {
    forall h | h in r.active ensures Owned(r, h) {
      assert Owned(s, h);
    }
  }

  lemma {:induction false} EndSessionPreservesInv(s: State, c: Registry.Conn)
    requires Inv(s)
    ensures Inv(EndSession(s, c)) && c !in EndSession(s, c).connections
  {
    Registry.DisconnectDistinct(s.connections, c);
    KeepsInv(s, EndSession(s, c));
  }

  lemma {:induction false} OpenPreservesInv(s: State, c: Registry.Conn)
    requires Inv(s) && c !in s.connections
    ensures Inv(s.(connections := Registry.Connect(s.connections, c), sessions := s.sessions + {c}))
  {
    var r := s.(connections := Registry.Connect(s.connections, c), sessions := s.sessions + {c});
    assert r.connections == s.connections + [c];
    forall i, j | 0 <= i < j < |r.connections| ensures r.connections[i] != r.connections[j] {
      if j == |s.connections| {
        assert r.connections[i] == s.connections[i] && s.connections[i] in s.connections;
      } else {
        assert r.connections[i] == s.connections[i] && r.connections[j] == s.connections[j];
      }
    }
    KeepsInv(s, r);
  }

  lemma {:induction false} MessagePreservesInv(s: State, c: Registry.Conn, msg: JsonValue)
    requires Inv(s)
    ensures Inv(OnMessage(s, c, msg))
  {
    if !msg.JObject? {
      EndSessionPreservesInv(s, c);
    } else if Get(msg.fields, "type") == JStr("warning") {
      match ProcessWarning(s, msg.fields)
      case None => EndSessionPreservesInv(s, c);
      case Some(r) => KeepsInv(s, r);
    }
  }

  lemma {:induction false} RegisterPreservesInv(s: State, t: nat, failed: set<Registry.Conn>)
    requires Inv(s) && t < |s.tasks| && s.tasks[t].phase.Broadcasting?
    ensures Inv(Register(s, t, failed))
  {
    var r := Register(s, t, failed);
    var h := s.tasks[t].hash;
    Registry.BroadcastPrunesFailed(s.connections, failed);
    Registry.SurvivorsDistinct(s.connections, failed);
    forall k | k in r.active ensures Owned(r, k) {
      if k == h {
        assert r.tasks[t].hash == h && r.tasks[t].phase.ev == r.active[k];
      } else {
        assert Owned(s, k);
        var i :| 0 <= i < |s.tasks| && s.tasks[i].hash == k && HoldsEvent(s.tasks[i].phase)
                 && s.tasks[i].phase.ev == s.active[k];
        assert i != t;
        assert r.tasks[i] == s.tasks[i];
      }
    }
  }

  lemma {:induction false} FinishPreservesInv(s: State, t: nat, ending: Ending)
    requires Inv(s) && t < |s.tasks|
    ensures Inv(Finish(s, t, ending))
  {
    var r := Finish(s, t, ending);
    forall k | k in r.active ensures Owned(r, k) {
      assert Owned(s, k);
      var i :| 0 <= i < |s.tasks| && s.tasks[i].hash == k && HoldsEvent(s.tasks[i].phase)
               && s.tasks[i].phase.ev == s.active[k];
      assert i != t;
      assert r.tasks[i] == s.tasks[i];
    }
  }

  /** Moving a handler to another phase that holds the same event keeps the invariant. */
  lemma {:induction false} RephasePreservesInv(s: State, t: nat, p: Phase)
    requires Inv(s) && t < |s.tasks| && HoldsEvent(s.tasks[t].phase) && HoldsEvent(p)
    requires p.ev == s.tasks[t].phase.ev
    ensures Inv(s.(tasks := s.tasks[t := s.tasks[t].(phase := p)]))
  {
    var r := s.(tasks := s.tasks[t := s.tasks[t].(phase := p)]);
    forall k | k in r.active ensures Owned(r, k) {
      assert Owned(s, k);
      var i :| 0 <= i < |s.tasks| && s.tasks[i].hash == k && HoldsEvent(s.tasks[i].phase)
               && s.tasks[i].phase.ev == s.active[k];
      assert r.tasks[i].hash == k && HoldsEvent(r.tasks[i].phase) && r.tasks[i].phase.ev == r.active[k];
    }
  }

  lemma {:induction false} ResumePreservesInv(s: State, t: nat)
    requires Inv(s) && t < |s.tasks| && s.tasks[t].phase.Waiting?
    ensures Inv(Resume(s, t))
  {
    var task := s.tasks[t];
    var stored := GetWarning(s, task.hash);
    if stored.Some? && |stored.value| > 0 {
      RephasePreservesInv(s, t, Escalating(task.phase.ev, stored.value));
    } else {
      FinishPreservesInv(s, t, NoWarnings);
    }
  }

  /** A new handler that holds no event keeps the invariant. */
  lemma {:induction false} AddTaskPreservesInv(s: State, task: Task)
    requires Inv(s) && !HoldsEvent(task.phase)
    ensures Inv(s.(tasks := s.tasks + [task]))
  {
    var r := s.(tasks := s.tasks + [task]);
    forall k | k in r.active ensures Owned(r, k) {
      assert Owned(s, k);
      var i :| 0 <= i < |s.tasks| && s.tasks[i].hash == k && HoldsEvent(s.tasks[i].phase)
               && s.tasks[i].phase.ev == s.active[k];
      assert r.tasks[i] == s.tasks[i];
    }
  }

  /** Every step keeps the invariant: connections are distinct and all have a
      running loop, every pending registration belongs to a live handler of
      that identity waiting on exactly that event, live handlers wait on
      distinct events, and every stored warning sits under its own truthy
      `transaction_hash`. */
  lemma {:induction false} StepPreservesInv(env: Routes.Env, s: State, e: Event)
    requires Inv(s) && Step(env, s, e).Some?
    ensures Inv(Step(env, s, e).value)
  {
    match e
    case Open(c) => OpenPreservesInv(s, c);
    case Receive(c, msg) => MessagePreservesInv(s, c, msg);
    case ReceiveFailed(c) => EndSessionPreservesInv(s, c);
    case Submit(req) => AddTaskPreservesInv(s, Task(req, Routes.TransactionHash(env, req), Broadcasting));
    case BroadcastDone(t, failed) => RegisterPreservesInv(s, t, failed);
    case Wake(t) => ResumePreservesInv(s, t);
    case Timeout(t) => FinishPreservesInv(s, t, TimedOut);
    case AgentDone(t, transport) => FinishPreservesInv(s, t, Answered(transport));
  }

  /** The invariant holds after any interleaving that can happen. */
  lemma {:induction false} RunPreservesInv(env: Routes.Env, s: State, trace: seq<Event>)
    requires Inv(s) && Run(env, s, trace).Some?
    ensures Inv(Run(env, s, trace).value)
    decreases |trace|
  {
    if |trace| > 0 {
      StepPreservesInv(env, s, trace[0]);
      RunPreservesInv(env, Step(env, s, trace[0]).value, trace[1..]);
    }
  }

  // ----- properties of single steps -----

  /** When every handler has returned, nothing is left registered. */
  lemma NothingPendingWhenAllFinished(s: State)
    requires Inv(s)
    requires forall i :: 0 <= i < |s.tasks| ==> s.tasks[i].phase.Finished?
    ensures s.active == map[]
  {
  }

  /** Whichever way a handler ends (no warning, timeout, or the arbiter's
      answer, including an error reply), its registration and its stored
      warning are gone in the same step; it ends with no warnings only on a
      wake-up, timed out only on a timeout, and answered only when the
      arbiter call returns. */
  lemma {:induction false} CleanupOnEveryExit(env: Routes.Env, s: State, e: Event, t: nat)
    requires t < |s.tasks| && !s.tasks[t].phase.Finished?
    requires Step(env, s, e).Some?
    requires Step(env, s, e).value.tasks[t].phase.Finished?
    ensures var r := Step(env, s, e).value;
      s.tasks[t].hash !in r.active && JStr(s.tasks[t].hash) !in r.warnings
      && (r.tasks[t].phase.ending.NoWarnings? <==> e == Wake(t))
      && (r.tasks[t].phase.ending.TimedOut? <==> e == Timeout(t))
      && (r.tasks[t].phase.ending.Answered? <==> e.AgentDone?)
      && (r.tasks[t].phase.ending.Answered? ==> e == AgentDone(t, r.tasks[t].phase.ending.transport))
  {
    match e
    case Open(c) =>
    case Receive(c, msg) =>
    case ReceiveFailed(c) =>
    case Submit(req) =>
    case BroadcastDone(t2, failed) =>
    case Wake(t2) =>
      assert t2 == t;
    case Timeout(t2) =>
      assert t2 == t;
    case AgentDone(t2, transport) =>
      assert t2 == t;
  }

  /** A handler that has returned never changes again. */
  lemma {:induction false} FinishedIsFinal(env: Routes.Env, s: State, e: Event, t: nat)
    requires t < |s.tasks| && s.tasks[t].phase.Finished? && Step(env, s, e).Some?
    ensures t < |Step(env, s, e).value.tasks| && Step(env, s, e).value.tasks[t] == s.tasks[t]
  {
    match e
    case Receive(c, msg) =>
      assert Step(env, s, e).value.tasks == s.tasks;
    case _ =>
  }

  /** Events only ever go from unset to set, and a step sets a previously unset
      event only by delivering a warning whose `transaction_hash` is currently
      registered with exactly that event. */
  lemma {:induction false} OnlyTheRegisteredEventIsSet(env: Routes.Env, s: State, e: Event, ev: EventId)
    requires Step(env, s, e).Some? && ev < |s.flags|
    ensures var r := Step(env, s, e).value;
      ev < |r.flags| && (s.flags[ev] ==> r.flags[ev])
      && (!s.flags[ev] && r.flags[ev] ==>
            e.Receive? && e.msg.JObject? && Get(e.msg.fields, "type") == JStr("warning")
            && var h := Get(e.msg.fields, "transaction_hash");
               h.JStr? && h.s in s.active && s.active[h.s] == ev)
  {
    match e
    case BroadcastDone(t, failed) =>
      assert (s.flags + [false])[ev] == s.flags[ev];
    case _ =>
  }

  /** A warning is stored even when nobody waits for its identity, and then
      sets no event at all. */
  lemma UnclaimedWarningIsKept(env: Routes.Env, s: State, c: Registry.Conn, f: map<string, JsonValue>)
    requires c in s.sessions && Get(f, "type") == JStr("warning")
    requires Get(f, "transaction_hash").JStr? && Get(f, "transaction_hash").s != ""
    requires Get(f, "transaction_hash").s !in s.active
    ensures Step(env, s, Receive(c, JObject(f))) == Some(s.(warnings := s.warnings[Get(f, "transaction_hash") := f]))
  {
  }

  /** On wake-up with a stored warning, the handler escalates that warning:
      `EscalationBody` then posts it to the arbiter, and by
      `Routes.EscalationCarriesWarning` the arbiter receives the analyzer's own
      `message` and `status` and the dumped warning. */
  lemma WakeEscalatesStoredWarning(env: Routes.Env, s: State, t: nat)
    requires Inv(s)
    requires t < |s.tasks| && s.tasks[t].phase.Waiting? && JStr(s.tasks[t].hash) in s.warnings
    requires s.tasks[t].phase.ev < |s.flags| && s.flags[s.tasks[t].phase.ev]
    ensures var w := s.warnings[JStr(s.tasks[t].hash)];
      Step(env, s, Wake(t)) == Some(Resume(s, t))
      && Resume(s, t).tasks[t] == s.tasks[t].(phase := Escalating(s.tasks[t].phase.ev, w))
  {
    var w := s.warnings[JStr(s.tasks[t].hash)];
    assert Get(w, "transaction_hash") == JStr(s.tasks[t].hash);
    assert |w| > 0;
  }

  /** A signalled wake that finds nothing stored (an earlier handler for the
      same identity timed out and popped the warning that set this event, or
      the stored dict is empty) approves: the registration and the identity's
      warning are popped, and the client reads "Transaction APPROVED - No
      warnings detected". */
  lemma WakeWithoutWarningApproves(env: Routes.Env, s: State, t: nat)
    requires t < |s.tasks| && s.tasks[t].phase.Waiting?
    requires s.tasks[t].phase.ev < |s.flags| && s.flags[s.tasks[t].phase.ev]
    requires JStr(s.tasks[t].hash) !in s.warnings || |s.warnings[JStr(s.tasks[t].hash)]| == 0
    ensures var r := Step(env, s, Wake(t));
      r.Some? && r.value.tasks[t] == s.tasks[t].(phase := Finished(NoWarnings))
      && s.tasks[t].hash !in r.value.active && JStr(s.tasks[t].hash) !in r.value.warnings
      && Response(env, r.value.tasks[t]) == Responded(TransactionResponse(
           "success", "Transaction " + "APPROVED" + " - " + "No warnings detected", s.tasks[t].hash))
  {
    Routes.NoWarningsResponse(env, s.tasks[t].hash);
  }

  /** A timed-out handler approves: its client reads "Transaction APPROVED -
      Timeout waiting for warnings". */
  lemma TimedOutApproves(env: Routes.Env, task: Task)
    requires task.phase == Finished(TimedOut)
    ensures Response(env, task) == Responded(TransactionResponse(
      "success", "Transaction " + "APPROVED" + " - " + "Timeout waiting for warnings", task.hash))
  {
    Routes.TimeoutResponse(env, task.hash);
  }

  /** A timeout ends the wait regardless of any stored warning, which is
      discarded unread. */
  lemma TimeoutIgnoresStoredWarning(env: Routes.Env, s: State, t: nat)
    requires t < |s.tasks| && s.tasks[t].phase.Waiting?
    ensures var r := Step(env, s, Timeout(t));
      r.Some? && r.value.tasks[t] == s.tasks[t].(phase := Finished(TimedOut))
      && JStr(s.tasks[t].hash) !in r.value.warnings
  {
  }

  // ----- waiters that can no longer be signalled -----

  /** Handler `t` waits on `ev` (or has already timed out), `ev` is unset and
      no registration points at it, so no warning can ever set it. */
  ghost predicate Unsignallable(s: State, t: nat, ev: EventId, hash: string) {
    t < |s.tasks| && s.tasks[t].hash == hash
    && ev < |s.flags| && !s.flags[ev]
    && (forall h :: h in s.active ==> s.active[h] != ev)
    && (s.tasks[t].phase == Waiting(ev) || s.tasks[t].phase == Finished(TimedOut))
  }

  lemma UnsignallableReceive(s: State, c: Registry.Conn, msg: JsonValue, t: nat, ev: EventId, hash: string)
    requires Unsignallable(s, t, ev, hash)
    ensures Unsignallable(OnMessage(s, c, msg), t, ev, hash)
  {
  }

  lemma UnsignallableRegister(s: State, t2: nat, failed: set<Registry.Conn>, t: nat, ev: EventId, hash: string)
    requires Unsignallable(s, t, ev, hash) && t2 < |s.tasks| && s.tasks[t2].phase.Broadcasting?
    ensures Unsignallable(Register(s, t2, failed), t, ev, hash)
  {
    assert (s.flags + [false])[ev] == s.flags[ev];
  }

  lemma UnsignallableFinish(s: State, t2: nat, ending: Ending, t: nat, ev: EventId, hash: string)
    requires Unsignallable(s, t, ev, hash) && t2 < |s.tasks|
    requires t2 == t ==> ending == TimedOut
    ensures Unsignallable(Finish(s, t2, ending), t, ev, hash)
  {
  }

  lemma UnsignallableResume(s: State, t2: nat, t: nat, ev: EventId, hash: string)
    requires Unsignallable(s, t, ev, hash) && t2 < |s.tasks| && s.tasks[t2].phase.Waiting?
    requires s.tasks[t2].phase.ev < |s.flags| && s.flags[s.tasks[t2].phase.ev]
    ensures Unsignallable(Resume(s, t2), t, ev, hash)
  {
    assert t2 != t;
  }

  lemma {:induction false} UnsignallableStep(env: Routes.Env, s: State, e: Event, t: nat, ev: EventId, hash: string)
    requires Unsignallable(s, t, ev, hash) && Step(env, s, e).Some?
    ensures Unsignallable(Step(env, s, e).value, t, ev, hash)
  {
    match e
    case Open(c) =>
    case Receive(c, msg) => UnsignallableReceive(s, c, msg, t, ev, hash);
    case ReceiveFailed(c) =>
    case Submit(req) =>
      assert (s.tasks + [Task(req, Routes.TransactionHash(env, req), Broadcasting)])[t] == s.tasks[t];
    case BroadcastDone(t2, failed) => UnsignallableRegister(s, t2, failed, t, ev, hash);
    case Wake(t2) => UnsignallableResume(s, t2, t, ev, hash);
    case Timeout(t2) => UnsignallableFinish(s, t2, TimedOut, t, ev, hash);
    case AgentDone(t2, transport) =>
      assert t2 != t;
      UnsignallableFinish(s, t2, Answered(transport), t, ev, hash);
  }

  /** A waiter whose event nobody can set stays waiting or ends in the default
      timeout approval, whatever happens next: warnings for its identity are
      stored but never seen. */
  lemma {:induction false} UnsignallableOnlyTimesOut(env: Routes.Env, s: State, trace: seq<Event>, t: nat, ev: EventId, hash: string)
    requires Unsignallable(s, t, ev, hash) && Run(env, s, trace).Some?
    ensures Unsignallable(Run(env, s, trace).value, t, ev, hash)
    decreases |trace|
  {
    if |trace| > 0 {
      UnsignallableStep(env, s, trace[0], t, ev, hash);
      UnsignallableOnlyTimesOut(env, Step(env, s, trace[0]).value, trace[1..], t, ev, hash);
    }
  }

  /** Submitting an identical request while an earlier one still waits
      overwrites the registration: the earlier handler can then only time out. */
  lemma ResubmissionOrphansEarlierWaiter(env: Routes.Env, s: State, t1: nat, t2: nat, failed: set<Registry.Conn>)
    requires Inv(s) && t1 < |s.tasks| && t2 < |s.tasks|
    requires s.tasks[t1].phase.Waiting? && s.tasks[t1].phase.ev < |s.flags| && !s.flags[s.tasks[t1].phase.ev]
    requires s.tasks[t2].phase.Broadcasting? && s.tasks[t2].hash == s.tasks[t1].hash
    ensures Step(env, s, BroadcastDone(t2, failed)).Some?
    ensures Unsignallable(Step(env, s, BroadcastDone(t2, failed)).value, t1, s.tasks[t1].phase.ev, s.tasks[t1].hash)
  {
    var ev := s.tasks[t1].phase.ev;
    var r := Register(s, t2, failed);
    forall h | h in r.active ensures r.active[h] != ev {
      if h != s.tasks[t2].hash {
        assert Owned(s, h);
        var i :| 0 <= i < |s.tasks| && s.tasks[i].hash == h && HoldsEvent(s.tasks[i].phase)
                 && s.tasks[i].phase.ev == s.active[h];
        assert i != t1;
      }
    }
    assert (s.flags + [false])[ev] == s.flags[ev];
  }

  /** A two-event interleaving is its second step taken after its first. */
  lemma RunTwo(env: Routes.Env, s: State, e1: Event, e2: Event)
    requires Step(env, s, e1).Some?
    ensures Run(env, s, [e1, e2]) == Step(env, Step(env, s, e1).value, e2)
  {
    var s1 := Step(env, s, e1).value;
    assert [e1, e2][1..] == [e2];
    assert Run(env, s, [e1, e2]) == Run(env, s1, [e2]);
    assert [e2][1..] == [];
    if Step(env, s1, e2).Some? {
      assert Run(env, s1, [e2]) == Run(env, Step(env, s1, e2).value, []);
    }
  }

  /** A three-event interleaving is its last step taken after its first two. */
  lemma RunThree(env: Routes.Env, s: State, e1: Event, e2: Event, e3: Event)
    requires Step(env, s, e1).Some? && Step(env, Step(env, s, e1).value, e2).Some?
    ensures Run(env, s, [e1, e2, e3]) == Step(env, Step(env, Step(env, s, e1).value, e2).value, e3)
  {
    assert [e1, e2, e3][1..] == [e2, e3];
    RunTwo(env, Step(env, s, e1).value, e2, e3);
  }

  /** A warning for a handler still broadcasting is stored, and the wait
      registered afterwards starts on a fresh, unset event. */
  lemma BroadcastAfterWarning(env: Routes.Env, s: State, t: nat, c: Registry.Conn,
                              f: map<string, JsonValue>, failed: set<Registry.Conn>)
    requires t < |s.tasks| && s.tasks[t].phase.Broadcasting? && c in s.sessions
    requires Get(f, "type") == JStr("warning") && Get(f, "transaction_hash") == JStr(s.tasks[t].hash)
    requires s.tasks[t].hash != "" && s.tasks[t].hash !in s.active
    ensures Step(env, s, Receive(c, JObject(f))).Some?
    ensures var s2 := Step(env, Step(env, s, Receive(c, JObject(f))).value, BroadcastDone(t, failed));
      s2.Some? && JStr(s.tasks[t].hash) in s2.value.warnings && s2.value.warnings[JStr(s.tasks[t].hash)] == f
      && t < |s2.value.tasks| && s2.value.tasks[t] == s.tasks[t].(phase := Waiting(|s.flags|))
      && |s2.value.flags| == |s.flags| + 1 && !s2.value.flags[|s.flags|]
  {
    UnclaimedWarningIsKept(env, s, c, f);
  }

  /** The race between broadcast and registration, first half: a warning
      that arrives while the broadcast is still going out is stored, but the
      wait registered afterwards starts on an unset event. */
  lemma BroadcastRaceStoresWarning(env: Routes.Env, s: State, t: nat, c: Registry.Conn,
                                   f: map<string, JsonValue>, failed: set<Registry.Conn>)
    requires t < |s.tasks| && s.tasks[t].phase.Broadcasting? && c in s.sessions
    requires Get(f, "type") == JStr("warning") && Get(f, "transaction_hash") == JStr(s.tasks[t].hash)
    requires s.tasks[t].hash != "" && s.tasks[t].hash !in s.active
    ensures var s2 := Run(env, s, [Receive(c, JObject(f)), BroadcastDone(t, failed)]);
      s2.Some? && JStr(s.tasks[t].hash) in s2.value.warnings && s2.value.warnings[JStr(s.tasks[t].hash)] == f
      && t < |s2.value.tasks| && s2.value.tasks[t].phase.Waiting?
      && s2.value.tasks[t].phase.ev < |s2.value.flags| && !s2.value.flags[s2.value.tasks[t].phase.ev]
  {
    var rcv, done := Receive(c, JObject(f)), BroadcastDone(t, failed);
    BroadcastAfterWarning(env, s, t, c, f, failed);
    RunTwo(env, s, rcv, done);
  }

  /** Second half: the stored warning never wakes the handler. */
  lemma BroadcastRaceCannotWake(env: Routes.Env, s: State, t: nat, c: Registry.Conn,
                                f: map<string, JsonValue>, failed: set<Registry.Conn>)
    requires t < |s.tasks| && s.tasks[t].phase.Broadcasting? && c in s.sessions
    requires Get(f, "type") == JStr("warning") && Get(f, "transaction_hash") == JStr(s.tasks[t].hash)
    requires s.tasks[t].hash != "" && s.tasks[t].hash !in s.active
    ensures Run(env, s, [Receive(c, JObject(f)), BroadcastDone(t, failed), Wake(t)]).None?
  {
    var rcv, done := Receive(c, JObject(f)), BroadcastDone(t, failed);
    BroadcastAfterWarning(env, s, t, c, f, failed);
    RunThree(env, s, rcv, done, Wake(t));
  }

  /** The outcome of the race: the handler times out (and so approves, by
      `TimedOutApproves`) although a warning for its transaction was stored,
      and that warning is discarded unread. */
  lemma WarningDuringBroadcastIsMissed(env: Routes.Env, s: State, t: nat, c: Registry.Conn,
                                       f: map<string, JsonValue>, failed: set<Registry.Conn>)
    requires t < |s.tasks| && s.tasks[t].phase.Broadcasting? && c in s.sessions
    requires Get(f, "type") == JStr("warning") && Get(f, "transaction_hash") == JStr(s.tasks[t].hash)
    requires s.tasks[t].hash != "" && s.tasks[t].hash !in s.active
    ensures var s3 := Run(env, s, [Receive(c, JObject(f)), BroadcastDone(t, failed), Timeout(t)]);
      s3.Some? && t < |s3.value.tasks| && s3.value.tasks[t] == s.tasks[t].(phase := Finished(TimedOut))
      && JStr(s.tasks[t].hash) !in s3.value.warnings
  {
    var rcv, done := Receive(c, JObject(f)), BroadcastDone(t, failed);
    BroadcastAfterWarning(env, s, t, c, f, failed);
    var s2 := Step(env, Step(env, s, rcv).value, done).value;
    RunThree(env, s, rcv, done, Timeout(t));
    TimeoutIgnoresStoredWarning(env, s2, t);
  }

  // ----- the analyzer endpoint -----

  /** A message is read only on a connection whose loop is running, i.e. one
      registered by `Open` and not yet ended. */
  lemma ReceiveNeedsSession(env: Routes.Env, s: State, c: Registry.Conn, msg: JsonValue)
    requires Step(env, s, Receive(c, msg)).Some?
    ensures c in s.sessions
  {
  }

  /** Messages whose `type` is not "warning" change nothing. */
  lemma OtherMessagesIgnored(env: Routes.Env, s: State, c: Registry.Conn, f: map<string, JsonValue>)
    requires c in s.sessions && Get(f, "type") != JStr("warning")
    ensures Step(env, s, Receive(c, JObject(f))) == Some(s)
  {
  }

  /** A receive error, a message that is not a dict, or a warning whose
      `transaction_hash` is a list or dict ends the loop. */
  lemma {:induction false} ErrorsEndSession(env: Routes.Env, s: State, c: Registry.Conn, msg: JsonValue)
    requires c in s.sessions
    requires !msg.JObject?
             || (Get(msg.fields, "type") == JStr("warning")
                 && Truthy(Get(msg.fields, "transaction_hash")) && !Hashable(Get(msg.fields, "transaction_hash")))
    ensures Step(env, s, Receive(c, msg)) == Some(EndSession(s, c))
    ensures Step(env, s, ReceiveFailed(c)) == Some(EndSession(s, c))
    ensures c !in EndSession(s, c).sessions
  {
    if msg.JObject? {
      assert ProcessWarning(s, msg.fields).None?;
    }
  }

  /** Whenever a loop ends, its connection is no longer in the broadcast list. */
  lemma {:induction false} EndedSessionIsUnregistered(env: Routes.Env, s: State, e: Event, c: Registry.Conn)
    requires Inv(s) && c in s.sessions && Step(env, s, e).Some? && c !in Step(env, s, e).value.sessions
    ensures c !in Step(env, s, e).value.connections
  {
    StepPreservesInv(env, s, e);
  }

  /** `clear_warning` is idempotent and leaves nothing for `get_warning` to find. */
  lemma ClearWarningIdempotent(s: State, h: string)
    ensures ClearWarning(ClearWarning(s, h), h) == ClearWarning(s, h)
    ensures GetWarning(ClearWarning(s, h), h).None?
  {
  }

  /** Clearing one identity does not change what `get_warning` finds for another. */
  lemma ClearWarningTouchesOnlyItsKey(s: State, h: string, other: string)
    requires other != h
    ensures GetWarning(ClearWarning(s, h), other) == GetWarning(s, other)
  {
  }

  /** After a warning with a string identity is processed, `get_warning`
      finds exactly that message under it. */
  lemma ProcessedWarningIsFound(s: State, f: map<string, JsonValue>, h: string)
    requires Get(f, "transaction_hash") == JStr(h) && h != ""
    ensures ProcessWarning(s, f).Some? && GetWarning(ProcessWarning(s, f).value, h) == Some(f)
  {
  }
}
