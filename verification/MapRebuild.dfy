/**
 Live map rebuilding (`LatestRebuildWorker` and the `graph`/`tick` logic of the node in
 src/wc_maps/live_map.py): one running rebuild, one pending request that newer requests replace,
 one unpolled result, and a coordinator that publishes completed revisions.

 A rebuild reads whatever graph is stored under the requested revision and compares it with the
 request (`rebuild_message_revision` in src/wc_maps/graph_snapshot.py); the map it returns is that
 of the stored graph.
 */
module MapRebuild {
  import opened Common

  /** A recording session with its source mode. */
  datatype Session = Session(id: string, mode: string)

  /** A graph snapshot, arriving as a message or stored on disk. */
  datatype Graph = Graph(session: Session, epoch: string, revision: int, indexComplete: bool)

  datatype Request = Request(token: nat, graph: Graph)

  /** The graph the map was built from, or the text of the error. */
  datatype Finished = Finished(token: nat, outcome: Result<Graph, string>)

  /** The worker's fields; `running` is what its thread holds between its two locked sections. */
  datatype Worker = Worker(generation: nat, pending: Option<Request>, running: Option<Request>, result: Option<Finished>, stopping: bool)

  /** The coordinator with its worker, and the revisions requested and published so far. */
  datatype State = State(
    session: Session, worker: Worker, requested: Option<Graph>, completed: Option<Graph>, blocked: Option<string>,
    submitted: seq<Graph>, published: seq<Graph>)

  function Start(session: Session): State {
    State(session, Worker(0, None, None, None, false), None, None, None, [], [])
  }

  // ----- one rebuild -----

  /** The first field in which the request and the stored graph disagree. */
  function Disagreement(request: Graph, stored: Graph): Option<string> {
    if request.session.id != stored.session.id then Some("session_id")
    else if request.epoch != stored.epoch then Some("graph_epoch")
    else if request.session.mode != stored.session.mode then Some("source_mode")
    else if request.revision != stored.revision then Some("revision")
    else if request.indexComplete != stored.indexComplete then Some("raw_index_complete")
    else None
  }

  /** `stored` is what reading the revision's file gives or raises; `fault` is what the remaining
      comparisons and the build raise, if anything. */
  function Rebuild(request: Graph, stored: Result<Graph, string>, fault: Option<string>): Result<Graph, string> {
    if stored.Err? then stored
    else if Disagreement(request, stored.value).Some? then
      Err("ROS GraphSnapshot " + Disagreement(request, stored.value).value + " disagrees with immutable revision")
    else if fault.Some? then Err(fault.value)
    else stored
  }

  // ----- the worker -----

  function Submit(w: Worker, graph: Graph): Worker {
    w.(generation := w.generation + 1, pending := Some(Request(w.generation + 1, graph)))
  }

  /** The thread takes the pending request. */
  function Take(w: Worker): Worker {
    if w.pending.None? || w.stopping || w.running.Some? then w else w.(pending := None, running := w.pending)
  }

  /** The rebuild ends; an unpolled error is kept rather than replaced. */
  function Finish(w: Worker, stored: Result<Graph, string>, fault: Option<string>): Worker {
    if w.running.None? then w
    else
      var kept := w.stopping || (w.result.Some? && w.result.value.outcome.Err?);
      var outcome := Rebuild(w.running.value.graph, stored, fault);
      w.(running := None, result := if kept then w.result else Some(Finished(w.running.value.token, outcome)))
  }

  function Close(w: Worker): Worker {
    w.(stopping := true, pending := None, result := None)
  }

  // ----- the coordinator -----

  function Fail(s: State, reason: string): State {
    if s.blocked.None? then s.(blocked := Some(reason)) else s
  }

  /** The blocked reason counts as set only when its text is not empty. */
  predicate Blocked(s: State) {
    s.blocked.Some? && s.blocked.value != ""
  }

  function OnGraph(s: State, g: Graph): State {
    if Blocked(s) then s
    else if g.session != s.session then Fail(s, "GraphSnapshot session/source mode mismatch")
    else if s.requested.Some? && g.epoch != s.requested.value.epoch then
      Fail(s, "graph epoch changed without an explicit new map session")
    else if s.requested.Some? && g.revision == s.requested.value.revision then s
    else if s.requested.Some? && g.revision < s.requested.value.revision then Fail(s, "graph revision moved backwards")
    else if !g.indexComplete then Fail(s, "GraphSnapshot raw index is incomplete")
    else s.(requested := Some(g), worker := Submit(s.worker, g), submitted := s.submitted + [g])
  }

  const UNREQUESTED := "completed map belongs to a different session/epoch or an unrequested graph revision"

  /** Is the finished map one that was not asked for? */
  predicate Unrequested(s: State, g: Graph) {
    g.session != s.session || s.requested.None? || g.epoch != s.requested.value.epoch || g.revision > s.requested.value.revision
  }

  /** `fault` is what building or publishing the messages raises, if anything. */
  function Publish(s: State, g: Graph, fault: Option<string>): State {
    if Unrequested(s, g) then Fail(s, UNREQUESTED)
    else if s.completed.Some? && g.revision <= s.completed.value.revision then s
    else if fault.Some? then Fail(s, fault.value)
    else s.(completed := Some(g), published := s.published + [g])
  }

  function OnTick(s: State, fault: Option<string>): State {
    var finished := s.worker.result;
    var s1 := s.(worker := s.worker.(result := None));
    if finished.None? || Blocked(s) then s1
    else
      match finished.value.outcome
      // An empty error text falls through to a TypeError, whose text is not empty.
      case Err(text) => Fail(s1, if text != "" then text else "TypeError")
      case Ok(graph) => Publish(s1, graph, fault)
  }

  datatype Event =
    | GraphArrives(graph: Graph)
    | WorkerTakes
    | WorkerFinishes(stored: Result<Graph, string>, buildFault: Option<string>)
    | Ticks(fault: Option<string>)
    | Closes

  function Step(s: State, e: Event): State {
    match e
    case GraphArrives(g) => OnGraph(s, g)
    case WorkerTakes => s.(worker := Take(s.worker))
    case WorkerFinishes(stored, fault) => s.(worker := Finish(s.worker, stored, fault))
    case Ticks(fault) => OnTick(s, fault)
    case Closes => s.(worker := Close(s.worker))
  }

  function Run(s: State, events: seq<Event>): State {
    if events == [] then s else Step(Run(s, events[..|events| - 1]), events[|events| - 1])
  }

  // ----- invariants -----

  ghost predicate Rising(session: Session, graphs: seq<Graph>) {
    && (forall i, j :: 0 <= i < j < |graphs| ==> graphs[i].revision < graphs[j].revision && graphs[i].epoch == graphs[j].epoch)
    && (forall i :: 0 <= i < |graphs| ==> graphs[i].session == session)
  }

  function Newest(graphs: seq<Graph>): Option<Graph> {
    if graphs == [] then None else Some(graphs[|graphs| - 1])
  }

  function InResult(w: Worker): Option<Graph> {
    if w.result.Some? && w.result.value.outcome.Ok? then Some(w.result.value.outcome.value) else None
  }

  function InRun(w: Worker): Option<Graph> {
    if w.running.Some? then Some(w.running.value.graph) else None
  }

  function InPending(w: Worker): Option<Graph> {
    if w.pending.Some? then Some(w.pending.value.graph) else None
  }

  /** An error is latched or waits to be polled. */
  predicate Faulted(s: State) {
    s.blocked.Some? || (s.worker.result.Some? && s.worker.result.value.outcome.Err?)
  }

  predicate Older(a: Option<Graph>, b: Option<Graph>) {
    a.Some? && b.Some? ==> a.value.revision < b.value.revision
  }

  predicate Asked(g: Option<Graph>, requested: Option<Graph>) {
    g.Some? ==> requested.Some? && g.value.session == requested.value.session && g.value.epoch == requested.value.epoch
                && g.value.revision <= requested.value.revision
  }

  /** The newest of the four places that holds a graph. */
  function NewestHeld(s: State): Option<Graph> {
    if s.worker.pending.Some? then InPending(s.worker)
    else if s.worker.running.Some? then InRun(s.worker)
    else if s.worker.result.Some? then InResult(s.worker)
    else s.completed
  }

  /** Completed, finished, running and pending graphs come in this order, all were asked for, and
      without a fault the newest request is among them. */
  ghost predicate ChainOk(s: State) {
    var r, u, p := InResult(s.worker), InRun(s.worker), InPending(s.worker);
    && Older(s.completed, r) && Older(s.completed, u) && Older(s.completed, p) && Older(r, u) && Older(r, p) && Older(u, p)
    && Asked(s.completed, s.requested) && Asked(r, s.requested) && Asked(u, s.requested) && Asked(p, s.requested)
    && (p.Some? ==> p == s.requested)
    && (!Faulted(s) && !s.worker.stopping ==> NewestHeld(s) == s.requested)
  }

  ghost predicate HistoryOk(s: State) {
    && Rising(s.session, s.submitted) && Newest(s.submitted) == s.requested
    && Rising(s.session, s.published) && Newest(s.published) == s.completed
  }

  ghost predicate Invariant(s: State) {
    HistoryOk(s) && ChainOk(s)
  }

  lemma RisingAppend(session: Session, graphs: seq<Graph>, g: Graph)
    requires Rising(session, graphs) && g.session == session
    requires graphs != [] ==> graphs[|graphs| - 1].revision < g.revision && graphs[|graphs| - 1].epoch == g.epoch
    ensures Rising(session, graphs + [g]) && Newest(graphs + [g]) == Some(g)
  {
  }

  /** The first or a newer graph of the same session and epoch. */
  predicate Acceptable(s: State, g: Graph) {
    g.session == s.session && (s.requested.Some? ==> g.epoch == s.requested.value.epoch && g.revision > s.requested.value.revision)
  }

  function Accepted(s: State, g: Graph): State {
    s.(requested := Some(g), worker := Submit(s.worker, g), submitted := s.submitted + [g])
  }

  lemma GraphCases(s: State, g: Graph)
    ensures var s' := OnGraph(s, g);
            (s' == s.(blocked := s'.blocked) && (s.blocked.Some? ==> s'.blocked.Some?)) || (Acceptable(s, g) && s' == Accepted(s, g))
  {
  }

  lemma AcceptHistory(s: State, g: Graph)
    requires HistoryOk(s) && Acceptable(s, g)
    ensures HistoryOk(Accepted(s, g))
  {
    RisingAppend(s.session, s.submitted, g);
  }

  lemma AcceptChain(s: State, g: Graph)
    requires ChainOk(s) && Acceptable(s, g) && (s.requested.Some? ==> s.requested.value.session == s.session)
    ensures ChainOk(Accepted(s, g))
  {
  }

  lemma GraphKeeps(s: State, g: Graph)
    requires Invariant(s)
    ensures Invariant(OnGraph(s, g))
  {
    hide OnGraph, Accepted, Acceptable, Rising;
    GraphCases(s, g);
    if OnGraph(s, g) == Accepted(s, g) && Acceptable(s, g) {
      AcceptHistory(s, g);
      RequestedSession(s);
      AcceptChain(s, g);
    }
  }

  lemma RequestedSession(s: State)
    requires HistoryOk(s)
    ensures s.requested.Some? ==> s.requested.value.session == s.session
  {
  }

  /** What a rebuild returns is its request as far as the two can be compared. */
  lemma RebuiltIsRequested(request: Graph, stored: Result<Graph, string>, fault: Option<string>)
    ensures Rebuild(request, stored, fault).Ok? ==> Rebuild(request, stored, fault).value == request
  {
  }

  lemma WorkerKeeps(s: State, e: Event)
    requires Invariant(s) && (e.WorkerTakes? || e.WorkerFinishes? || e.Closes?)
    ensures Invariant(Step(s, e))
  {
    hide Rising, Rebuild;
    if e.WorkerFinishes? && s.worker.running.Some? {
      RebuiltIsRequested(s.worker.running.value.graph, e.stored, e.buildFault);
    }
  }

  lemma TickKeeps(s: State, fault: Option<string>)
    requires Invariant(s)
    ensures Invariant(OnTick(s, fault))
  {
    hide Rising;
    if OnTick(s, fault).published != s.published {
      RisingAppend(s.session, s.published, s.worker.result.value.outcome.value);
    }
  }

  lemma StepKeeps(s: State, e: Event)
    requires Invariant(s)
    ensures Invariant(Step(s, e))
  {
    hide Invariant, OnGraph, OnTick;
    match e {
      case GraphArrives(g) => GraphKeeps(s, g);
      case Ticks(fault) => TickKeeps(s, fault);
      case _ => WorkerKeeps(s, e);
    }
  }

  lemma StartsConsistent(session: Session)
    ensures Invariant(Start(session))
  {
  }

  lemma SessionStays(s: State, e: Event)
    ensures Step(s, e).session == s.session
  {
  }

  lemma {:induction false} AlwaysConsistent(session: Session, events: seq<Event>)
    ensures Invariant(Run(Start(session), events)) && Run(Start(session), events).session == session
  {
    hide Invariant, Step;
    if events != [] {
      var before := Run(Start(session), events[..|events| - 1]);
      AlwaysConsistent(session, events[..|events| - 1]);
      StepKeeps(before, events[|events| - 1]);
      SessionStays(before, events[|events| - 1]);
    } else {
      assert Invariant(Start(session)) by { StartsConsistent(session); }
    }
  }

  // ----- what users of the map rely on -----

  /** Published revisions rise, were requested, and belong to one session and epoch; the newest
      request is on its way or published unless an error says otherwise. */
  lemma MapContract(session: Session, events: seq<Event>)
    ensures var s := Run(Start(session), events);
            && Rising(session, s.published) && (forall g :: g in s.published ==> Asked(Some(g), s.requested))
            && (!Faulted(s) && !s.worker.stopping ==> NewestHeld(s) == s.requested)
            && (!Faulted(s) && !s.worker.stopping && s.worker.pending.None? && s.worker.running.None? && s.worker.result.None?
                ==> s.completed == s.requested)
  {
    AlwaysConsistent(session, events);
    var s := Run(Start(session), events);
    hide Run;
    forall g | g in s.published ensures Asked(Some(g), s.requested) {
      var i :| 0 <= i < |s.published| && s.published[i] == g;
      assert s.completed == Some(s.published[|s.published| - 1]);
      assert i < |s.published| - 1 ==> g.revision < s.published[|s.published| - 1].revision;
    }
  }

  /** Two guards of the tick never fire, whatever graphs are found on disk: a finished map was
      always requested, and it is always newer than the one published. */
  lemma FinishedIsNew(session: Session, events: seq<Event>)
    ensures var s := Run(Start(session), events);
            InResult(s.worker).Some? ==>
              !Unrequested(s, InResult(s.worker).value)
              && (s.completed.Some? ==> s.completed.value.revision < InResult(s.worker).value.revision)
  {
    AlwaysConsistent(session, events);
    RequestedSession(Run(Start(session), events));
    hide Run;
  }

  /** Once blocked by an error with a text, nothing is ever published again. */
  lemma {:induction false} BlockedIsFinal(s: State, events: seq<Event>)
    requires Blocked(s)
    ensures Run(s, events).published == s.published && Run(s, events).blocked == s.blocked
  {
    if events != [] {
      BlockedIsFinal(s, events[..|events| - 1]);
    }
  }

  /** A failure of a coordinator that had none blocks it exactly when its text is not empty. */
  lemma FailureBlocksByText(s: State, reason: string)
    requires s.blocked.None?
    ensures Blocked(Fail(s, reason)) <==> reason != ""
    ensures forall other :: Fail(Fail(s, reason), other) == Fail(s, reason)
  {
  }

  /** With an empty text it goes on publishing, and no later failure can block it either. */
  lemma EmptyTextNeverBlocks(session: Session, g: Graph, h: Graph)
    requires g.session == h.session == session && g.epoch == h.epoch && g.revision < h.revision
    requires g.indexComplete && h.indexComplete
    ensures var failed := [GraphArrives(g), WorkerTakes, WorkerFinishes(Ok(g), None), Ticks(Some(""))];
            var more := [GraphArrives(h), WorkerTakes, WorkerFinishes(Ok(h), None), Ticks(None)];
            var s := Run(Start(session), failed);
            s.blocked == Some("") && Run(s, more).published == [h]
  {
    var failed := [GraphArrives(g), WorkerTakes, WorkerFinishes(Ok(g), None), Ticks(Some(""))];
    var more := [GraphArrives(h), WorkerTakes, WorkerFinishes(Ok(h), None), Ticks(None)];
    Run4(Start(session), failed);
    Run4(Run(Start(session), failed), more);
  }

  lemma Run4(s: State, e: seq<Event>)
    requires |e| == 4
    ensures Run(s, e) == Step(Step(Step(Step(s, e[0]), e[1]), e[2]), e[3])
  {
    hide Step;
    assert e[..3][..2] == e[..2] && e[..2][..1] == e[..1] && e[..1][..0] == [];
    assert Run(s, e[..1]) == Step(s, e[0]);
    assert Run(s, e[..2]) == Step(Run(s, e[..1]), e[1]);
    assert Run(s, e[..3]) == Step(Run(s, e[..2]), e[2]);
  }

  // ----- the answers, told by the histories -----

  /** Newer than every graph requested before, in their epoch. */
  ghost predicate NewerThanAll(submitted: seq<Graph>, g: Graph) {
    forall i :: 0 <= i < |submitted| ==> submitted[i].epoch == g.epoch && submitted[i].revision < g.revision
  }

  /** The newest graph requested so far, once more. */
  ghost predicate Repeated(submitted: seq<Graph>, g: Graph) {
    submitted != [] && submitted[|submitted| - 1].epoch == g.epoch && submitted[|submitted| - 1].revision == g.revision
  }

  lemma RunNext(s: State, events: seq<Event>, e: Event)
    ensures Run(s, events + [e]) == Step(Run(s, events), e)
  {
    assert (events + [e])[..|events|] == events;
  }

  /** With rising revisions of one epoch it is enough to look at the newest. */
  lemma NewerThanNewest(session: Session, submitted: seq<Graph>, g: Graph)
    requires Rising(session, submitted)
    ensures NewerThanAll(submitted, g) <==>
              submitted == [] || (submitted[|submitted| - 1].epoch == g.epoch && submitted[|submitted| - 1].revision < g.revision)
  {
  }

  lemma RequestsStep(s: State, g: Graph)
    requires HistoryOk(s) && !Blocked(s)
    ensures var s' := OnGraph(s, g);
            if g.session == s.session && g.indexComplete && NewerThanAll(s.submitted, g) then
              s'.submitted == s.submitted + [g] && s'.requested == Some(g) && s'.blocked == s.blocked
              && InPending(s'.worker) == Some(g) && s'.worker.running == s.worker.running && s'.worker.result == s.worker.result
            else if g.session == s.session && Repeated(s.submitted, g) then s' == s
            else s'.submitted == s.submitted && s'.worker == s.worker && s'.requested == s.requested && s'.blocked.Some?
  {
    hide NewerThanAll, Rising;
    NewerThanNewest(s.session, s.submitted, g);
  }

  /**
   In every run of a coordinator that is not blocked, a snapshot is requested exactly when it is of the
   session, complete, and newer than all requested before in their epoch. The newest one once more
   changes nothing, and any other is a failure.
   */
  lemma RequestsExactly(session: Session, events: seq<Event>, g: Graph)
    requires !Blocked(Run(Start(session), events))
    ensures var s, s' := Run(Start(session), events), Run(Start(session), events + [GraphArrives(g)]);
            if g.session == session && g.indexComplete && NewerThanAll(s.submitted, g) then
              s'.submitted == s.submitted + [g] && s'.requested == Some(g) && s'.blocked == s.blocked
              && InPending(s'.worker) == Some(g) && s'.worker.running == s.worker.running && s'.worker.result == s.worker.result
            else if g.session == session && Repeated(s.submitted, g) then s' == s
            else s'.submitted == s.submitted && s'.worker == s.worker && s'.requested == s.requested && s'.blocked.Some?
  {
    hide Run, ChainOk, HistoryOk, Blocked, OnGraph, NewerThanAll, Repeated, InPending;
    AlwaysConsistent(session, events);
    RunNext(Start(session), events, GraphArrives(g));
    RequestsStep(Run(Start(session), events), g);
  }

  /** A rebuild succeeds exactly when the stored graph is the one requested and nothing raises. */
  lemma RebuildsExactly(request: Graph, stored: Result<Graph, string>, fault: Option<string>)
    ensures Rebuild(request, stored, fault).Ok? <==> stored == Ok(request) && fault.None?
    ensures Rebuild(request, stored, fault).Ok? ==> Rebuild(request, stored, fault) == Ok(request)
  {
  }

  /** In every run a tick publishes exactly the finished map, unless the coordinator is blocked or
      something raises; it takes the result in any case, and an error or a raise is a failure. */
  lemma TicksExactly(session: Session, events: seq<Event>, fault: Option<string>)
    ensures var s, s' := Run(Start(session), events), Run(Start(session), events + [Ticks(fault)]);
            && s'.worker == s.worker.(result := None)
            && s'.published == s.published
                 + (if InResult(s.worker).Some? && !Blocked(s) && fault.None? then [InResult(s.worker).value] else [])
            && (s.blocked.None? ==>
                  (s'.blocked.Some? <==> s.worker.result.Some? && (InResult(s.worker).None? || fault.Some?)))
  {
    hide Run;
    FinishedIsNew(session, events);
    RunNext(Start(session), events, Ticks(fault));
    assert Run(Start(session), events).published + [] == Run(Start(session), events).published;
  }

  lemma Run5(s: State, e: seq<Event>)
    requires |e| == 5
    ensures Run(s, e) == Step(Step(Step(Step(Step(s, e[0]), e[1]), e[2]), e[3]), e[4])
  {
    hide Step;
    Run4(s, e[..4]);
  }

  /** No error, nothing running, nothing finished: the newest request is pending or published. */
  ghost predicate Resting(s: State) {
    && ChainOk(s) && !Faulted(s) && !s.worker.stopping && s.worker.running.None? && s.worker.result.None?
    && s.requested.Some? && s.requested.value.session == s.session
  }

  /** The rebuild that runs ends well, and the tick publishes what is finished. */
  lemma FinishThenTick(s: State)
    requires ChainOk(s) && !Faulted(s) && !s.worker.stopping && s.requested.Some? && s.requested.value.session == s.session
    ensures var running := if s.worker.running.Some? then s.worker.running.value.graph else s.requested.value;
            var s' := Step(Step(s, WorkerFinishes(Ok(running), None)), Ticks(None));
            Resting(s') && s'.requested == s.requested
  {
  }

  lemma TakeFinishTick(s: State)
    requires Resting(s)
    ensures Step(Step(Step(s, WorkerTakes), WorkerFinishes(Ok(s.requested.value), None)), Ticks(None)).completed == s.requested
  {
  }

  /**
   From every reachable state without an error the newest request is published once the rebuild that
   runs, and then its own, have ended well and were each followed by a tick.
   */
  lemma NewestIsPublished(session: Session, events: seq<Event>)
    requires var s := Run(Start(session), events); !Faulted(s) && !s.worker.stopping && s.requested.Some?
    ensures var s := Run(Start(session), events);
            var running := if s.worker.running.Some? then s.worker.running.value.graph else s.requested.value;
            Run(s, [WorkerFinishes(Ok(running), None), Ticks(None), WorkerTakes, WorkerFinishes(Ok(s.requested.value), None),
                    Ticks(None)]).completed == s.requested
  {
    hide Run, HistoryOk, ChainOk, Step, Resting;
    AlwaysConsistent(session, events);
    var s := Run(Start(session), events);
    RequestedSession(s);
    var running := if s.worker.running.Some? then s.worker.running.value.graph else s.requested.value;
    var e := [WorkerFinishes(Ok(running), None), Ticks(None), WorkerTakes, WorkerFinishes(Ok(s.requested.value), None),
              Ticks(None)];
    Run5(s, e);
    FinishThenTick(s);
    TakeFinishTick(Step(Step(s, e[0]), e[1]));
  }

  /** An error waits for its poll, whatever ends meanwhile; else the newest outcome does. */
  lemma FinishesExactly(w: Worker, stored: Result<Graph, string>, fault: Option<string>)
    requires w.running.Some?
    ensures var w', request := Finish(w, stored, fault), w.running.value;
            && w'.running.None? && w' == w.(running := None, result := w'.result)
            && if w.stopping || (w.result.Some? && w.result.value.outcome.Err?) then w'.result == w.result
               else w'.result.Some? && w'.result.value.token == request.token
                    && (w'.result.value.outcome.Ok? <==> stored == Ok(request.graph) && fault.None?)
                    && (w'.result.value.outcome.Ok? ==> w'.result.value.outcome.value == request.graph)
  {
    RebuildsExactly(w.running.value.graph, stored, fault);
    hide Rebuild;
  }

  /** One rebuild runs at a time, that of the newest request; after close none begins or ends with a result. */
  lemma TakesExactly(w: Worker)
    ensures var w' := Take(w);
            if w.pending.Some? && w.running.None? && !w.stopping then w' == w.(pending := None, running := w.pending) else w' == w
    ensures Close(w).stopping && Close(w).pending.None? && Close(w).result.None? && Close(w).running == w.running
    ensures Take(Close(w)) == Close(w) && forall stored, fault :: Finish(Close(w), stored, fault).result.None?
  {
    hide Rebuild;
  }
}
