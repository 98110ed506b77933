/**
 * Workers, clients and the manager thread as an interleaving of atomic steps.
 * A worker is a detached thread that polls its stop flag and finally deletes
 * itself; a client owns the map of registered workers and one reference to
 * the producer, of which each worker holds another.
 */
module Lifecycle {
  import opened Text
  import Repository
  import opened Sending

  datatype Phase =
    | Checking               // about to load the stop flag
    | Fetching               // about to call getData
    | Producing(unsent: seq<string>)
    | Sleeping
    | Exiting                // out of the loop, about to delete this
    | Freed

  /**
   * `prop` is the WorkerProp that the worker owns, with the filter in it, and
   * `duty` what these say; `stops` counts calls of stop(); `registered` says
   * whether the insertion into the client's map took place; `sent` is what
   * the worker has produced so far.
   */
  datatype Worker = Worker(client: nat, topic: string, prop: nat, duty: Duty, phase: Phase, stop: bool,
                           stops: nat, registered: bool, rounds: nat, sent: seq<string>)

  datatype Status = Serving | Stopping(pending: set<nat>) | Deleted

  /** `workers` is the client's map; it is kept after the deletion as a record. */
  datatype Client = Client(broker: string, workers: map<string, nat>, status: Status, references: int)

  /** What the manager thread is in the middle of. */
  datatype Mode = Ready | Clearing | Constructing(worker: nat)

  datatype Added = Added(broker: string, topic: string, worker: nat)

  /**
   * `producers` is the repository's map; `log` lists the workers added since
   * it was last cleared. WorkerProps are numbered as they are made; `props`
   * are those that have not been deleted.
   */
  datatype State = State(workers: seq<Worker>, clients: seq<Client>, producers: map<string, nat>,
                         mode: Mode, log: seq<Added>, made: nat, props: set<nat>)

  const INITIAL := State([], [], map[], Ready, [], 0, {})

  datatype Step =
    | Work(worker: nat, look: Look) // one step of a worker; a fetching step looks at the world
    | StartClear
    | BeginDelete(client: nat)
    | Stop(client: nat, worker: nat)
    | Drop(client: nat)
    | EndClear
    | NewClient(broker: string)
    | NewProp
    | Spawn(broker: string, topic: string, prop: nat, duty: Duty)
    | Register

  /** The control flow of the threads: which step may come next. */
  predicate Enabled(s: State, step: Step) {
    match step
    case Work(w, look) => w < |s.workers| && s.workers[w].phase != Freed && look.world.Defined()
    case StartClear => s.mode == Ready
    case BeginDelete(c) =>
      s.mode == Clearing && c in s.producers.Values && c < |s.clients| && s.clients[c].status == Serving
    case Stop(c, w) =>
      && c < |s.clients| && s.clients[c].status.Stopping?
      && w in s.clients[c].status.pending && w < |s.workers|
    case Drop(c) => c < |s.clients| && s.clients[c].status == Stopping({})
    case EndClear =>
      && s.mode == Clearing
      && forall b :: b in s.producers ==>
           s.producers[b] < |s.clients| && s.clients[s.producers[b]].status == Deleted
    case NewClient(b) => s.mode == Ready && b !in s.producers
    case NewProp => s.mode == Ready
    case Spawn(b, _, prop, _) =>
      s.mode == Ready && b in s.producers && s.producers[b] < |s.clients| && prop < s.made && Unowned(s, prop)
    case Register =>
      s.mode.Constructing? && s.mode.worker < |s.workers| && s.workers[s.mode.worker].client < |s.clients|
  }

  /** The prop has not been given to a worker. */
  predicate Unowned(s: State, prop: nat) {
    forall w :: 0 <= w < |s.workers| ==> s.workers[w].prop != prop
  }

  /** The loop of _sendMessage, one atomic step at a time. */
  function WorkPhase(w: Worker, look: Look): Phase
    requires w.phase != Freed && look.world.Defined()
  {
    match w.phase
    case Checking => if w.stop then Exiting else Fetching
    case Fetching => if AnswerTo(w.duty, look).Ok? then Producing(RoundOf(w.duty, look)) else Sleeping
    case Producing(unsent) => if unsent == [] then Sleeping else Producing(unsent[1..])
    case Sleeping => Checking
    case Exiting => Freed
  }

  /** The messages that still have to be produced in this round. */
  function Unsent(w: Worker): seq<string> {
    if w.phase.Producing? then w.phase.unsent else []
  }

  function WorkStep(w: Worker, look: Look): Worker
    requires w.phase != Freed && look.world.Defined()
  {
    var phase := WorkPhase(w, look);
    w.(phase := phase,
       rounds := if phase == Fetching then w.rounds + 1 else w.rounds,
       sent := if Unsent(w) == [] then w.sent else w.sent + [Unsent(w)[0]])
  }

  function Release(c: Client): Client {
    c.(references := c.references - 1)
  }

  function Next(s: State, step: Step): State
    requires Enabled(s, step)
  {
    match step
    case Work(w, look) =>
      var worker := WorkStep(s.workers[w], look);
      var c := worker.client;
      s.(workers := s.workers[w := worker],
         props := if worker.phase == Freed then s.props - {worker.prop} else s.props,
         clients := if worker.phase == Freed && c < |s.clients|
                    then s.clients[c := Release(s.clients[c])] else s.clients)
    case StartClear => s.(mode := Clearing)
    case BeginDelete(c) =>
      s.(clients := s.clients[c := s.clients[c].(status := Stopping(s.clients[c].workers.Values))])
    case Stop(c, w) =>
      var worker := s.workers[w];
      s.(workers := s.workers[w := worker.(stop := true, stops := worker.stops + 1)],
         clients := s.clients[c := s.clients[c].(status := Stopping(s.clients[c].status.pending - {w}))])
    case Drop(c) => s.(clients := s.clients[c := Release(s.clients[c]).(status := Deleted)])
    case EndClear => s.(producers := map[], mode := Ready, log := [])
    case NewClient(b) =>
      s.(clients := s.clients + [Client(b, map[], Serving, 1)], producers := s.producers[b := |s.clients|])
    case NewProp => s.(made := s.made + 1, props := s.props + {s.made})
    case Spawn(b, topic, prop, duty) =>
      var c := s.producers[b];
      s.(workers := s.workers + [Worker(c, topic, prop, duty, Checking, false, 0, false, 0, [])],
         clients := s.clients[c := s.clients[c].(references := s.clients[c].references + 1)],
         mode := Constructing(|s.workers|))
    case Register =>
      var w := s.mode.worker;
      var worker := s.workers[w];
      var client := s.clients[worker.client];
      var t := s.(mode := Ready, log := s.log + [Added(client.broker, worker.topic, w)]);
      if worker.topic in client.workers then t
      else t.(workers := s.workers[w := worker.(registered := true)],
              clients := s.clients[worker.client := client.(workers := client.workers[worker.topic := w])])
  }

  /**
   * What a step dereferences is still there: the worker that is stopped or
   * being registered, the client that is used, the producer, and the
   * WorkerProp that a worker reads and at last deletes.
   */
  predicate Safe(s: State, step: Step)
    requires Enabled(s, step)
  {
    match step
    case Work(w, _) =>
      && s.workers[w].client < |s.clients|
      && s.clients[s.workers[w].client].references > 0
      && s.workers[w].prop in s.props
    case BeginDelete(c) => s.clients[c].references > 0
    case Stop(c, w) => s.workers[w].phase != Freed && s.workers[w].stops == 0
    case Drop(c) => s.clients[c].references > 0
    case Spawn(b, _, prop, _) => s.clients[s.producers[b]].status == Serving && prop in s.props
    case Register =>
      && s.workers[s.mode.worker].phase != Freed
      && s.clients[s.workers[s.mode.worker].client].status == Serving
    case _ => true
  }

  // ----- the invariant -----

  /** Workers of a client that are not freed. */
  function Allocated(workers: seq<Worker>, c: nat): nat {
    if workers == [] then 0
    else
      var last := workers[|workers| - 1];
      Allocated(workers[..|workers| - 1], c) + (if last.client == c && last.phase != Freed then 1 else 0)
  }

  predicate WorkersOk(s: State) {
    forall w :: 0 <= w < |s.workers| ==> WorkerOk(s, w)
  }

  /** A stopped worker was registered and is stopped once; only a stopped worker leaves its loop. */
  predicate WorkerOk(s: State, w: nat)
    requires w < |s.workers|
  {
    var worker := s.workers[w];
    && worker.client < |s.clients|
    && worker.stops == (if worker.stop then 1 else 0)
    && (worker.phase == Exiting || worker.phase == Freed ==> worker.stop)
    && (worker.stop ==> worker.registered)
    && (worker.registered ==>
          var c := s.clients[worker.client];
          && worker.topic in c.workers && c.workers[worker.topic] == w
          && (worker.stop <==> (c.status.Deleted? || (c.status.Stopping? && w !in c.status.pending))))
  }

  predicate ClientsOk(s: State) {
    forall c :: 0 <= c < |s.clients| ==> ClientOk(s, c)
  }

  /** The map holds registered workers of this client; the references are its own, until it is deleted, and theirs. */
  predicate ClientOk(s: State, c: nat)
    requires c < |s.clients|
  {
    var client := s.clients[c];
    && client.references == (if client.status.Deleted? then 0 else 1) + Allocated(s.workers, c)
    && (forall t :: t in client.workers ==> RegisteredAs(s, c, t, client.workers[t]))
    && (client.status.Stopping? ==> client.status.pending <= client.workers.Values && s.mode == Clearing)
    && (!client.status.Deleted? ==> client.broker in s.producers && s.producers[client.broker] == c)
  }

  predicate RegisteredAs(s: State, c: nat, topic: string, w: nat) {
    && w < |s.workers|
    && s.workers[w].client == c && s.workers[w].topic == topic && s.workers[w].registered
  }

  predicate ProducersOk(s: State) {
    forall b :: b in s.producers ==>
      && s.producers[b] < |s.clients|
      && s.clients[s.producers[b]].broker == b
      && (s.mode != Clearing ==> s.clients[s.producers[b]].status == Serving)
  }

  predicate ModeOk(s: State) {
    s.mode.Constructing? ==>
      && s.mode.worker == |s.workers| - 1
      && !s.workers[s.mode.worker].registered
      && s.workers[s.mode.worker].client in s.producers.Values
  }

  function Lookup(s: State, broker: string, topic: string): Option<nat> {
    if broker in s.producers && s.producers[broker] < |s.clients| && topic in s.clients[s.producers[broker]].workers
    then Some(s.clients[s.producers[broker]].workers[topic]) else None
  }

  function FirstAdded(log: seq<Added>, broker: string, topic: string): Option<nat> {
    if log == [] then None
    else if log[0].broker == broker && log[0].topic == topic then Some(log[0].worker)
    else FirstAdded(log[1..], broker, topic)
  }

  ghost predicate LogOk(s: State) {
    forall b, t :: Lookup(s, b, t) == FirstAdded(s.log, b, t)
  }

  /** Each prop has at most one worker and is deleted exactly when that worker is freed. */
  ghost predicate PropsOk(s: State) {
    && (forall w :: 0 <= w < |s.workers| ==> s.workers[w].prop < s.made)
    && (forall v, w :: 0 <= v < w < |s.workers| ==> s.workers[v].prop != s.workers[w].prop)
    && (forall w :: 0 <= w < |s.workers| ==> (s.workers[w].prop in s.props <==> s.workers[w].phase != Freed))
    && (forall p: nat :: p in s.props ==> p < s.made)
    && (forall p: nat :: p < s.made && Unowned(s, p) ==> p in s.props)
  }

  ghost predicate Inv(s: State) {
    WorkersOk(s) && ClientsOk(s) && ProducersOk(s) && ModeOk(s) && LogOk(s) && PropsOk(s)
  }

  // ----- each step keeps the invariant -----

  lemma {:induction false} AllocatedUpdate(workers: seq<Worker>, w: nat, worker: Worker, c: nat)
    requires w < |workers| && worker.client == workers[w].client
    ensures Allocated(workers[w := worker], c) == Allocated(workers, c)
          + (if worker.client == c && worker.phase != Freed then 1 else 0)
          - (if worker.client == c && workers[w].phase != Freed then 1 else 0)
  {
    var n := |workers| - 1;
    if w == n {
      assert workers[w := worker][..n] == workers[..n];
    } else {
      AllocatedUpdate(workers[..n], w, worker, c);
      assert workers[w := worker][..n] == workers[..n][w := worker];
    }
  }

  lemma {:induction false} AllocatedPositive(workers: seq<Worker>, w: nat)
    requires w < |workers| && workers[w].phase != Freed
    ensures Allocated(workers, workers[w].client) > 0
  {
    if w == |workers| - 1 {
    } else {
      AllocatedPositive(workers[..|workers| - 1], w);
    }
  }

  lemma {:induction false} FirstAddedAppend(log: seq<Added>, a: Added, broker: string, topic: string)
    ensures FirstAdded(log + [a], broker, topic) ==
            if FirstAdded(log, broker, topic).Some? then FirstAdded(log, broker, topic)
            else if a.broker == broker && a.topic == topic then Some(a.worker) else None
  {
    if log == [] {
      assert log + [a] == [a] && [a][1..] == [];
    } else {
      assert (log + [a])[1..] == log[1..] + [a];
      FirstAddedAppend(log[1..], a, broker, topic);
    }
  }

  lemma WorkKeepsProps(s: State, w: nat, look: Look)
    requires PropsOk(s) && Enabled(s, Work(w, look))
    ensures PropsOk(Next(s, Work(w, look)))
  {
    hide AnswerTo, RoundOf, Repository.World.Defined;
    var t := Next(s, Work(w, look));
    forall p: nat | p < t.made && Unowned(t, p)
      ensures p in t.props
    {
      assert t.workers[w].prop != p;
      assert forall v :: 0 <= v < |s.workers| ==> t.workers[v].prop == s.workers[v].prop;
      assert Unowned(s, p);
    }
  }

  lemma SpawnKeepsProps(s: State, broker: string, topic: string, prop: nat, duty: Duty)
    requires PropsOk(s) && Enabled(s, Spawn(broker, topic, prop, duty))
    ensures PropsOk(Next(s, Spawn(broker, topic, prop, duty)))
  {
    var t := Next(s, Spawn(broker, topic, prop, duty));
    forall p: nat | p < t.made && Unowned(t, p)
      ensures p in t.props
    {
      assert forall v :: 0 <= v < |s.workers| ==> t.workers[v] == s.workers[v];
      assert Unowned(s, p);
    }
  }

  /** A step that leaves the owners, the phases and the props alone. */
  lemma SameProps(s: State, t: State)
    requires PropsOk(s) && |t.workers| == |s.workers| && t.made == s.made && t.props == s.props
    requires forall w :: 0 <= w < |s.workers| ==>
               t.workers[w].prop == s.workers[w].prop && t.workers[w].phase == s.workers[w].phase
    ensures PropsOk(t)
  {
    forall p: nat | p < t.made && Unowned(t, p)
      ensures p in t.props
    {
      assert Unowned(s, p);
    }
  }

  lemma NewPropKeepsProps(s: State)
    requires PropsOk(s) && Enabled(s, NewProp)
    ensures PropsOk(Next(s, NewProp))
  {
    var t := Next(s, NewProp);
    forall p: nat | p < t.made && Unowned(t, p)
      ensures p in t.props
    {
      assert p < s.made ==> Unowned(s, p);
    }
  }

  lemma NewPropKeepsInv(s: State)
    requires Inv(s) && Enabled(s, NewProp)
    ensures Inv(Next(s, NewProp))
  {
    hide PropsOk;
    var t := Next(s, NewProp);
    NewPropKeepsProps(s);
    forall c | 0 <= c < |t.clients|
      ensures ClientOk(t, c)
    {
      assert ClientOk(s, c);
    }
    forall v | 0 <= v < |t.workers|
      ensures WorkerOk(t, v)
    {
      assert WorkerOk(s, v);
    }
    forall b, topic
      ensures Lookup(t, b, topic) == FirstAdded(t.log, b, topic)
    {
      assert Lookup(s, b, topic) == FirstAdded(s.log, b, topic);
    }
  }

  lemma WorkKeepsInv(s: State, w: nat, look: Look)
    requires Inv(s) && Enabled(s, Work(w, look))
    ensures Inv(Next(s, Work(w, look)))
  {
    hide AnswerTo, RoundOf, PropsOk, Repository.World.Defined;
    var t := Next(s, Work(w, look));
    WorkKeepsProps(s, w, look);
    assert WorkerOk(s, w);
    forall c | 0 <= c < |t.clients|
      ensures ClientOk(t, c)
    {
      assert ClientOk(s, c);
      AllocatedUpdate(s.workers, w, t.workers[w], c);
    }
    forall v | 0 <= v < |t.workers|
      ensures WorkerOk(t, v)
    {
      assert WorkerOk(s, v);
    }
    forall b, topic
      ensures Lookup(t, b, topic) == FirstAdded(t.log, b, topic)
    {
      assert Lookup(s, b, topic) == FirstAdded(s.log, b, topic);
    }
  }

  lemma ClearStepKeepsInv(s: State, step: Step)
    requires Inv(s) && Enabled(s, step)
    requires step.StartClear? || step.BeginDelete? || step.Drop? || step.EndClear?
    ensures Inv(Next(s, step))
  {
    hide PropsOk;
    var t := Next(s, step);
    SameProps(s, t);
    forall c | 0 <= c < |t.clients|
      ensures ClientOk(t, c)
    {
      assert ClientOk(s, c);
    }
    forall v | 0 <= v < |t.workers|
      ensures WorkerOk(t, v)
    {
      assert WorkerOk(s, v);
    }
    forall b, topic
      ensures Lookup(t, b, topic) == FirstAdded(t.log, b, topic)
    {
      assert Lookup(s, b, topic) == FirstAdded(s.log, b, topic);
    }
  }

  lemma StopKeepsClients(s: State, c: nat, w: nat)
    requires Inv(s) && Enabled(s, Stop(c, w))
    ensures ClientsOk(Next(s, Stop(c, w)))
  {
    hide PropsOk, LogOk, ProducersOk, ModeOk;
    var t := Next(s, Stop(c, w));
    forall d | 0 <= d < |t.clients|
      ensures ClientOk(t, d)
    {
      assert ClientOk(s, d);
      AllocatedUpdate(s.workers, w, t.workers[w], d);
    }
  }

  lemma StopKeepsInv(s: State, c: nat, w: nat)
    requires Inv(s) && Enabled(s, Stop(c, w))
    ensures Inv(Next(s, Stop(c, w)))
  {
    hide PropsOk;
    var t := Next(s, Stop(c, w));
    SameProps(s, t);
    PendingIsRunning(s, c, w);
    StopKeepsClients(s, c, w);
    hide ClientsOk;
    forall v | 0 <= v < |t.workers|
      ensures WorkerOk(t, v)
    {
      assert WorkerOk(s, v);
    }
    forall b, topic
      ensures Lookup(t, b, topic) == FirstAdded(t.log, b, topic)
    {
      assert Lookup(s, b, topic) == FirstAdded(s.log, b, topic);
    }
  }

  /** A worker still to be stopped belongs to the client, has not been stopped and so is not freed. */
  lemma PendingIsRunning(s: State, c: nat, w: nat)
    requires Inv(s) && Enabled(s, Stop(c, w))
    ensures s.workers[w].client == c && s.workers[w].registered
    ensures !s.workers[w].stop && s.workers[w].stops == 0 && s.workers[w].phase != Freed
  {
    assert ClientOk(s, c) && WorkerOk(s, w);
    assert w in s.clients[c].workers.Values;
    var topic :| topic in s.clients[c].workers && s.clients[c].workers[topic] == w;
    assert RegisteredAs(s, c, topic, w);
  }

  lemma NewClientKeepsInv(s: State, broker: string)
    requires Inv(s) && Enabled(s, NewClient(broker))
    ensures Inv(Next(s, NewClient(broker)))
  {
    hide PropsOk;
    var t := Next(s, NewClient(broker));
    SameProps(s, t);
    NoWorkersYet(s, s.workers);
    forall c | 0 <= c < |t.clients|
      ensures ClientOk(t, c)
    {
      if c < |s.clients| {
        assert ClientOk(s, c);
      }
    }
    forall v | 0 <= v < |t.workers|
      ensures WorkerOk(t, v)
    {
      assert WorkerOk(s, v);
    }
    forall b, topic
      ensures Lookup(t, b, topic) == FirstAdded(t.log, b, topic)
    {
      assert Lookup(s, b, topic) == FirstAdded(s.log, b, topic);
    }
  }

  lemma {:induction false} NoWorkersYet(s: State, workers: seq<Worker>)
    requires WorkersOk(s) && workers <= s.workers
    ensures Allocated(workers, |s.clients|) == 0
  {
    if workers == [] {
    } else {
      assert WorkerOk(s, |workers| - 1);
      NoWorkersYet(s, workers[..|workers| - 1]);
    }
  }

  lemma SpawnKeepsInv(s: State, broker: string, topic: string, prop: nat, duty: Duty)
    requires Inv(s) && Enabled(s, Spawn(broker, topic, prop, duty))
    ensures Inv(Next(s, Spawn(broker, topic, prop, duty)))
  {
    hide PropsOk;
    var t := Next(s, Spawn(broker, topic, prop, duty));
    SpawnKeepsProps(s, broker, topic, prop, duty);
    var n := |s.workers|;
    assert t.workers[..n] == s.workers;
    forall c | 0 <= c < |t.clients|
      ensures ClientOk(t, c)
    {
      assert ClientOk(s, c);
    }
    forall v | 0 <= v < |t.workers|
      ensures WorkerOk(t, v)
    {
      if v < n {
        assert WorkerOk(s, v);
      }
    }
    forall b, u
      ensures Lookup(t, b, u) == FirstAdded(t.log, b, u)
    {
      assert Lookup(s, b, u) == FirstAdded(s.log, b, u);
    }
  }

  lemma RegisterKeepsLog(s: State)
    requires Inv(s) && Enabled(s, Register)
    ensures LogOk(Next(s, Register))
  {
    hide PropsOk;
    var t := Next(s, Register);
    var w := s.mode.worker;
    var worker := s.workers[w];
    var broker := s.clients[worker.client].broker;
    assert WorkerOk(s, w) && ClientOk(s, worker.client);
    forall b, u
      ensures Lookup(t, b, u) == FirstAdded(t.log, b, u)
    {
      assert Lookup(s, b, u) == FirstAdded(s.log, b, u);
      FirstAddedAppend(s.log, Added(broker, worker.topic, w), b, u);
    }
  }

  lemma RegisterKeepsClients(s: State)
    requires Inv(s) && Enabled(s, Register)
    ensures ClientsOk(Next(s, Register))
  {
    hide PropsOk, LogOk, ProducersOk;
    var t := Next(s, Register);
    var w := s.mode.worker;
    assert WorkerOk(s, w) && ClientOk(s, s.workers[w].client);
    forall c | 0 <= c < |t.clients|
      ensures ClientOk(t, c)
    {
      assert ClientOk(s, c);
      AllocatedUpdate(s.workers, w, t.workers[w], c);
      assert s.workers[w := s.workers[w]] == s.workers;
    }
  }

  lemma RegisterKeepsInv(s: State)
    requires Inv(s) && Enabled(s, Register)
    ensures Inv(Next(s, Register))
  {
    hide PropsOk, LogOk;
    var t := Next(s, Register);
    SameProps(s, t);
    RegisterKeepsLog(s);
    RegisterKeepsClients(s);
    hide ClientsOk;
    forall v | 0 <= v < |t.workers|
      ensures WorkerOk(t, v)
    {
      assert WorkerOk(s, v) && WorkerOk(s, s.mode.worker);
    }
  }

  lemma StepKeepsInv(s: State, step: Step)
    requires Inv(s) && Enabled(s, step)
    ensures Inv(Next(s, step))
  {
    hide Next, Inv;
    match step {
      case Work(w, look) => WorkKeepsInv(s, w, look);
      case NewProp => NewPropKeepsInv(s);
      case Stop(c, w) => StopKeepsInv(s, c, w);
      case NewClient(b) => NewClientKeepsInv(s, b);
      case Spawn(b, topic, prop, duty) => SpawnKeepsInv(s, b, topic, prop, duty);
      case Register => RegisterKeepsInv(s);
      case _ => ClearStepKeepsInv(s, step);
    }
  }

  // ----- all runs -----

  predicate CanRun(s: State, steps: seq<Step>)
    decreases |steps|
  {
    |steps| == 0 || (Enabled(s, steps[0]) && CanRun(Next(s, steps[0]), steps[1..]))
  }

  function Run(s: State, steps: seq<Step>): State
    requires CanRun(s, steps)
    decreases |steps|
  {
    if |steps| == 0 then s else Run(Next(s, steps[0]), steps[1..])
  }

  lemma {:induction false} RunKeepsInv(s: State, steps: seq<Step>)
    requires Inv(s) && CanRun(s, steps)
    ensures Inv(Run(s, steps))
    decreases |steps|
  {
    hide Next, Enabled, Inv;
    if |steps| == 0 {
    } else {
      StepKeepsInv(s, steps[0]);
      RunKeepsInv(Next(s, steps[0]), steps[1..]);
    }
  }

  lemma StepIsSafe(s: State, step: Step)
    requires Inv(s) && Enabled(s, step)
    ensures Safe(s, step)
  {
    match step {
      case Work(w, _) =>
        assert WorkerOk(s, w);
        AllocatedPositive(s.workers, w);
        assert ClientOk(s, s.workers[w].client);
      case BeginDelete(c) => assert ClientOk(s, c);
      case Stop(c, w) => PendingIsRunning(s, c, w);
      case Drop(c) => assert ClientOk(s, c);
      case Register => assert WorkerOk(s, s.mode.worker);
      case _ =>
    }
  }

  /**
   * In every interleaving, no step touches a freed worker or a deleted client
   * or uses a destroyed producer, and no worker is stopped twice.
   */
  lemma EveryStepIsSafe(steps: seq<Step>, step: Step)
    requires CanRun(INITIAL, steps) && Enabled(Run(INITIAL, steps), step)
    ensures Safe(Run(INITIAL, steps), step)
    ensures var s := Run(INITIAL, steps);
            && (step.Work? ==>
                  && s.workers[step.worker].prop in s.props && s.workers[step.worker].client < |s.clients|
                  && s.clients[s.workers[step.worker].client].references > 0)
            && (step.Stop? ==> s.workers[step.worker].phase != Freed && s.workers[step.worker].stops == 0)
            && (step.BeginDelete? || step.Drop? ==> s.clients[step.client].references > 0)
            && (step.Spawn? ==> s.clients[s.producers[step.broker]].status == Serving && step.prop in s.props)
            && (step.Register? ==>
                  && s.workers[s.mode.worker].phase != Freed
                  && s.clients[s.workers[s.mode.worker].client].status == Serving)
  {
    RunKeepsInv(INITIAL, steps);
    StepIsSafe(Run(INITIAL, steps), step);
  }

  /**
   * In every reachable state a client's producer is referenced once by the
   * client, until it is deleted, and once by each of its workers that is not
   * freed; and a worker in the map of a client that serves has not been stopped.
   */
  lemma ReferencesAreCounted(steps: seq<Step>, c: nat)
    requires CanRun(INITIAL, steps) && c < |Run(INITIAL, steps).clients|
    ensures var s := Run(INITIAL, steps);
            s.clients[c].references == (if s.clients[c].status.Deleted? then 0 else 1) + Allocated(s.workers, c)
    ensures var s := Run(INITIAL, steps);
            forall t :: t in s.clients[c].workers && s.clients[c].status == Serving ==>
              var w := s.clients[c].workers[t];
              w < |s.workers| && s.workers[w].topic == t && !s.workers[w].stop && s.workers[w].phase != Freed
  {
    RunKeepsInv(INITIAL, steps);
    var s := Run(INITIAL, steps);
    assert ClientOk(s, c);
    forall t | t in s.clients[c].workers && s.clients[c].status == Serving
      ensures var w := s.clients[c].workers[t];
              w < |s.workers| && s.workers[w].topic == t && !s.workers[w].stop && s.workers[w].phase != Freed
    {
      assert RegisteredAs(s, c, t, s.clients[c].workers[t]);
      assert WorkerOk(s, s.clients[c].workers[t]);
    }
  }

  // ----- draining -----

  /** An upper bound on the steps left to a stopped worker, not counting messages still to be fetched. */
  function Potential(p: Phase): nat {
    match p
    case Fetching => 5
    case Producing(unsent) => |unsent| + 4
    case Sleeping => 3
    case Checking => 2
    case Exiting => 1
    case Freed => 0
  }

  function OwnSteps(steps: seq<Step>, w: nat): nat {
    if |steps| == 0 then 0
    else (if steps[0].Work? && steps[0].worker == w then 1 else 0) + OwnSteps(steps[1..], w)
  }

  /** The messages that this step fetches for w. */
  function StepGathers(s: State, step: Step, w: nat): seq<string>
    requires Enabled(s, step)
  {
    if step.Work? && step.worker == w && s.workers[w].phase == Fetching then RoundOf(s.workers[w].duty, step.look)
    else []
  }

  /** The messages of all rounds of w in a run, in order. */
  function Gathered(s: State, steps: seq<Step>, w: nat): seq<string>
    requires CanRun(s, steps)
    decreases |steps|
  {
    if |steps| == 0 then [] else StepGathers(s, steps[0], w) + Gathered(Next(s, steps[0]), steps[1..], w)
  }

  /**
   * Once its flag is set a worker starts no further round, whatever the other
   * threads do, and it is freed after at most Potential steps of its own plus
   * one per message of the round it is in.
   */
  lemma {:induction false} StoppedWorkerDrains(s: State, steps: seq<Step>, w: nat)
    requires CanRun(s, steps) && w < |s.workers| && s.workers[w].stop
    ensures var t := Run(s, steps);
            && w < |t.workers| && t.workers[w].stop
            && t.workers[w].rounds == s.workers[w].rounds
            && OwnSteps(steps, w) + Potential(t.workers[w].phase)
               <= Potential(s.workers[w].phase) + |Gathered(s, steps, w)|
    ensures s.workers[w].phase != Fetching ==> Gathered(s, steps, w) == []
    ensures OwnSteps(steps, w) >= Potential(s.workers[w].phase) + |Gathered(s, steps, w)| ==>
              Run(s, steps).workers[w].phase == Freed
    decreases |steps|
  {
    hide Next, Enabled, StepGathers, RoundOf;
    if |steps| == 0 {
    } else {
      StoppedStep(s, steps[0], w);
      StoppedWorkerDrains(Next(s, steps[0]), steps[1..], w);
    }
  }

  lemma StoppedStep(s: State, step: Step, w: nat)
    requires Enabled(s, step) && w < |s.workers| && s.workers[w].stop
    ensures var t := Next(s, step);
            && w < |t.workers| && t.workers[w].stop && t.workers[w].rounds == s.workers[w].rounds
            && (if step.Work? && step.worker == w then 1 else 0) + Potential(t.workers[w].phase)
               <= Potential(s.workers[w].phase) + |StepGathers(s, step, w)|
            && (s.workers[w].phase != Fetching ==> t.workers[w].phase != Fetching && StepGathers(s, step, w) == [])
            && (s.workers[w].phase == Fetching && StepGathers(s, step, w) != [] ==> t.workers[w].phase != Fetching)
  {
    hide AnswerTo, Repository.World.Defined;
  }

  // ----- what is sent -----

  /** What w has produced and what it still has to produce. */
  function Backlog(s: State, w: nat): seq<string> {
    if w < |s.workers| then s.workers[w].sent + Unsent(s.workers[w]) else []
  }

  lemma WorkKeepsOrder(w: Worker, look: Look)
    requires w.phase != Freed && look.world.Defined()
    ensures var t := WorkStep(w, look);
            t.sent + Unsent(t) == w.sent + Unsent(w) + (if w.phase == Fetching then RoundOf(w.duty, look) else [])
  {
    hide Repository.World.Defined, AnswerTo;
    if w.phase.Producing? && w.phase.unsent != [] {
      assert w.sent + w.phase.unsent == w.sent + [w.phase.unsent[0]] + w.phase.unsent[1..];
    }
  }

  lemma StepKeepsOrder(s: State, step: Step, w: nat)
    requires Enabled(s, step)
    ensures Backlog(Next(s, step), w) == Backlog(s, w) + StepGathers(s, step, w)
    ensures w < |s.workers| ==> w < |Next(s, step).workers| && Next(s, step).workers[w].duty == s.workers[w].duty
  {
    hide Repository.World.Defined, RoundOf, WorkPhase;
    if step.Work? && step.worker == w {
      WorkKeepsOrder(s.workers[w], step.look);
    } else {
      assert Backlog(s, w) + [] == Backlog(s, w);
    }
  }

  /**
   * Nothing is lost, repeated or sent out of order: what a worker has produced
   * and what it still has to produce are the messages of its rounds, each the
   * answer to the query of its duty when it looked, one after the other.
   */
  lemma {:induction false} SentInOrder(s: State, steps: seq<Step>, w: nat)
    requires CanRun(s, steps)
    ensures Backlog(Run(s, steps), w) == Backlog(s, w) + Gathered(s, steps, w)
    ensures w < |s.workers| ==> w < |Run(s, steps).workers| && Run(s, steps).workers[w].duty == s.workers[w].duty
    decreases |steps|
  {
    hide Next, Enabled, StepGathers, Backlog;
    if |steps| == 0 {
      assert Backlog(s, w) + [] == Backlog(s, w);
    } else {
      var t := Next(s, steps[0]);
      StepKeepsOrder(s, steps[0], w);
      SentInOrder(t, steps[1..], w);
      var a, b := StepGathers(s, steps[0], w), Gathered(t, steps[1..], w);
      assert Backlog(s, w) + a + b == Backlog(s, w) + (a + b);
    }
  }

  /** From the start, what a worker has produced is a prefix of its rounds' messages, and all of them between rounds. */
  lemma SentIsGathered(steps: seq<Step>, w: nat)
    requires CanRun(INITIAL, steps) && w < |Run(INITIAL, steps).workers|
    ensures var worker := Run(INITIAL, steps).workers[w];
            && worker.sent <= Gathered(INITIAL, steps, w)
            && (!worker.phase.Producing? ==> worker.sent == Gathered(INITIAL, steps, w))
  {
    hide Next, Enabled, Run, CanRun, Gathered;
    SentInOrder(INITIAL, steps, w);
    assert [] + Gathered(INITIAL, steps, w) == Gathered(INITIAL, steps, w);
  }

  // ----- progress -----

  /** The same step so many times. */
  function Repeated(step: Step, n: nat): (steps: seq<Step>)
    ensures |steps| == n && forall i :: 0 <= i < n ==> steps[i] == step
  {
    seq(n, i => step)
  }

  /** The state with another worker w. */
  function With(s: State, w: nat, worker: Worker): State
    requires w < |s.workers|
  {
    s.(workers := s.workers[w := worker])
  }

  lemma FirstOfRepeated(s: State, step: Step, n: nat)
    requires n > 0 && Enabled(s, step)
    ensures CanRun(s, Repeated(step, n)) <==> CanRun(Next(s, step), Repeated(step, n - 1))
    ensures CanRun(s, Repeated(step, n)) ==>
              Run(s, Repeated(step, n)) == Run(Next(s, step), Repeated(step, n - 1))
  {
    hide Next, Enabled;
    assert Repeated(step, n)[1..] == Repeated(step, n - 1);
  }

  lemma NoneRepeated(s: State, step: Step)
    ensures CanRun(s, Repeated(step, 0)) && Run(s, Repeated(step, 0)) == s
  {
  }

  lemma StepsTo(s: State, w: nat, look: Look, worker: Worker)
    requires Enabled(s, Work(w, look)) && WorkStep(s.workers[w], look) == worker && worker.phase != Freed
    ensures Next(s, Work(w, look)) == With(s, w, worker)
  {
    hide Repository.World.Defined, AnswerTo, RoundOf, WorkPhase;
  }

  lemma WithTwice(s: State, w: nat, a: Worker, b: Worker)
    requires w < |s.workers|
    ensures With(With(s, w, a), w, b) == With(s, w, b)
  {
    assert s.workers[w := a][w := b] == s.workers[w := b];
  }

  /** From the middle of a round, the rest of it is produced and the worker is back at its flag. */
  lemma {:induction false} RestIsSent(s: State, w: nat, look: Look)
    requires w < |s.workers| && s.workers[w].phase.Producing? && look.world.Defined()
    ensures var worker, steps := s.workers[w], Repeated(Work(w, look), |s.workers[w].phase.unsent| + 2);
            && CanRun(s, steps)
            && Run(s, steps) == With(s, w, worker.(phase := Checking, sent := worker.sent + worker.phase.unsent))
    decreases |s.workers[w].phase.unsent|
  {
    hide Next, Run, CanRun, Repository.World.Defined, With, Repeated;
    var step, worker := Work(w, look), s.workers[w];
    var unsent := worker.phase.unsent;
    var next := WorkStep(worker, look);
    StepsTo(s, w, look, next);
    FirstOfRepeated(s, step, |unsent| + 2);
    var t := With(s, w, next);
    WorkerOfWith(s, w, next);
    if unsent == [] {
      BackFromSleep(t, w, look);
      assert worker.sent + unsent == worker.sent;
      WithTwice(s, w, next, worker.(phase := Checking));
    } else {
      RestIsSent(t, w, look);
      assert worker.sent + [unsent[0]] + unsent[1..] == worker.sent + unsent;
      WithTwice(s, w, next, worker.(phase := Checking, sent := worker.sent + unsent));
    }
  }

  lemma WorkerOfWith(s: State, w: nat, worker: Worker)
    requires w < |s.workers|
    ensures |With(s, w, worker).workers| == |s.workers| && With(s, w, worker).workers[w] == worker
  {
  }

  lemma BackFromSleep(s: State, w: nat, look: Look)
    requires w < |s.workers| && s.workers[w].phase == Sleeping && look.world.Defined()
    ensures CanRun(s, Repeated(Work(w, look), 1))
    ensures Run(s, Repeated(Work(w, look), 1)) == With(s, w, s.workers[w].(phase := Checking))
  {
    hide Next, Repository.World.Defined, With;
    var step := Work(w, look);
    StepsTo(s, w, look, WorkStep(s.workers[w], look));
    FirstOfRepeated(s, step, 1);
    NoneRepeated(Next(s, step), step);
  }

  /** A worker at its flag, which is not set, fetches what its duty asks for, sends all of it and comes back. */
  lemma RoundIsSent(s: State, w: nat, look: Look)
    requires w < |s.workers| && s.workers[w].phase == Checking && !s.workers[w].stop
    requires look.world.Defined() && AnswerTo(s.workers[w].duty, look).Ok?
    ensures var worker, round := s.workers[w], RoundOf(s.workers[w].duty, look);
            var steps := Repeated(Work(w, look), |round| + 4);
            && CanRun(s, steps)
            && Run(s, steps) == With(s, w, worker.(rounds := worker.rounds + 1, sent := worker.sent + round))
  {
    hide Next, Run, CanRun, Repository.World.Defined, With, Repeated, RoundOf, AnswerTo;
    var step, worker, round := Work(w, look), s.workers[w], RoundOf(s.workers[w].duty, look);
    var a := WorkStep(worker, look);
    StepsTo(s, w, look, a);
    FirstOfRepeated(s, step, |round| + 4);
    var t := With(s, w, a);
    WorkerOfWith(s, w, a);
    var b := WorkStep(a, look);
    StepsTo(t, w, look, b);
    FirstOfRepeated(t, step, |round| + 3);
    WithTwice(s, w, a, b);
    WorkerOfWith(s, w, b);
    RestIsSent(With(s, w, b), w, look);
    WithTwice(s, w, b, worker.(rounds := worker.rounds + 1, sent := worker.sent + round));
  }

  /** A round whose answer throws sends nothing and leads back to the flag as well. */
  lemma FailedRound(s: State, w: nat, look: Look)
    requires w < |s.workers| && s.workers[w].phase == Checking && !s.workers[w].stop
    requires look.world.Defined() && AnswerTo(s.workers[w].duty, look).Throws?
    ensures var worker, steps := s.workers[w], Repeated(Work(w, look), 3);
            CanRun(s, steps) && Run(s, steps) == With(s, w, worker.(rounds := worker.rounds + 1))
  {
    hide Next, Run, CanRun, Repository.World.Defined, With, Repeated, RoundOf, AnswerTo;
    var step, worker := Work(w, look), s.workers[w];
    var a := WorkStep(worker, look);
    StepsTo(s, w, look, a);
    FirstOfRepeated(s, step, 3);
    var t := With(s, w, a);
    WorkerOfWith(s, w, a);
    var b := WorkStep(a, look);
    StepsTo(t, w, look, b);
    FirstOfRepeated(t, step, 2);
    WithTwice(s, w, a, b);
    WorkerOfWith(s, w, b);
    BackFromSleep(With(s, w, b), w, look);
    WithTwice(s, w, b, worker.(rounds := worker.rounds + 1));
  }

  /** A stopped worker frees itself in at most so many steps of its own. */
  lemma {:induction false} StoppedFreesItself(s: State, w: nat, look: Look) returns (n: nat)
    requires w < |s.workers| && s.workers[w].stop && look.world.Defined()
    ensures n <= Potential(s.workers[w].phase) + |RoundOf(s.workers[w].duty, look)|
    ensures s.workers[w].phase != Fetching ==> n <= Potential(s.workers[w].phase)
    ensures CanRun(s, Repeated(Work(w, look), n))
    ensures var t := Run(s, Repeated(Work(w, look), n));
            w < |t.workers| && t.workers[w].phase == Freed
    decreases if s.workers[w].phase == Fetching then |RoundOf(s.workers[w].duty, look)| + 6
              else Potential(s.workers[w].phase)
  {
    hide Run, CanRun, Repository.World.Defined, Repeated, RoundOf, AnswerTo;
    var step := Work(w, look);
    if s.workers[w].phase == Freed {
      n := 0;
      NoneRepeated(s, step);
    } else {
      n := StoppedFreesItself(Next(s, step), w, look);
      FirstOfRepeated(s, step, n + 1);
      n := n + 1;
    }
  }

  /**
   * In every reachable state, a clearing under way or not, each worker that is
   * not freed can take its next step. From its flag it completes a round and
   * has sent exactly the messages of that round, or none if fetching throws;
   * and once it is stopped it can free itself by steps of its own.
   */
  lemma WorkersMakeProgress(steps: seq<Step>, w: nat, look: Look)
    requires CanRun(INITIAL, steps) && w < |Run(INITIAL, steps).workers| && look.world.Defined()
    ensures var s := Run(INITIAL, steps);
            var worker, round := s.workers[w], RoundOf(s.workers[w].duty, look);
            && (worker.phase != Freed ==> Enabled(s, Work(w, look)))
            && (worker.phase == Checking && !worker.stop && AnswerTo(worker.duty, look).Ok? ==>
                  && CanRun(s, Repeated(Work(w, look), |round| + 4))
                  && var t := Run(s, Repeated(Work(w, look), |round| + 4));
                  && w < |t.workers| && t.workers[w].phase == Checking
                  && t.workers[w].rounds == worker.rounds + 1 && t.workers[w].sent == worker.sent + round)
            && (worker.phase == Checking && !worker.stop && AnswerTo(worker.duty, look).Throws? ==>
                  && CanRun(s, Repeated(Work(w, look), 3))
                  && var t := Run(s, Repeated(Work(w, look), 3));
                  && w < |t.workers| && t.workers[w].phase == Checking && t.workers[w].sent == worker.sent)
            && (worker.stop ==>
                  exists n: nat :: CanRun(s, Repeated(Work(w, look), n))
                    && w < |Run(s, Repeated(Work(w, look), n)).workers|
                    && Run(s, Repeated(Work(w, look), n)).workers[w].phase == Freed)
  {
    hide Next, Run, CanRun, Repository.World.Defined, Repeated, RoundOf, AnswerTo;
    var s := Run(INITIAL, steps);
    var worker := s.workers[w];
    if worker.stop {
      var n := StoppedFreesItself(s, w, look);
    } else if worker.phase == Checking {
      if AnswerTo(worker.duty, look).Ok? {
        RoundIsSent(s, w, look);
      } else {
        FailedRound(s, w, look);
      }
    }
  }

  // ----- the WorkerProps -----

  /** In every reachable state a WorkerProp, with its filter, is there exactly until its one worker is freed. */
  lemma PropsFollowWorkers(steps: seq<Step>, p: nat)
    requires CanRun(INITIAL, steps)
    ensures var s := Run(INITIAL, steps);
            && (p in s.props <==>
                && p < s.made
                && forall w :: 0 <= w < |s.workers| && s.workers[w].prop == p ==> s.workers[w].phase != Freed)
            && (forall v, w :: 0 <= v < w < |s.workers| ==> s.workers[v].prop != s.workers[w].prop)
  {
    RunKeepsInv(INITIAL, steps);
    var s := Run(INITIAL, steps);
    if p < s.made && !Unowned(s, p) {
      var w :| 0 <= w < |s.workers| && s.workers[w].prop == p;
    }
  }

  // ----- registration -----

  /** Whenever the repository is not being cleared, the registered worker of a topic is the first one added for it. */
  lemma FirstRegistrationWins(steps: seq<Step>, broker: string, topic: string)
    requires CanRun(INITIAL, steps)
    ensures var s := Run(INITIAL, steps);
            Lookup(s, broker, topic) == FirstAdded(s.log, broker, topic)
  {
    RunKeepsInv(INITIAL, steps);
  }

  /** A worker that lost the registration to an earlier one is never stopped, and so never freed, however it goes on. */
  lemma {:induction false} UnregisteredRunsForever(s: State, steps: seq<Step>, w: nat)
    requires Inv(s) && CanRun(s, steps)
    requires w < |s.workers| && !s.workers[w].registered && s.mode != Constructing(w)
    ensures var t := Run(s, steps);
            w < |t.workers| && !t.workers[w].registered && !t.workers[w].stop && t.workers[w].phase != Freed
    decreases |steps|
  {
    if |steps| == 0 {
      assert WorkerOk(s, w);
    } else {
      StepKeepsInv(s, steps[0]);
      StaysUnregistered(s, steps[0], w);
      UnregisteredRunsForever(Next(s, steps[0]), steps[1..], w);
    }
  }

  lemma StaysUnregistered(s: State, step: Step, w: nat)
    requires Inv(s) && Enabled(s, step)
    requires w < |s.workers| && !s.workers[w].registered && s.mode != Constructing(w)
    ensures var t := Next(s, step);
            w < |t.workers| && !t.workers[w].registered && t.mode != Constructing(w)
  {
  }

  /** When a clearing ends, exactly the workers that were ever registered have been stopped. */
  lemma ClearingStopsTheRegistered(s: State, w: nat)
    requires Inv(s) && Enabled(s, EndClear) && w < |s.workers|
    ensures s.workers[w].stop <==> s.workers[w].registered
  {
    assert WorkerOk(s, w) && ClientOk(s, s.workers[w].client);
  }
}
