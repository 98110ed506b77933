/**
 * The manager thread: WorkerRepository and ConfigHandler as imperative code
 * over the state of Lifecycle. A schedule, given from outside, decides which
 * worker steps happen before each step of the manager; what is proved holds
 * for every schedule.
 */
module Reconfigure {
  import opened Text
  import opened Lifecycle
  import Parser
  import opened Filters
  import Rendering
  import Repository
  import Selection
  import opened Sending
  import Tokenizer

  const SUCCESS := 0
  const UNKNOWN := 999

  datatype Reply = Reply(cmd: int, coordId: string, error: int)

  /** One topic of a configuration; ill-typed when some JSON conversion throws. */
  datatype Topic =
    | IllTyped
    | Topic(broker: string, topicName: string, interval: int, projection: seq<Attribute>, prefixCommand: string)
  {
    /** Reading the selection never takes the top of an empty stack. */
    predicate Defined() {
      Topic? ==> Parser.ParseText(prefixCommand) != Parser.Undefined
    }

    predicate Accepted() {
      Topic? && Parser.ParseText(prefixCommand).Built?
    }
  }

  /**
   * `topics` is None when the payload is no JSON object with an array of
   * topics; `metadata` is that of the responder, sent along as headers.
   */
  datatype Request = Request(cmd: int, coordId: string, topics: Option<seq<Topic>>, metadata: seq<Rendering.Header>)

  /** Worker steps that the scheduler lets happen in one go. */
  type Slot = seq<(nat, Look)>

  /** Everything the manager relies on is the same: worker threads send, drop references and delete their props. */
  ghost predicate Undisturbed(s: State, t: State) {
    && |t.workers| == |s.workers|
    && (forall w :: 0 <= w < |s.workers| ==>
          SameWorker(s.workers[w], t.workers[w]) && t.workers[w].stop == s.workers[w].stop)
    && |t.clients| == |s.clients|
    && (forall c :: 0 <= c < |s.clients| ==>
          t.clients[c] == s.clients[c].(references := t.clients[c].references))
    && t.producers == s.producers && t.mode == s.mode && t.log == s.log && t.made == s.made
  }

  predicate SameWorker(a: Worker, b: Worker) {
    && a.client == b.client && a.topic == b.topic && a.prop == b.prop && a.duty == b.duty
    && a.registered == b.registered
  }

  predicate AllAccepted(topics: seq<Topic>) {
    forall i :: 0 <= i < |topics| ==> topics[i].Accepted()
  }

  /** What addWorker needs of an accepted topic. */
  datatype Job = Job(broker: string, topicName: string, duty: Duty)

  /** The worker of a topic sends that topic's selection and projection with the responder's metadata. */
  function JobOf(topic: Topic, metadata: seq<Rendering.Header>): Job
    requires topic.Accepted()
  {
    var selection := Parser.ParseText(topic.prefixCommand).selection;
    Job(topic.broker, topic.topicName, Duty(selection, topic.projection, metadata, topic.interval))
  }

  /** The jobs of a configuration; none at all when one topic is not accepted. */
  function JobsOf(topics: seq<Topic>, metadata: seq<Rendering.Header>): (r: Option<seq<Job>>)
    ensures r.Some? <==> AllAccepted(topics)
    ensures r.Some? ==> |r.value| == |topics|
    ensures r.Some? ==> forall i :: 0 <= i < |topics| ==>
              topics[i].Accepted() && r.value[i] == JobOf(topics[i], metadata)
  {
    if topics == [] then Some([])
    else if !topics[0].Accepted() then None
    else Behind([JobOf(topics[0], metadata)], JobsOf(topics[1..], metadata))
  }

  function Behind(jobs: seq<Job>, rest: Option<seq<Job>>): Option<seq<Job>> {
    if rest.Some? then Some(jobs + rest.value) else None
  }

  /** How many topics are read before the first that throws; each has its WorkerProp by then. */
  function ReadUntil(topics: seq<Topic>): (k: nat)
    ensures k <= |topics|
    ensures forall i :: 0 <= i < k ==> topics[i].Accepted()
    ensures k < |topics| ==> !topics[k].Accepted()
  {
    if |topics| == 0 || !topics[0].Accepted() then 0 else 1 + ReadUntil(topics[1..])
  }

  /** How many jobs come before the first whose broker gets no producer. */
  function Startable(jobs: seq<Job>, creatable: string -> bool): (k: nat)
    ensures k <= |jobs|
    ensures forall i :: 0 <= i < k ==> creatable(jobs[i].broker)
    ensures k < |jobs| ==> !creatable(jobs[k].broker)
  {
    if jobs == [] || !creatable(jobs[0].broker) then 0 else 1 + Startable(jobs[1..], creatable)
  }

  /** The log of adding a worker for each job, numbered from n. */
  function AddedFor(jobs: seq<Job>, n: nat): (log: seq<Added>)
    ensures |log| == |jobs|
    ensures forall i :: 0 <= i < |jobs| ==> log[i] == Added(jobs[i].broker, jobs[i].topicName, n + i)
  {
    seq(|jobs|, i requires 0 <= i < |jobs| => Added(jobs[i].broker, jobs[i].topicName, n + i))
  }

  function Brokers(jobs: seq<Job>): set<string> {
    set j | j in jobs :: j.broker
  }

  /** Every worker so far is stopped exactly if it was registered. */
  ghost predicate AllRegisteredStopped(before: State, after: State) {
    && |before.workers| <= |after.workers|
    && forall w :: 0 <= w < |before.workers| ==>
         && SameWorker(before.workers[w], after.workers[w])
         && after.workers[w].stop == before.workers[w].registered
  }

  /** From worker n on there is one running worker per job, with the client of its broker; no other broker is served. */
  ghost predicate Started(s: State, n: nat, jobs: seq<Job>) {
    && |s.workers| == n + |jobs|
    && s.log == AddedFor(jobs, n)
    && s.producers.Keys == Brokers(jobs)
    && (forall w :: n <= w < |s.workers| ==> StartedFor(s, n, jobs, w))
  }

  predicate StartedFor(s: State, n: nat, jobs: seq<Job>, w: nat)
    requires n <= w < |s.workers| == n + |jobs|
  {
    var job := jobs[w - n];
    && job.broker in s.producers && s.workers[w].client == s.producers[job.broker]
    && s.workers[w].topic == job.topicName && s.workers[w].duty == job.duty && !s.workers[w].stop
  }

  class Manager {
    var st: State
    var replies: seq<Reply>
    var schedule: seq<Slot>
    const creatable: string -> bool
    ghost var trace: seq<Step>

    /** The state is one that the interleaved threads can reach. */
    ghost predicate Valid()
      reads this`st, this`trace
    {
      CanRun(INITIAL, trace) && st == Run(INITIAL, trace)
    }

    constructor (schedule: seq<Slot>, creatable: string -> bool)
      ensures Valid() && st == INITIAL && replies == []
    {
      this.schedule, this.creatable := schedule, creatable;
      st, replies, trace := INITIAL, [], [];
    }

    lemma Reachable()
      requires Valid()
      ensures Inv(st)
    {
      RunKeepsInv(INITIAL, trace);
    }

    lemma ProducersServe()
      requires Valid()
      ensures ProducersOk(st)
    {
      RunKeepsInv(INITIAL, trace);
    }

    lemma BeingRegistered()
      requires Valid() && st.mode.Constructing?
      ensures Enabled(st, Register)
    {
      RunKeepsInv(INITIAL, trace);
      assert WorkerOk(st, st.mode.worker);
    }

    /** One atomic step of some thread. */
    method Do(step: Step)
      requires Valid() && Enabled(st, step)
      modifies this`st, this`trace
      ensures Valid() && st == Next(old(st), step)
      ensures Safe(old(st), step)
    {
      hide Enabled, Next, Safe;
      EveryStepIsSafe(trace, step);
      RunOneMore(INITIAL, trace, step);
      st := Next(st, step);
      trace := trace + [step];
    }

    /** The worker steps of the next slot of the schedule. */
    method Yield()
      requires Valid()
      modifies this`st, this`trace, this`schedule
      ensures Valid() && Undisturbed(old(st), st)
    {
      if |schedule| == 0 {
        return;
      }
      var slot := schedule[0];
      schedule := schedule[1..];
      for i := 0 to |slot|
        invariant Valid() && Undisturbed(old(st), st)
      {
        var (w, look) := slot[i];
        if Enabled(st, Work(w, look)) {
          Do(Work(w, look));
        }
      }
    }

    /** clearAll: deletes every client, which stops its workers one by one, then empties the map. */
    method ClearAll()
      requires Valid() && st.mode == Ready
      modifies this`st, this`trace, this`schedule
      ensures Valid() && st.mode == Ready
      ensures st.producers == map[] && st.log == []
      ensures |st.workers| == |old(st).workers| && AllRegisteredStopped(old(st), st)
      ensures st.made == old(st).made
    {
      hide Valid, Inv;
      Yield();
      ProducersServe();
      Do(StartClear);
      DeleteClients();
      Yield();
      Reachable();
      forall w | 0 <= w < |st.workers|
        ensures st.workers[w].stop == st.workers[w].registered
      {
        ClearingStopsTheRegistered(st, w);
      }
      Do(EndClear);
    }

    /** The loop of clearAll over the map of producers. */
    method DeleteClients()
      requires Valid() && st.mode == Clearing
      requires forall b :: b in st.producers ==>
                 st.producers[b] < |st.clients| && st.clients[st.producers[b]].status == Serving
      modifies this`st, this`trace, this`schedule
      ensures Valid() && st.mode == Clearing && st.producers == old(st).producers
      ensures WorkersKept(old(st), st)
      ensures forall b :: b in st.producers ==>
                st.producers[b] < |st.clients| && st.clients[st.producers[b]].status == Deleted
    {
      hide Valid;
      var todo := st.producers.Values;
      ghost var producers := st.producers;
      while todo != {}
        invariant Valid() && st.mode == Clearing && st.producers == producers
        invariant WorkersKept(old(st), st)
        invariant forall b :: b in producers ==>
                    && producers[b] < |st.clients|
                    && st.clients[producers[b]].status == if producers[b] in todo then Serving else Deleted
        invariant todo <= producers.Values
        decreases todo
      {
        var c :| c in todo;
        ghost var before := st;
        DeleteClient(c);
        WorkersKeptOn(old(st), before, st);
        todo := todo - {c};
      }
    }

    /** `delete` of one client: stop() on each worker in its map, then its reference to the producer goes. */
    method DeleteClient(c: nat)
      requires Valid() && st.mode == Clearing && c in st.producers.Values
      requires c < |st.clients| && st.clients[c].status == Serving
      modifies this`st, this`trace, this`schedule
      ensures Valid() && st.mode == Clearing && st.producers == old(st).producers
      ensures WorkersKept(old(st), st)
      ensures |st.clients| == |old(st).clients| && st.clients[c].status == Deleted
      ensures forall d :: 0 <= d < |st.clients| && d != c ==> st.clients[d].status == old(st).clients[d].status
    {
      hide Valid, Inv;
      Yield();
      Do(BeginDelete(c));
      var workers := st.clients[c].workers.Values;
      while workers != {}
        invariant Valid() && st.mode == Clearing && st.producers == old(st).producers
        invariant WorkersKept(old(st), st)
        invariant |st.clients| == |old(st).clients| && st.clients[c].status == Stopping(workers)
        invariant forall d :: 0 <= d < |st.clients| && d != c ==> st.clients[d].status == old(st).clients[d].status
        decreases workers
      {
        var w :| w in workers;
        Yield();
        Reachable();
        PendingExists(st, c, w);
        Do(Stop(c, w));
        workers := workers - {w};
      }
      Yield();
      Do(Drop(c));
    }

    /** addWorker: creates the client of a new broker, starts the worker, and inserts it unless the topic is taken. */
    method AddWorker(broker: string, topic: string, prop: nat, duty: Duty) returns (ok: bool)
      requires Valid() && st.mode == Ready && prop < st.made && Unowned(st, prop)
      modifies this`st, this`trace, this`schedule
      ensures Valid() && st.mode == Ready
      ensures ok == (broker in old(st).producers || creatable(broker))
      ensures !ok ==> Undisturbed(old(st), st)
      ensures ok ==> OneMore(old(st), st, Job(broker, topic, duty), prop)
    {
      hide Valid;
      if broker !in st.producers {
        if !creatable(broker) {
          return false;
        }
        CreateClient(broker);
      }
      StartWorker(broker, topic, prop, duty);
      ok := true;
    }

    method CreateClient(broker: string)
      requires Valid() && st.mode == Ready && broker !in st.producers
      modifies this`st, this`trace, this`schedule
      ensures Valid() && st.mode == Ready
      ensures st.producers == old(st).producers[broker := |old(st).clients|] && st.log == old(st).log
      ensures |st.workers| == |old(st).workers| && OldWorkersKept(old(st), st) && st.made == old(st).made
    {
      hide Valid;
      Yield();
      Do(NewClient(broker));
    }

    /** The constructor of the worker starts its thread, which may run before the worker is in the map. */
    method StartWorker(broker: string, topic: string, prop: nat, duty: Duty)
      requires Valid() && st.mode == Ready && broker in st.producers && prop < st.made && Unowned(st, prop)
      modifies this`st, this`trace, this`schedule
      ensures Valid() && st.mode == Ready
      ensures OneMore(old(st), st, Job(broker, topic, duty), prop) && st.producers == old(st).producers
    {
      hide Valid;
      Yield();
      ProducersServe();
      Do(Spawn(broker, topic, prop, duty));
      ghost var spawned := st;
      Yield();
      BeingRegistered();
      Do(Register);
    }

    /**
     * ConfigHandler::handle. Not completed means that an exception leaves the
     * handler: from parsing the payload, before anything else, or from
     * creating a producer, after all topics were accepted.
     */
    method Handle(request: Request) returns (completed: bool)
      requires Valid() && st.mode == Ready
      requires request.topics.Some? ==>
                 forall i :: 0 <= i < |request.topics.value| ==> request.topics.value[i].Defined()
      modifies this
      ensures Valid() && st.mode == Ready
      ensures request.topics.None? ==> !completed && st == old(st) && replies == old(replies)
      ensures request.topics.Some? ==> AllRegisteredStopped(old(st), st)
      ensures request.topics.Some? && !AllAccepted(request.topics.value) ==>
                && completed && replies == old(replies) + [Reply(request.cmd, request.coordId, 999)]
                && Started(st, |old(st).workers|, [])
                && st.made == old(st).made + ReadUntil(request.topics.value)
      ensures request.topics.Some? && AllAccepted(request.topics.value) ==>
                var jobs := JobsOf(request.topics.value, request.metadata).value;
                var k := Startable(jobs, creatable);
                && completed == (k == |jobs|)
                && replies == old(replies) + (if completed then [Reply(request.cmd, request.coordId, 0)] else [])
                && Started(st, |old(st).workers|, jobs[..k])
                && st.made == old(st).made + |jobs|
      ensures request.topics.Some? ==> PropsGiven(st, |old(st).workers|, old(st).made)
    {
      hide Valid, Topic.Accepted, Topic.Defined, Started, AllRegisteredStopped, OldWorkersKept;
      if request.topics.None? {
        return false;
      }
      ghost var before := st;
      ClearAll();
      var props := st.made;
      ghost var cleared := st;
      Reachable();
      NothingStarted(cleared, |before.workers|);
      var jobs := ReadTopics(request.topics.value, request.metadata);
      ghost var read := st;
      StillStopped(before, cleared, read);
      OwnedBefore(cleared, read, props);
      NothingStarted(read, |before.workers|);
      if jobs.None? {
        replies := replies + [Reply(request.cmd, request.coordId, UNKNOWN)];
        return true;
      }
      completed := StartAll(jobs.value, props);
      StillStopped(before, read, st);
      if completed {
        replies := replies + [Reply(request.cmd, request.coordId, SUCCESS)];
      }
    }

    method MakeProp()
      requires Valid() && st.mode == Ready
      modifies this`st, this`trace, this`schedule
      ensures Valid() && st.mode == Ready && st.made == old(st).made + 1
      ensures |st.workers| == |old(st).workers| && OldWorkersKept(old(st), st)
      ensures st.producers == old(st).producers && st.log == old(st).log
    {
      hide Valid;
      Yield();
      Do(NewProp);
    }

    /** The first loop of the handler: a WorkerProp for each topic, until the first one that throws. */
    method ReadTopics(topics: seq<Topic>, metadata: seq<Rendering.Header>) returns (r: Option<seq<Job>>)
      requires Valid() && st.mode == Ready
      requires forall i :: 0 <= i < |topics| ==> topics[i].Defined()
      modifies this`st, this`trace, this`schedule
      ensures Valid() && st.mode == Ready
      ensures r == JobsOf(topics, metadata)
      ensures st.made == old(st).made + ReadUntil(topics)
      ensures |st.workers| == |old(st).workers| && OldWorkersKept(old(st), st)
      ensures st.producers == old(st).producers && st.log == old(st).log
    {
      hide Valid, Topic.Accepted, OldWorkersKept;
      var jobs: seq<Job> := [];
      assert topics[0..] == topics;
      BehindNothing(JobsOf(topics, metadata));
      KeptAtFirst(st);
      for i := 0 to |topics|
        invariant Valid() && st.mode == Ready
        invariant JobsOf(topics, metadata) == Behind(jobs, JobsOf(topics[i..], metadata))
        invariant st.made == old(st).made + i && ReadUntil(topics) == i + ReadUntil(topics[i..])
        invariant |st.workers| == |old(st).workers| && OldWorkersKept(old(st), st)
        invariant st.producers == old(st).producers && st.log == old(st).log
      {
        NextJob(topics, metadata, i, jobs);
        NextRead(topics, i);
        if !topics[i].Accepted() {
          return None;
        }
        ghost var before := st;
        MakeProp();
        StillKept(old(st), before, st);
        jobs := jobs + [JobOf(topics[i], metadata)];
      }
      JobsDone(topics, metadata, jobs);
      r := Some(jobs);
    }

    /** The second loop of the handler: the workers of the jobs, until a producer cannot be created. */
    method StartAll(jobs: seq<Job>, props: nat) returns (completed: bool)
      requires Valid() && st.mode == Ready && st.producers == map[] && st.log == []
      requires props + |jobs| == st.made && PropsGiven(st, |st.workers|, props)
      modifies this`st, this`trace, this`schedule
      ensures Valid() && st.mode == Ready
      ensures var k := Startable(jobs, creatable);
              completed == (k == |jobs|) && Started(st, |old(st).workers|, jobs[..k])
      ensures OldWorkersKept(old(st), st)
      ensures st.made == old(st).made && PropsGiven(st, |old(st).workers|, props)
    {
      hide Valid, Undisturbed, OneMore, Progress, Unowned;
      ProgressStarts(st, jobs, props);
      for i := 0 to |jobs|
        invariant Valid() && st.mode == Ready
        invariant i <= Startable(jobs, creatable)
        invariant Progress(old(st), st, jobs, i, props)
      {
        ProgressServes(old(st), st, jobs, i, props, creatable);
        ghost var before := st;
        var ok := AddWorker(jobs[i].broker, jobs[i].topicName, props + i, jobs[i].duty);
        if !ok {
          ProgressStays(old(st), before, st, jobs, i, props);
          ProgressEnds(old(st), st, jobs, i, props);
          return false;
        }
        ProgressNext(old(st), before, st, jobs, i, props);
      }
      ProgressEnds(old(st), st, jobs, |jobs|, props);
      completed := true;
    }
  }

  lemma BehindNothing(rest: Option<seq<Job>>)
    ensures Behind([], rest) == rest
  {
    if rest.Some? {
      assert [] + rest.value == rest.value;
    }
  }

  lemma NextJob(topics: seq<Topic>, metadata: seq<Rendering.Header>, i: nat, jobs: seq<Job>)
    requires i < |topics|
    ensures Behind(jobs, JobsOf(topics[i..], metadata)) ==
            if !topics[i].Accepted() then None
            else Behind(jobs + [JobOf(topics[i], metadata)], JobsOf(topics[i + 1..], metadata))
  {
    hide Parser.ParseText, JobOf;
    assert topics[i..][1..] == topics[i + 1..];
    assert topics[i..][0] == topics[i];
    if topics[i].Accepted() {
      BehindTwice(jobs, JobOf(topics[i], metadata), JobsOf(topics[i + 1..], metadata));
    }
  }

  lemma BehindTwice(jobs: seq<Job>, job: Job, rest: Option<seq<Job>>)
    ensures Behind(jobs, Behind([job], rest)) == Behind(jobs + [job], rest)
  {
    if rest.Some? {
      assert jobs + ([job] + rest.value) == jobs + [job] + rest.value;
    }
  }

  lemma NextRead(topics: seq<Topic>, i: nat)
    requires i < |topics|
    ensures ReadUntil(topics[i..]) == if topics[i].Accepted() then 1 + ReadUntil(topics[i + 1..]) else 0
  {
    assert topics[i..][1..] == topics[i + 1..];
  }

  lemma JobsDone(topics: seq<Topic>, metadata: seq<Rendering.Header>, jobs: seq<Job>)
    ensures Behind(jobs, JobsOf(topics[|topics|..], metadata)) == Some(jobs)
  {
    assert jobs + [] == jobs;
  }

  lemma {:induction false} RunOneMore(s: State, steps: seq<Step>, step: Step)
    requires CanRun(s, steps) && Enabled(Run(s, steps), step)
    ensures CanRun(s, steps + [step]) && Run(s, steps + [step]) == Next(Run(s, steps), step)
    decreases |steps|
  {
    hide Enabled, Next;
    if steps == [] {
      assert steps + [step] == [step] && [step][1..] == [];
    } else {
      assert (steps + [step])[1..] == steps[1..] + [step];
      RunOneMore(Next(s, steps[0]), steps[1..], step);
    }
  }

  ghost predicate WorkersKept(s: State, t: State) {
    && |t.workers| == |s.workers| && t.made == s.made
    && forall w :: 0 <= w < |s.workers| ==> SameWorker(s.workers[w], t.workers[w])
  }

  lemma WorkersKeptOn(r: State, s: State, t: State)
    requires WorkersKept(r, s) && WorkersKept(s, t)
    ensures WorkersKept(r, t)
  {
  }

  lemma PendingExists(s: State, c: nat, w: nat)
    requires Inv(s) && c < |s.clients| && s.clients[c].status.Stopping? && w in s.clients[c].status.pending
    ensures Enabled(s, Stop(c, w))
  {
    assert ClientOk(s, c);
    assert w in s.clients[c].workers.Values;
    var topic :| topic in s.clients[c].workers && s.clients[c].workers[topic] == w;
    assert RegisteredAs(s, c, topic, w);
  }

  /** One worker was added at the end; the producers and workers there were before are the same. */
  ghost predicate OneMore(s: State, t: State, job: Job, prop: nat) {
    var n := |s.workers|;
    && |t.workers| == n + 1 && t.made == s.made && t.workers[n].prop == prop
    && t.log == s.log + [Added(job.broker, job.topicName, n)]
    && t.producers.Keys == s.producers.Keys + {job.broker}
    && (forall b :: b in s.producers ==> t.producers[b] == s.producers[b])
    && t.workers[n].client == t.producers[job.broker] && t.workers[n].topic == job.topicName
    && t.workers[n].duty == job.duty && !t.workers[n].stop
    && (forall w :: 0 <= w < n ==> SameWorker(s.workers[w], t.workers[w]) && t.workers[w].stop == s.workers[w].stop)
  }

  /** The workers of s are in t with the same stop flags. */
  ghost predicate OldWorkersKept(s: State, t: State) {
    && |s.workers| <= |t.workers|
    && forall w :: 0 <= w < |s.workers| ==>
         SameWorker(s.workers[w], t.workers[w]) && t.workers[w].stop == s.workers[w].stop
  }

  lemma UndisturbedStarted(s: State, t: State, n: nat, jobs: seq<Job>)
    requires Started(s, n, jobs) && Undisturbed(s, t)
    ensures Started(t, n, jobs)
  {
    forall w | n <= w < |t.workers|
      ensures StartedFor(t, n, jobs, w)
    {
      assert StartedFor(s, n, jobs, w);
    }
  }

  /** Workers from n on own the props from `props` on, in order, and earlier workers own earlier ones. */
  ghost predicate PropsGiven(s: State, n: nat, props: nat) {
    forall w :: 0 <= w < |s.workers| ==> if w < n then s.workers[w].prop < props else s.workers[w].prop == props + w - n
  }

  lemma NextPropIsUnowned(s: State, n: nat, jobs: seq<Job>, props: nat)
    requires Started(s, n, jobs) && PropsGiven(s, n, props)
    ensures Unowned(s, props + |jobs|)
  {
  }

  lemma UndisturbedGiven(s: State, t: State, n: nat, props: nat)
    requires PropsGiven(s, n, props) && Undisturbed(s, t)
    ensures t.made == s.made && PropsGiven(t, n, props)
  {
  }

  lemma OneMoreGiven(s: State, t: State, n: nat, jobs: seq<Job>, i: nat, props: nat)
    requires i < |jobs| && Started(s, n, jobs[..i]) && PropsGiven(s, n, props)
    requires OneMore(s, t, jobs[i], props + i)
    ensures t.made == s.made && PropsGiven(t, n, props)
  {
  }

  /** All workers that there are own props made so far. */
  lemma OwnedBefore(s: State, t: State, props: nat)
    requires Inv(s) && s.made == props && OldWorkersKept(s, t) && |t.workers| == |s.workers|
    ensures PropsGiven(t, |t.workers|, props)
  {
    hide WorkersOk, ClientsOk, LogOk, ProducersOk, ModeOk;
  }

  lemma KeptAtFirst(s: State)
    ensures OldWorkersKept(s, s)
  {
  }

  lemma StillKept(r: State, s: State, t: State)
    requires OldWorkersKept(r, s) && OldWorkersKept(s, t)
    ensures OldWorkersKept(r, t)
  {
  }

  lemma UndisturbedKeeps(r: State, s: State, t: State)
    requires OldWorkersKept(r, s) && Undisturbed(s, t)
    ensures OldWorkersKept(r, t)
  {
  }

  lemma OneMoreKeeps(r: State, s: State, t: State, job: Job, prop: nat)
    requires OldWorkersKept(r, s) && OneMore(s, t, job, prop)
    ensures OldWorkersKept(r, t)
  {
  }

  lemma NothingStarted(s: State, n: nat)
    requires |s.workers| == n && s.producers == map[] && s.log == []
    ensures Started(s, n, [])
  {
  }

  lemma StillStopped(before: State, cleared: State, after: State)
    requires AllRegisteredStopped(before, cleared) && |before.workers| == |cleared.workers|
    requires OldWorkersKept(cleared, after)
    ensures AllRegisteredStopped(before, after)
  {
  }

  lemma BrokersAppend(jobs: seq<Job>, job: Job)
    ensures Brokers(jobs + [job]) == Brokers(jobs) + {job.broker}
  {
    assert job in jobs + [job];
    assert forall j :: j in jobs ==> j in jobs + [job];
  }

  lemma AddedForAppend(jobs: seq<Job>, job: Job, n: nat)
    ensures AddedFor(jobs + [job], n) == AddedFor(jobs, n) + [Added(job.broker, job.topicName, n + |jobs|)]
  {
  }

  lemma OneMoreStarted(s: State, t: State, n: nat, jobs: seq<Job>, i: nat, prop: nat)
    requires i < |jobs|
    requires Started(s, n, jobs[..i]) && OneMore(s, t, jobs[i], prop)
    ensures Started(t, n, jobs[..i + 1])
  {
    hide AddedFor, Brokers;
    var done, job := jobs[..i], jobs[i];
    assert jobs[..i + 1] == done + [job];
    BrokersAppend(done, job);
    AddedForAppend(done, job, n);
    forall w | n <= w < |t.workers|
      ensures StartedFor(t, n, done + [job], w)
    {
      if w < n + i {
        assert StartedFor(s, n, done, w);
      }
    }
  }

  lemma {:induction false} StartableStep(jobs: seq<Job>, i: nat, creatable: string -> bool)
    requires i < |jobs| && i <= Startable(jobs, creatable)
    ensures Startable(jobs, creatable) > i <==> creatable(jobs[i].broker)
  {
    if i == 0 {
    } else {
      StartableStep(jobs[1..], i - 1, creatable);
    }
  }

  lemma ServedAreCreatable(jobs: seq<Job>, i: nat, creatable: string -> bool)
    requires i <= Startable(jobs, creatable)
    ensures forall b :: b in Brokers(jobs[..i]) ==> creatable(b)
  {
  }

  /** What StartAll has achieved from state r to s with its first i jobs. */
  ghost predicate Progress(r: State, s: State, jobs: seq<Job>, i: nat, props: nat) {
    && i <= |jobs| && Started(s, |r.workers|, jobs[..i])
    && OldWorkersKept(r, s)
    && s.made == r.made == props + |jobs| && PropsGiven(s, |r.workers|, props)
  }

  lemma ProgressStarts(r: State, jobs: seq<Job>, props: nat)
    requires r.producers == map[] && r.log == []
    requires r.made == props + |jobs| && PropsGiven(r, |r.workers|, props)
    ensures Progress(r, r, jobs, 0, props)
  {
    NothingStarted(r, |r.workers|);
    assert jobs[..0] == [];
  }

  lemma ProgressServes(r: State, s: State, jobs: seq<Job>, i: nat, props: nat, creatable: string -> bool)
    requires Progress(r, s, jobs, i, props) && i < |jobs| && i <= Startable(jobs, creatable)
    ensures props + i < s.made && Unowned(s, props + i)
    ensures forall b :: b in s.producers ==> creatable(b)
    ensures Startable(jobs, creatable) > i <==> creatable(jobs[i].broker)
  {
    hide OldWorkersKept, StartedFor, AddedFor;
    NextPropIsUnowned(s, |r.workers|, jobs[..i], props);
    ServedAreCreatable(jobs, i, creatable);
    StartableStep(jobs, i, creatable);
  }

  lemma ProgressStays(r: State, s: State, t: State, jobs: seq<Job>, i: nat, props: nat)
    requires Progress(r, s, jobs, i, props) && Undisturbed(s, t)
    ensures Progress(r, t, jobs, i, props)
  {
    hide OldWorkersKept, Started, Undisturbed, PropsGiven;
    UndisturbedStarted(s, t, |r.workers|, jobs[..i]);
    UndisturbedKeeps(r, s, t);
    UndisturbedGiven(s, t, |r.workers|, props);
  }

  lemma ProgressNext(r: State, s: State, t: State, jobs: seq<Job>, i: nat, props: nat)
    requires Progress(r, s, jobs, i, props) && i < |jobs| && OneMore(s, t, jobs[i], props + i)
    ensures Progress(r, t, jobs, i + 1, props)
  {
    hide OldWorkersKept, Started, OneMore, PropsGiven;
    OneMoreStarted(s, t, |r.workers|, jobs, i, props + i);
    OneMoreKeeps(r, s, t, jobs[i], props + i);
    OneMoreGiven(s, t, |r.workers|, jobs, i, props);
  }

  lemma ProgressEnds(r: State, s: State, jobs: seq<Job>, i: nat, props: nat)
    requires Progress(r, s, jobs, i, props)
    ensures Started(s, |r.workers|, jobs[..i]) && OldWorkersKept(r, s)
    ensures s.made == r.made && PropsGiven(s, |r.workers|, props)
  {
  }

  // ----- what a configuration leads to -----

  /**
   * The state the handler leaves: all jobs have their workers, and all their
   * brokers are served, exactly when every broker gets a producer; no job has
   * one exactly when there is none or the first broker gets no producer.
   */
  lemma AllOrNothing(s: State, n: nat, jobs: seq<Job>, creatable: string -> bool)
    requires Started(s, n, jobs[..Startable(jobs, creatable)])
    ensures Started(s, n, jobs) <==> forall j :: j in jobs ==> creatable(j.broker)
    ensures s.producers.Keys == Brokers(jobs) <==> forall j :: j in jobs ==> creatable(j.broker)
    ensures Started(s, n, []) <==> jobs == [] || !creatable(jobs[0].broker)
  {
    hide AddedFor, StartedFor;
    var k := Startable(jobs, creatable);
    assert jobs[..|jobs|] == jobs && jobs[..0] == [];
    if k < |jobs| {
      assert jobs[k] in jobs && jobs[k].broker in Brokers(jobs);
      ServedAreCreatable(jobs, k, creatable);
    }
  }

  /** No two jobs have the same broker and topic. */
  predicate DistinctJobs(jobs: seq<Job>) {
    forall i, j :: 0 <= i < j < |jobs| ==> !SameTopic(jobs[i], jobs[j])
  }

  predicate SameTopic(a: Job, b: Job) {
    a.broker == b.broker && a.topicName == b.topicName
  }

  /** The first entry of a broker and topic is this one exactly when none before it has both. */
  lemma {:induction false} FirstIsOwn(log: seq<Added>, i: nat)
    requires i < |log|
    requires forall j :: 0 <= j < i ==> log[j].worker != log[i].worker
    ensures FirstAdded(log, log[i].broker, log[i].topic) == Some(log[i].worker) <==>
            forall j :: 0 <= j < i ==> log[j].broker != log[i].broker || log[j].topic != log[i].topic
  {
    if i == 0 {
    } else {
      assert log[0].worker != log[i].worker;
      assert forall j :: 0 <= j < |log| - 1 ==> log[1..][j] == log[j + 1];
      assert forall j :: 0 < j < i ==> log[j] == log[1..][j - 1];
      FirstIsOwn(log[1..], i - 1);
    }
  }

  /**
   * After a configuration a new worker is registered, so that the next one
   * stops it, exactly when no earlier job has its broker and topic.
   */
  lemma RegisteredIffFirst(s: State, n: nat, jobs: seq<Job>, w: nat)
    requires Inv(s) && s.mode == Ready && Started(s, n, jobs) && n <= w < |s.workers|
    ensures s.workers[w].registered <==> !exists i :: 0 <= i < w - n && SameTopic(jobs[i], jobs[w - n])
  {
    hide Brokers, ModeOk, ProducersOk;
    var job := jobs[w - n];
    FirstIsOwn(s.log, w - n);
    assert s.log[w - n] == Added(job.broker, job.topicName, w);
    assert Lookup(s, job.broker, job.topicName) == FirstAdded(s.log, job.broker, job.topicName);
    assert StartedFor(s, n, jobs, w) && WorkerOk(s, w);
    var c := s.producers[job.broker];
    if Lookup(s, job.broker, job.topicName) == Some(w) {
      assert ClientOk(s, c);
      assert RegisteredAs(s, c, job.topicName, w);
    }
  }

  /** The new workers of distinct jobs are all registered. */
  lemma DistinctJobsAreRegistered(s: State, n: nat, jobs: seq<Job>)
    requires Inv(s) && s.mode == Ready && DistinctJobs(jobs) && Started(s, n, jobs)
    ensures forall w :: n <= w < |s.workers| ==> s.workers[w].registered
  {
    forall w | n <= w < |s.workers|
      ensures s.workers[w].registered
    {
      RegisteredIffFirst(s, n, jobs, w);
    }
  }

  /** The states with two props and a client, and with a first and a second worker for one broker and topic. */
  function Created(job: Job): State {
    State([], [Client(job.broker, map[], Serving, 1)], map[job.broker := 0], Ready, [], 2, {0, 1})
  }

  function WorkerOf(job: Job, prop: nat): Worker {
    Worker(0, job.topicName, prop, job.duty, Checking, false, 0, false, 0, [])
  }

  function Spawned(job: Job): State {
    State([WorkerOf(job, 0)], [Client(job.broker, map[], Serving, 2)], map[job.broker := 0], Constructing(0), [],
          2, {0, 1})
  }

  function AfterFirst(job: Job): State {
    State([WorkerOf(job, 0).(registered := true)], [Client(job.broker, map[job.topicName := 0], Serving, 2)],
          map[job.broker := 0], Ready, [Added(job.broker, job.topicName, 0)], 2, {0, 1})
  }

  function AfterSecond(job: Job): State {
    var s := AfterFirst(job);
    State(s.workers + [WorkerOf(job, 1)], [s.clients[0].(references := 3)], s.producers, Ready,
          s.log + [Added(job.broker, job.topicName, 1)], 2, {0, 1})
  }

  function SpawnOf(job: Job, prop: nat): Step {
    Spawn(job.broker, job.topicName, prop, job.duty)
  }

  lemma Then(s: State, step: Step, t: State, rest: seq<Step>)
    requires Enabled(s, step) && Next(s, step) == t
    ensures CanRun(s, [step] + rest) <==> CanRun(t, rest)
    ensures CanRun(t, rest) ==> Run(s, [step] + rest) == Run(t, rest)
  {
    hide Enabled, Next;
    assert ([step] + rest)[1..] == rest;
  }

  lemma RunsNowhere(s: State)
    ensures CanRun(s, []) && Run(s, []) == s
  {
  }

  lemma ClientIsCreated(job: Job)
    ensures var steps := [NewProp, NewProp, NewClient(job.broker)];
            CanRun(INITIAL, steps) && Run(INITIAL, steps) == Created(job)
  {
    hide Run, CanRun;
    var s1, s2 := INITIAL.(made := 1, props := {0}), INITIAL.(made := 2, props := {0, 1});
    var create := NewClient(job.broker);
    RunsNowhere(Created(job));
    assert [create] + [] == [create] && [NewProp] + [create] == [NewProp, create];
    Then(s2, create, Created(job), []);
    Then(s1, NewProp, s2, [create]);
    Then(INITIAL, NewProp, s1, [NewProp, create]);
    assert [NewProp] + [NewProp, create] == [NewProp, NewProp, create];
  }

  lemma FirstWorkerRuns(job: Job)
    ensures var steps := [SpawnOf(job, 0), Register];
            CanRun(Created(job), steps) && Run(Created(job), steps) == AfterFirst(job)
  {
    hide Run, CanRun;
    RunsNowhere(AfterFirst(job));
    assert [Register] + [] == [Register] && [SpawnOf(job, 0)] + [Register] == [SpawnOf(job, 0), Register];
    Then(Spawned(job), Register, AfterFirst(job), []);
    Then(Created(job), SpawnOf(job, 0), Spawned(job), [Register]);
  }

  lemma SecondWorkerRuns(job: Job)
    ensures var steps := [SpawnOf(job, 1), Register];
            CanRun(AfterFirst(job), steps) && Run(AfterFirst(job), steps) == AfterSecond(job)
  {
    hide Run, CanRun;
    var t := AfterSecond(job);
    var s := t.(mode := Constructing(1), log := AfterFirst(job).log);
    RunsNowhere(t);
    assert [Register] + [] == [Register] && [SpawnOf(job, 1)] + [Register] == [SpawnOf(job, 1), Register];
    Then(s, Register, t, []);
    Then(AfterFirst(job), SpawnOf(job, 1), s, [Register]);
  }

  lemma {:induction false} RunConcat(s: State, a: seq<Step>, b: seq<Step>)
    requires CanRun(s, a) && CanRun(Run(s, a), b)
    ensures CanRun(s, a + b) && Run(s, a + b) == Run(Run(s, a), b)
    decreases |a|
  {
    hide Enabled, Next;
    if |a| == 0 {
      assert a + b == b;
    } else {
      assert (a + b)[1..] == a[1..] + b;
      RunConcat(Next(s, a[0]), a[1..], b);
    }
  }

  /** Two jobs with one broker and topic, in a run that the threads can take: the second worker is not registered. */
  lemma DuplicateIsUnregistered(job: Job)
    ensures var steps := [NewProp, NewProp, NewClient(job.broker),
                          SpawnOf(job, 0), Register, SpawnOf(job, 1), Register];
            && CanRun(INITIAL, steps)
            && var s := Run(INITIAL, steps);
            && s.mode == Ready && Started(s, 0, [job, job])
            && s.workers[0].registered && !s.workers[1].registered
  {
    hide Run, CanRun, Started;
    var a := [NewProp, NewProp, NewClient(job.broker)];
    var b, c := [SpawnOf(job, 0), Register], [SpawnOf(job, 1), Register];
    ClientIsCreated(job);
    FirstWorkerRuns(job);
    SecondWorkerRuns(job);
    RunConcat(INITIAL, a, b);
    RunConcat(INITIAL, a + b, c);
    assert a + b + c
        == [NewProp, NewProp, NewClient(job.broker), SpawnOf(job, 0), Register, SpawnOf(job, 1), Register];
    TwoStarted(AfterSecond(job), job);
  }

  lemma TwoStarted(s: State, job: Job)
    requires |s.workers| == 2 && s.log == [Added(job.broker, job.topicName, 0), Added(job.broker, job.topicName, 1)]
    requires s.producers == map[job.broker := 0]
    requires forall w :: 0 <= w < 2 ==>
               var worker := s.workers[w];
               worker.client == 0 && worker.topic == job.topicName && worker.duty == job.duty && !worker.stop
    ensures Started(s, 0, [job, job])
  {
    assert Brokers([job, job]) == {job.broker} by {
      assert job in [job, job];
    }
  }

  /**
   * After a configuration, the workers that are registered and not stopped are
   * exactly the first ones of their broker and topic among the new; and those
   * not stopped are all the new ones and the old ones that were not registered.
   */
  lemma RunningAreTheJobs(before: State, after: State, jobs: seq<Job>)
    requires Inv(after) && after.mode == Ready
    requires AllRegisteredStopped(before, after) && Started(after, |before.workers|, jobs)
    ensures var n := |before.workers|;
            forall w :: 0 <= w < |after.workers| ==>
              (after.workers[w].registered && !after.workers[w].stop <==>
               w >= n && !exists i :: 0 <= i < w - n && SameTopic(jobs[i], jobs[w - n]))
    ensures forall w :: 0 <= w < |after.workers| ==>
              (!after.workers[w].stop <==> w >= |before.workers| || !before.workers[w].registered)
  {
    var n := |before.workers|;
    forall w | n <= w < |after.workers|
      ensures !after.workers[w].stop
      ensures after.workers[w].registered <==> !exists i :: 0 <= i < w - n && SameTopic(jobs[i], jobs[w - n])
    {
      assert StartedFor(after, n, jobs, w);
      RegisteredIffFirst(after, n, jobs, w);
    }
  }

  // ----- a history of configurations -----

  /** What one configuration does that starts these jobs, possibly none or not all of those it asks for. */
  ghost predicate Configured(before: State, after: State, jobs: seq<Job>) {
    && Inv(after) && after.mode == Ready
    && AllRegisteredStopped(before, after) && Started(after, |before.workers|, jobs)
  }

  /** states[i + 1] is what the i-th configuration leaves behind, from no worker at all. */
  ghost predicate History(states: seq<State>, jobs: seq<seq<Job>>) {
    && |states| == |jobs| + 1 && states[0].workers == []
    && forall i :: 0 <= i < |jobs| ==> Configured(states[i], states[i + 1], jobs[i])
  }

  lemma {:induction false} HistoryKeepsWorkers(states: seq<State>, jobs: seq<seq<Job>>, i: nat, k: nat)
    requires History(states, jobs) && i <= k < |states|
    ensures |states[i].workers| <= |states[k].workers|
    ensures forall w :: 0 <= w < |states[i].workers| ==>
              states[k].workers[w].registered == states[i].workers[w].registered
  {
    hide Inv, Started, SameWorker;
    if k == i {
    } else {
      HistoryKeepsWorkers(states, jobs, i, k - 1);
      ConfiguredKeeps(states[k - 1], states[k - 1 + 1], jobs[k - 1]);
    }
  }

  lemma ConfiguredKeeps(before: State, after: State, jobs: seq<Job>)
    requires Configured(before, after, jobs)
    ensures |before.workers| <= |after.workers|
    ensures forall w :: 0 <= w < |before.workers| ==> after.workers[w].registered == before.workers[w].registered
  {
    hide Inv, Started;
  }

  /**
   * After any history, a worker of its i-th configuration runs on exactly if
   * that was the last one or an earlier job of it had the same broker and topic.
   */
  lemma SurvivorsAreDuplicates(states: seq<State>, jobs: seq<seq<Job>>, i: nat, w: nat)
    requires History(states, jobs) && i < |jobs|
    requires |states[i].workers| <= w < |states[i + 1].workers|
    ensures w - |states[i].workers| < |jobs[i]| && w < |states[|jobs|].workers|
    ensures var j := w - |states[i].workers|;
            !states[|jobs|].workers[w].stop <==>
            i == |jobs| - 1 || exists k :: 0 <= k < j && SameTopic(jobs[i][k], jobs[i][j])
  {
    hide Inv, SameTopic, StartedFor;
    var last := |jobs| - 1;
    assert Configured(states[i], states[i + 1], jobs[i]);
    RegisteredIffFirst(states[i + 1], |states[i].workers|, jobs[i], w);
    assert Configured(states[last], states[last + 1], jobs[last]);
    HistoryKeepsWorkers(states, jobs, i + 1, |jobs|);
    RunningAreTheJobs(states[last], states[last + 1], jobs[last]);
    if i < last {
      HistoryKeepsWorkers(states, jobs, i + 1, last);
    }
  }

  /** If no configuration repeats a broker and topic, the running workers are exactly those of the last one. */
  lemma OnlyTheLastRuns(states: seq<State>, jobs: seq<seq<Job>>, w: nat)
    requires History(states, jobs) && jobs != [] && w < |states[|jobs|].workers|
    requires forall i :: 0 <= i < |jobs| ==> DistinctJobs(jobs[i])
    ensures !states[|jobs|].workers[w].stop <==> w >= |states[|jobs| - 1].workers|
  {
    hide Configured;
    var i := BornIn(states, jobs, |jobs|, w);
    SurvivorsAreDuplicates(states, jobs, i, w);
    assert DistinctJobs(jobs[i]);
    HistoryKeepsWorkers(states, jobs, i + 1, |jobs|);
    if i < |jobs| - 1 {
      HistoryKeepsWorkers(states, jobs, i + 1, |jobs| - 1);
    }
  }

  /** The configuration that a worker comes from. */
  lemma {:induction false} BornIn(states: seq<State>, jobs: seq<seq<Job>>, k: nat, w: nat) returns (i: nat)
    requires History(states, jobs) && k <= |jobs| && w < |states[k].workers|
    ensures i < k && |states[i].workers| <= w < |states[i + 1].workers|
  {
    hide Configured;
    if w < |states[k - 1].workers| {
      i := BornIn(states, jobs, k - 1, w);
    } else {
      i := k - 1;
    }
  }

  // ----- from the configuration to the messages -----

  /**
   * When the text of the i-th topic spells the tree e, with any white space,
   * each round of the i-th new worker, which sends to that topic through the
   * client of its broker, consists of the records that e selects when it
   * looks, projected as the topic asks, with the responder's metadata as
   * headers; and in any continuation it sends these rounds in order.
   */
  lemma WorkerServesItsTopic(s: State, n: nat, topics: seq<Topic>, metadata: seq<Rendering.Header>, i: nat,
                             e: Selection.Expr, lead: string, text: seq<Tokenizer.Spelling>,
                             look: Look, steps: seq<Step>)
    requires AllAccepted(topics) && Started(s, n, JobsOf(topics, metadata).value) && i < |topics|
    requires Selection.Writable(e) && Tokenizer.TokensOf(text) == Selection.Flatten(e)
    requires Tokenizer.Blanks(lead) && Tokenizer.Separated(text)
    requires topics[i].Topic? && topics[i].prefixCommand == lead + Tokenizer.SpellAll(text)
    requires look.world.Defined() && CanRun(s, steps)
    ensures n + i < |s.workers| && topics[i].broker in s.producers
    ensures var worker := s.workers[n + i];
            var q := Repository.Query(look.lib, topics[i].projection, Some(e), look.world.procs);
            && worker.topic == topics[i].topicName && worker.client == s.producers[topics[i].broker]
            && worker.duty.interval == topics[i].interval && !worker.stop
            && AnswerTo(worker.duty, look) == q.Answer(Repository.ListedPids(look.world.entries))
            && RoundOf(worker.duty, look) == Messages(q.Answer(Repository.ListedPids(look.world.entries)), metadata)
    ensures Backlog(Run(s, steps), n + i) == Backlog(s, n + i) + Gathered(s, steps, n + i)
    ensures n + i < |Run(s, steps).workers| && Run(s, steps).workers[n + i].duty == s.workers[n + i].duty
  {
    hide Parser.ParseText, Selection.Writable, Selection.Flatten, Tokenizer.TokensOf, Tokenizer.SpellAll;
    hide Run, CanRun, Backlog, Gathered, Repository.Query.Answer, Messages, Tokenizer.Separated;
    Parser.ParseTextRecoversTree(e, lead, text);
    assert topics[i].Accepted();
    assert StartedFor(s, n, JobsOf(topics, metadata).value, n + i);
    SentInOrder(s, steps, n + i);
  }

  /** And from its flag it can go through such a round, at the end of which all of its messages have been sent. */
  lemma WorkerSendsForItsTopic(s: State, n: nat, topics: seq<Topic>, metadata: seq<Rendering.Header>, i: nat,
                               e: Selection.Expr, lead: string, text: seq<Tokenizer.Spelling>, look: Look)
    requires AllAccepted(topics) && Started(s, n, JobsOf(topics, metadata).value) && i < |topics|
    requires Selection.Writable(e) && Tokenizer.TokensOf(text) == Selection.Flatten(e)
    requires Tokenizer.Blanks(lead) && Tokenizer.Separated(text)
    requires topics[i].Topic? && topics[i].prefixCommand == lead + Tokenizer.SpellAll(text)
    requires look.world.Defined() && n + i < |s.workers| && s.workers[n + i].phase == Checking
    requires var q := Repository.Query(look.lib, topics[i].projection, Some(e), look.world.procs);
             q.Answer(Repository.ListedPids(look.world.entries)).Ok?
    ensures var q := Repository.Query(look.lib, topics[i].projection, Some(e), look.world.procs);
            var answer := q.Answer(Repository.ListedPids(look.world.entries));
            var round := Repeated(Work(n + i, look), |answer.value| + 4);
            && CanRun(s, round) && n + i < |Run(s, round).workers|
            && Run(s, round).workers[n + i].sent == s.workers[n + i].sent + Messages(answer, metadata)
  {
    hide Selection.Writable, Selection.Flatten, Tokenizer.TokensOf, Tokenizer.SpellAll, Tokenizer.Separated;
    hide Run, CanRun, Started, Repeated, AnswerTo, RoundOf, Repository.Query.Answer, JobsOf, AllAccepted;
    NothingRuns(s);
    WorkerServesItsTopic(s, n, topics, metadata, i, e, lead, text, look, []);
    RoundIsSent(s, n + i, look);
  }

  lemma NothingRuns(s: State)
    ensures CanRun(s, [])
  {
  }

  /** A topic is accepted whatever its other fields say, if its text spells a tree. */
  lemma SpelledTopicIsAccepted(topic: Topic, e: Selection.Expr, lead: string, text: seq<Tokenizer.Spelling>)
    requires Selection.Writable(e) && Tokenizer.TokensOf(text) == Selection.Flatten(e)
    requires Tokenizer.Blanks(lead) && Tokenizer.Separated(text)
    requires topic.Topic? && topic.prefixCommand == lead + Tokenizer.SpellAll(text)
    ensures topic.Accepted() && Sending.Duty(e, topic.projection, [], topic.interval) == JobOf(topic, []).duty
  {
    hide Parser.ParseText, Selection.Writable, Selection.Flatten, Tokenizer.TokensOf, Tokenizer.SpellAll;
    Parser.ParseTextRecoversTree(e, lead, text);
  }

  // ----- who deletes the WorkerProps -----

  /**
   * The props that a configuration makes and gives to no worker, so that nobody
   * deletes them: none if it completes with all topics accepted; those of the
   * topics before the first that throws; or those from the first job on whose
   * broker gets no producer. Any other is there exactly until its worker is freed.
   */
  lemma LostProps(s: State, n: nat, props: nat, jobs: seq<Job>, p: nat)
    requires Inv(s) && Started(s, n, jobs) && PropsGiven(s, n, props) && p < s.made
    ensures p >= props ==> (Unowned(s, p) <==> p >= props + |jobs|)
    ensures Unowned(s, p) ==> p in s.props
    ensures forall w :: 0 <= w < |s.workers| && s.workers[w].prop == p ==>
              (p in s.props <==> s.workers[w].phase != Freed)
  {
    hide WorkersOk, ClientsOk, LogOk, ProducersOk, ModeOk;
    if props <= p < props + |jobs| {
      assert s.workers[n + p - props].prop == p;
    }
  }
}
