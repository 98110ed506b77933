/** One round of a worker: fetch the records, splice the headers in, produce the messages. */
module Sending {
  import opened Text
  import opened Snapshots
  import opened Evaluation
  import opened Filters
  import opened Rendering
  import opened Readback
  import opened Repository
  import opened Selection
  import Json

  /** What a worker was created to send, beside its topic (WorkerProp). */
  datatype Duty = Duty(selection: Expr, projection: seq<Attribute>, headers: seq<Header>, interval: int)

  /** What the library and the kernel tell while one call of getData runs. */
  datatype Look = Look(lib: Library, world: World)

  /** What getData gives a worker with this duty. */
  function AnswerTo(duty: Duty, look: Look): Outcome<seq<string>>
    requires look.world.Defined()
  {
    Query(look.lib, duty.projection, Some(duty.selection), look.world.procs).Answer(ListedPids(look.world.entries))
  }

  /** The messages of one round with this duty. */
  function RoundOf(duty: Duty, look: Look): seq<string>
    requires look.world.Defined()
  {
    Messages(AnswerTo(duty, look), duty.headers)
  }

  /** What one round with this answer produces; an exception from getData is caught and nothing is produced. */
  function Messages(answer: Outcome<seq<string>>, headers: seq<Header>): (r: seq<string>)
    ensures |r| == (if answer.Ok? then |answer.value| else 0)
    ensures forall i :: 0 <= i < |r| ==> r[i] == Payload(answer.value[i], headers)
  {
    if answer.Throws? then []
    else seq(|answer.value|, i requires 0 <= i < |answer.value| => Payload(answer.value[i], headers))
  }

  /** The body of the loop of _sendMessage. */
  method SendRound(filter: Filter, lib: Library, world: World, headers: seq<Header>) returns (produced: seq<string>)
    requires filter.Valid() && filter.kind == PROCESS && world.Defined()
    ensures var q := Query(lib, filter.projection, TreeOf(filter), world.procs);
            produced == Messages(q.Answer(ListedPids(world.entries)), headers)
  {
    hide Query.Answer, ListedPids, Payload, World.Defined, Filter.Valid;
    produced := [];
    var records := GetData(filter, lib, world);
    if records.Throws? {
      return;
    }
    for i := 0 to |records.value|
      invariant |produced| == i
      invariant forall j :: 0 <= j < i ==> produced[j] == Payload(records.value[j], headers)
    {
      var payload := Splice(records.value[i], headers);
      produced := produced + [payload];
    }
  }

  // ----- what the messages say -----

  /** The pids an answer visits: the one looked up, or all listed ones. */
  function Visited(q: Query, pids: seq<nat>): seq<nat>
    requires q.Defined() && q.Answer(pids).Ok?
  {
    var literal := if q.selection.Some? then FindPid(q.selection.value) else "";
    if literal != "" then [StoI(literal).value] else pids
  }

  lemma AnswerIsScan(q: Query, pids: seq<nat>)
    requires q.Defined() && q.Answer(pids).Ok?
    ensures q.Answer(pids) == q.Scan(Visited(q, pids))
  {
    hide StoI, Query.Visit;
    var literal := if q.selection.Some? then FindPid(q.selection.value) else "";
    if literal != "" {
      var p: nat := StoI(literal).value;
      assert [p][1..] == [];
      BothWithNothing(q.Visit(p));
    }
  }

  /**
   * From processes to readers: a round produces one message for each process
   * that the answer visits and the selection picks, and the i-th message is a
   * JSON object with the attributes of the i-th process and then the headers
   * exactly when these attributes read back and the headers are printable.
   */
  lemma MessagesReadBack(q: Query, pids: seq<nat>, headers: seq<Header>, i: nat)
    requires q.Defined() && q.Answer(pids).Ok?
    requires forall j :: 0 <= j < |q.projection| ==> AttrNamed(q.projection[j].name).Some?
    requires i < |Matching(q, Visited(q, pids))|
    ensures |Messages(q.Answer(pids), headers)| == |Matching(q, Visited(q, pids))|
    ensures var p := Matching(q, Visited(q, pids))[i];
            && AllPresent(q.projection, p, q.procs[p])
            && (Json.ReadObject(Messages(q.Answer(pids), headers)[i])
                == Some(RecordMembers(q.projection, p, q.procs[p]) + HeaderMembers(headers)) <==>
                && (q.projection != [] || headers == [])
                && AllReadBack(q.projection, p, q.procs[p]) && AllPrintable(headers))
  {
    hide Query.Answer, Query.Scan, Matching, Visited, Json.ReadObject, Payload, AllPrintable, AllReadBack;
    hide AllPresent, FieldsOf, Record, AttrNamed;
    AnswerIsScan(q, pids);
    ScanIsFilterThenProject(q, Visited(q, pids));
    var p := Matching(q, Visited(q, pids))[i];
    FieldsArePrinted(q.projection, p, q.procs[p]);
    MessageReadsBack(q.projection, p, q.procs[p], headers);
  }
}
