// The workflow manager that the file manager notifies: an XML-RPC server
// whose events are the methods named after a product type, each handed a
// Celery queue chosen from the event name's product-type prefix (or from the
// metadata's CeleryQueue), serving requests until an exit request.

module CeleryWorkflowMgr {
  import opened Wrappers
  import opened Strs

  /** Product metadata: every value is a list of strings. */
  type ProductMet = map<string, seq<string>>

  /** The product-type prefixes, with the queue of each. */
  const PREFIXES: seq<string> := ["KatFile", "RTSTelescopeProduct", "MeerkatTelescopeTapeProduct"]
  const QUEUES: seq<string> := ["Kat", "RTS", "Meerkat"]
  const DEFAULT_QUEUE := "Kat"

  predicate HasEventPrefix(name: string)
  {
    exists p <- PREFIXES :: StartsWith(name, p)
  }

  /** No name starts with two of the prefixes, so the order in which the
      lookup table is walked does not matter. */
  lemma PrefixesExclusive(name: string, i: nat, j: nat)
    requires i < |PREFIXES| && j < |PREFIXES|
    requires StartsWith(name, PREFIXES[i]) && StartsWith(name, PREFIXES[j])
    ensures i == j
  {
    assert name[0] == PREFIXES[i][0];
    assert name[0] == PREFIXES[j][0];
  }

  /** _find_queue_from_event */
  function FindQueueFromEvent(name: string): (r: string)
    ensures r in QUEUES
    ensures forall i :: 0 <= i < |PREFIXES| && StartsWith(name, PREFIXES[i]) ==> r == QUEUES[i]
    ensures !HasEventPrefix(name) ==> r == DEFAULT_QUEUE
  {
    var r := if StartsWith(name, PREFIXES[0]) then QUEUES[0]
      else if StartsWith(name, PREFIXES[1]) then QUEUES[1]
      else if StartsWith(name, PREFIXES[2]) then QUEUES[2]
      else DEFAULT_QUEUE;
    forall i | 0 <= i < |PREFIXES| && StartsWith(name, PREFIXES[i]) ensures r == QUEUES[i] {
      if StartsWith(name, PREFIXES[0]) { PrefixesExclusive(name, i, 0); }
      else if StartsWith(name, PREFIXES[1]) { PrefixesExclusive(name, i, 1); }
      else { assert i == 2; }
    }
    r
  }

  /** list_events: the attribute names with a product-type prefix, in the
      order dir() lists them. */
  function ListEvents(dirNames: seq<string>): (r: seq<string>)
    ensures forall e <- r :: e in dirNames && HasEventPrefix(e)
    ensures forall n <- dirNames :: HasEventPrefix(n) ==> n in r
    ensures |r| <= |dirNames|
  {
    if dirNames == [] then []
    else
      var rest := ListEvents(dirNames[1..]);
      if HasEventPrefix(dirNames[0]) then [dirNames[0]] + rest else rest
  }

  /** The events keep dir() order: those of two runs of names are the
      first run's followed by the second's. */
  lemma {:induction false} ListEventsAppend(xs: seq<string>, ys: seq<string>)
    ensures ListEvents(xs + ys) == ListEvents(xs) + ListEvents(ys)
  {
    if xs == [] {
      assert xs + ys == ys;
    } else {
      assert (xs + ys)[1..] == xs[1..] + ys;
      ListEventsAppend(xs[1..], ys);
    }
  }

  /** The queue of an event: CeleryQueue[0] when the metadata has one. */
  function EventQueue(name: string, met: ProductMet): (r: Result<string>)
    ensures "CeleryQueue" !in met ==> r == Ok(FindQueueFromEvent(name))
    ensures "CeleryQueue" in met && met["CeleryQueue"] != [] ==> r == Ok(met["CeleryQueue"][0])
    ensures "CeleryQueue" in met && met["CeleryQueue"] == [] ==> r.Err?
  {
    if "CeleryQueue" in met then
      if met["CeleryQueue"] == [] then Err("IndexError: list index out of range") else Ok(met["CeleryQueue"][0])
    else Ok(FindQueueFromEvent(name))
  }

  /** A handler call: the method name and the queue it is given. */
  datatype Dispatch = Dispatch(event: string, met: ProductMet, queue: string)

  /** The server's error for an unknown event raises
      OODTWorkflowManager(...) rather than the exception class; the server's
      constructor needs two more arguments, so what reaches the caller is a
      TypeError. */
  const UNKNOWN_EVENT_AS_WRITTEN := "TypeError: __init__() takes at least 3 arguments (2 given)"

  function NoSuchMethod(name: string): string
  {
    "OODTWorkflowManagerException: No such method: " + name
  }

  /** handle_event as written; `attributes` is what hasattr finds on the
      server. */
  function HandleEventAsWritten(name: string, met: ProductMet, attributes: set<string>): (r: Result<Dispatch>)
    ensures name !in attributes && EventQueue(name, met).Ok? ==> r == Err(UNKNOWN_EVENT_AS_WRITTEN)
  {
    match EventQueue(name, met)
    case Err(e) => Err(e)
    case Ok(queue) =>
      if name in attributes then Ok(Dispatch(name, met, queue)) else Err(UNKNOWN_EVENT_AS_WRITTEN)
  }

  /** handle_event, raising the workflow manager's exception for an unknown
      event; the queue is chosen before the event is looked up. */
  function HandleEvent(name: string, met: ProductMet, attributes: set<string>): (r: Result<Dispatch>)
    ensures r.Ok? <==> name in attributes && EventQueue(name, met).Ok?
    ensures r.Ok? ==> r.value == Dispatch(name, met, EventQueue(name, met).value)
    ensures name !in attributes && EventQueue(name, met).Ok? ==> r == Err(NoSuchMethod(name))
  {
    match EventQueue(name, met)
    case Err(e) => Err(e)
    case Ok(queue) =>
      if name in attributes then Ok(Dispatch(name, met, queue)) else Err(NoSuchMethod(name))
  }

  /** An unknown event: as written the caller sees a TypeError, not the
      workflow manager's error naming the event. */
  lemma UnknownEventAsWritten(met: ProductMet)
    requires "CeleryQueue" !in met
    ensures HandleEventAsWritten("KatFileBogus", met, {}) == Err(UNKNOWN_EVENT_AS_WRITTEN)
    ensures HandleEvent("KatFileBogus", met, {}) == Err(NoSuchMethod("KatFileBogus"))
    ensures UNKNOWN_EVENT_AS_WRITTEN != NoSuchMethod("KatFileBogus")
  {
    assert UNKNOWN_EVENT_AS_WRITTEN[57] == ')';
    assert NoSuchMethod("KatFileBogus")[57] == 's';
  }

  /** The ReductionName override of the RTS ingest handlers: an empty
      first ReductionName is replaced by the Description list. */
  function ReductionNameOverride(pm: ProductMet): (r: Result<ProductMet>)
    ensures r.Ok? <==> "ReductionName" in pm && pm["ReductionName"] != [] &&
                       (pm["ReductionName"][0] == "" ==> "Description" in pm)
    ensures r.Ok? ==> r.value.Keys == pm.Keys && forall k <- pm :: k != "ReductionName" ==> r.value[k] == pm[k]
    ensures r.Ok? && pm["ReductionName"][0] == "" ==> r.value["ReductionName"] == pm["Description"]
    ensures r.Ok? && pm["ReductionName"][0] != "" ==> r.value == pm
  {
    if "ReductionName" !in pm then Err("KeyError: 'ReductionName'")
    else if pm["ReductionName"] == [] then Err("IndexError: list index out of range")
    else if pm["ReductionName"][0] != "" then Ok(pm)
    else if "Description" !in pm then Err("KeyError: 'Description'")
    else Ok(pm["ReductionName" := pm["Description"]])
  }

  /** An XML-RPC request to the server. */
  datatype Request = HandleEventRequest(name: string, met: ProductMet) | ListEventsRequest | ExitRequest

  /** The answer to a request; a raised error becomes an XML-RPC fault. */
  datatype Response = Handled(call: Dispatch) | EventList(names: seq<string>) | Exited | Fault(error: string)

  function Respond(req: Request, dirNames: seq<string>): (r: Response)
    ensures req.ExitRequest? <==> r.Exited?
  {
    match req
    case HandleEventRequest(name, met) =>
      (match HandleEvent(name, met, set n <- dirNames) case Ok(d) => Handled(d) case Err(e) => Fault(e))
    case ListEventsRequest => EventList(ListEvents(dirNames))
    case ExitRequest => Exited
  }

  /** The answers to a run of requests. */
  function Responses(reqs: seq<Request>, dirNames: seq<string>): (r: seq<Response>)
    ensures |r| == |reqs|
    ensures forall i :: 0 <= i < |reqs| ==> r[i] == Respond(reqs[i], dirNames)
  {
    if reqs == [] then [] else Responses(reqs[..|reqs| - 1], dirNames) + [Respond(reqs[|reqs| - 1], dirNames)]
  }

  /** How many requests are served: up to and including the first exit. */
  function Served(reqs: seq<Request>): (n: nat)
    ensures n <= |reqs|
    ensures forall i :: 0 <= i < n - 1 ==> !reqs[i].ExitRequest?
    ensures n < |reqs| ==> n > 0 && reqs[n - 1].ExitRequest?
  {
    if reqs == [] then 0
    else if reqs[0].ExitRequest? then 1
    else 1 + Served(reqs[1..])
  }

  class WorkflowServer {
    /** dir(self): the server's attribute names, in sorted order. */
    const dirNames: seq<string>
    var finished: bool
    var responses: seq<Response>

    constructor (dirNames: seq<string>)
      ensures this.dirNames == dirNames && !finished && responses == []
    {
      this.dirNames := dirNames;
      finished := false;
      responses := [];
    }

    /** exit_event */
    method ExitEvent() returns (r: bool)
      modifies this
      ensures finished && r && responses == old(responses)
    {
      finished := true;
      r := true;
    }

    /** serve_forever over the requests that arrive: each is answered in
        turn, and the exit request is the last one served. */
    method ServeForever(reqs: seq<Request>)
      modifies this
      ensures responses == Responses(reqs[..Served(reqs)], dirNames)
      ensures finished <==> exists i :: 0 <= i < |reqs| && reqs[i].ExitRequest?
    {
      finished := false;
      responses := [];
      var i := 0;
      while !finished && i < |reqs|
        invariant 0 <= i <= |reqs|
        invariant responses == Responses(reqs[..i], dirNames)
        invariant finished ==> i > 0 && reqs[i - 1].ExitRequest?
        invariant forall j :: 0 <= j < i - 1 ==> !reqs[j].ExitRequest?
        invariant !finished ==> forall j :: 0 <= j < i ==> !reqs[j].ExitRequest?
      {
        var answer := Respond(reqs[i], dirNames);
        if reqs[i].ExitRequest? {
          var _ := ExitEvent();
        }
        assert reqs[..i + 1][..i] == reqs[..i];
        responses := responses + [answer];
        i := i + 1;
      }
      ServedAt(reqs, i, finished);
    }
  }

  /** Where the serving loop stops is what Served counts. */
  lemma {:induction false} ServedAt(reqs: seq<Request>, i: nat, finished: bool)
    requires i <= |reqs|
    requires finished ==> i > 0 && reqs[i - 1].ExitRequest?
    requires forall j :: 0 <= j < i - 1 ==> !reqs[j].ExitRequest?
    requires !finished ==> i == |reqs| && forall j :: 0 <= j < i ==> !reqs[j].ExitRequest?
    ensures Served(reqs) == i
  {
    if reqs != [] && i > 0 && !reqs[0].ExitRequest? {
      ServedAt(reqs[1..], i - 1, finished);
    }
  }
}
