/** How the connection routes requests across reconnects: what may be sent again, how often,
    and how many retries run at once.

    JavaScript runs to completion between awaits, so the steps of the machine are the stretches
    between them; any number of requests interleave, with any answers and reconnects. */
module RequestRetry {
  import opened Wrappers
  import opened Runs

  datatype Contract = Query | Command(operationId: Option<string>) | Job | Subscription

  const MAX_REQUEST_RECONNECT_RETRIES := 1
  const MAX_RETRIES_IN_FLIGHT := 8

  predicate IsDurable(c: Contract) { c.Command? && c.operationId.Some? && c.operationId.value != "" }

  datatype Phase = AwaitingClient | InFlight | Done

  /** A call of `routeRequest`: its local variables, and the server instance that was current
      at each hand-over to a client. `admitted` is unset until the first hand-over. */
  datatype Request = Request(
    contract: Contract, phase: Phase, retryCount: nat, holdsPermit: bool,
    admitted: Option<Option<string>>, sends: seq<Option<string>>)

  datatype State = State(
    requests: map<nat, Request>, retryInFlight: nat, serverInstanceId: Option<string>,
    durableProtocol: Option<int>, shouldReconnect: bool)

  datatype Event =
    | Begin(id: nat, contract: Contract)
    | ClientReady(id: nat)
    | NoClient(id: nat)                    // waiting for a client was rejected or aborted
    | Answered(id: nat)
    | Failed(id: nat, closed: bool)        // with a closed connection, or for another reason
    | Connected(serverInstanceId: Option<string>, durableProtocol: Option<int>)
    | Mounted(shouldReconnect: bool)

  /** Leaving the request, in whatever way, gives its permit back. */
  function Leave(s: State, id: nat): State
    requires id in s.requests
  {
    var r := s.requests[id];
    s.(requests := s.requests[id := r.(phase := Done, holdsPermit := false)],
       retryInFlight := if r.holdsPermit && s.retryInFlight > 0 then s.retryInFlight - 1 else s.retryInFlight)
  }

  /** A client is there: a durable command goes only to the server instance it was first given to. */
  function HandOver(s: State, id: nat): State
    requires id in s.requests
  {
    var r := s.requests[id];
    if IsDurable(r.contract) && r.admitted.Some? && r.admitted.value != s.serverInstanceId then Leave(s, id)
    else
      var admitted := if IsDurable(r.contract) && r.admitted.None? then Some(s.serverInstanceId) else r.admitted;
      var sends := r.sends + [s.serverInstanceId];
      s.(requests := s.requests[id := r.(phase := InFlight, admitted := admitted, sends := sends)])
  }

  predicate MayRetry(s: State, r: Request, closed: bool) {
    && closed && s.shouldReconnect
    && (r.holdsPermit || s.retryInFlight < MAX_RETRIES_IN_FLIGHT)
    && ((r.contract == Query && r.retryCount < MAX_REQUEST_RECONNECT_RETRIES)
        || (IsDurable(r.contract) && s.durableProtocol == Some(1) && r.admitted.Some? && r.admitted.value.Some?))
  }

  function Step(s: State, e: Event): State {
    match e
    case Begin(id, contract) =>
      if id in s.requests then s
      else s.(requests := s.requests[id := Request(contract, AwaitingClient, 0, false, None, [])])
    case ClientReady(id) =>
      if id in s.requests && s.requests[id].phase == AwaitingClient then HandOver(s, id) else s
    case NoClient(id) =>
      if id in s.requests && s.requests[id].phase == AwaitingClient then Leave(s, id) else s
    case Answered(id) =>
      if id in s.requests && s.requests[id].phase == InFlight then Leave(s, id) else s
    case Failed(id, closed) =>
      if id !in s.requests || s.requests[id].phase != InFlight then s
      else
        var r := s.requests[id];
        if MayRetry(s, r, closed) then
          var again := r.(phase := AwaitingClient, retryCount := r.retryCount + 1, holdsPermit := true);
          s.(requests := s.requests[id := again],
             retryInFlight := if r.holdsPermit then s.retryInFlight else s.retryInFlight + 1)
        else Leave(s, id)
    case Connected(instance, protocol) => s.(serverInstanceId := instance, durableProtocol := protocol)
    case Mounted(reconnect) => s.(shouldReconnect := reconnect)
  }

  function Run(s: State, events: seq<Event>): State { Fold(Step, s, events) }

  const INITIAL := State(map[], 0, None, None, false)

  /** What holds of every single request. */
  predicate RequestInvariant(r: Request) {
    // Hand-overs are one per try.
    && |r.sends| <= r.retryCount + 1
    && (r.phase == AwaitingClient ==> |r.sends| == r.retryCount)
    && (r.phase == InFlight ==> |r.sends| == r.retryCount + 1)
    // What may be tried again, and how often.
    && (r.contract == Query ==> r.retryCount <= MAX_REQUEST_RECONNECT_RETRIES)
    && (r.contract != Query && !IsDurable(r.contract) ==> r.retryCount == 0)
    // A durable command is always handed to the instance it was first handed to.
    && (IsDurable(r.contract) ==> (r.admitted.Some? <==> r.sends != []))
    && (IsDurable(r.contract) ==> forall k :: 0 <= k < |r.sends| ==> Some(r.sends[k]) == r.admitted)
    && (IsDurable(r.contract) && r.retryCount > 0 ==> r.admitted.Some? && r.admitted.value.Some?)
    // A permit is held from the first retry until the end.
    && (r.holdsPermit <==> r.retryCount > 0 && r.phase != Done)
  }

  function Holders(requests: map<nat, Request>): set<nat> {
    set id | id in requests && requests[id].holdsPermit
  }

  /** ... and of all of them together. */
  predicate Invariant(s: State) {
    && (forall id :: id in s.requests ==> RequestInvariant(s.requests[id]))
    && s.retryInFlight == |Holders(s.requests)| <= MAX_RETRIES_IN_FLIGHT
  }

  predicate Holds(requests: map<nat, Request>, id: nat) { id in requests && requests[id].holdsPermit }

  /** Changing one request keeps the count right if the count follows its permit. */
  lemma ReplaceKeepsInvariant(s: State, id: nat, r: Request, s': State)
    requires Invariant(s) && RequestInvariant(r)
    requires s'.requests == s.requests[id := r]
    requires s'.retryInFlight ==
      s.retryInFlight + (if r.holdsPermit then 1 else 0) - (if Holds(s.requests, id) then 1 else 0)
    requires s'.retryInFlight <= MAX_RETRIES_IN_FLIGHT
    ensures Invariant(s')
  {
    HoldersAfter(s.requests, id, r);
    forall i | i in s'.requests
      ensures RequestInvariant(s'.requests[i])
    {
      assert s'.requests[i] == if i == id then r else s.requests[i];
    }
  }

  lemma HoldersAfter(requests: map<nat, Request>, id: nat, r: Request)
    ensures |Holders(requests[id := r])| ==
      |Holders(requests)| + (if r.holdsPermit then 1 else 0) - (if Holds(requests, id) then 1 else 0)
  {
    var before := Holders(requests);
    assert Holders(requests[id := r]) == if r.holdsPermit then before + {id} else before - {id};
    assert Holds(requests, id) <==> id in before;
  }

  lemma LeaveKeepsInvariant(s: State, id: nat)
    requires Invariant(s) && id in s.requests && s.requests[id].phase != Done
    ensures Invariant(Leave(s, id))
  {
    var r := s.requests[id];
    if r.holdsPermit {
      assert id in Holders(s.requests);
      assert s.retryInFlight > 0;
    }
    ReplaceKeepsInvariant(s, id, r.(phase := Done, holdsPermit := false), Leave(s, id));
  }

  lemma HandOverKeepsInvariant(s: State, id: nat)
    requires Invariant(s) && id in s.requests && s.requests[id].phase == AwaitingClient
    ensures Invariant(HandOver(s, id))
  {
    var s' := HandOver(s, id);
    if s' == Leave(s, id) {
      LeaveKeepsInvariant(s, id);
    } else {
      ReplaceKeepsInvariant(s, id, s'.requests[id], s');
    }
  }

  lemma StepKeepsInvariant(s: State, e: Event)
    requires Invariant(s)
    ensures Invariant(Step(s, e))
  {
    var s' := Step(s, e);
    if s' != s {
      match e
      case Begin(id, _) => ReplaceKeepsInvariant(s, id, s'.requests[id], s');
      case ClientReady(id) => HandOverKeepsInvariant(s, id);
      case NoClient(id) => LeaveKeepsInvariant(s, id);
      case Answered(id) => LeaveKeepsInvariant(s, id);
      case Failed(id, closed) =>
        if MayRetry(s, s.requests[id], closed) {
          ReplaceKeepsInvariant(s, id, s'.requests[id], s');
        } else {
          LeaveKeepsInvariant(s, id);
        }
      case _ =>
    }
  }

  lemma {:induction false} RunKeepsInvariant(s: State, events: seq<Event>)
    requires Invariant(s)
    ensures Invariant(Run(s, events))
    decreases |events|
  {
    if events != [] {
      StepKeepsInvariant(s, events[0]);
      RunKeepsInvariant(Step(s, events[0]), events[1..]);
    }
  }

  /** Over all failures and reconnects: a command without an operation id, a job and a
      subscription are handed over at most once, a query at most twice, a durable command
      always to the same, known server instance when it is repeated; at most eight permits are
      out, and none once every request has ended. */
  lemma RoutingIsSafe(events: seq<Event>, id: nat)
    ensures var s := Run(INITIAL, events);
      && s.retryInFlight <= 8
      && ((forall i :: i in s.requests ==> s.requests[i].phase == Done) ==> s.retryInFlight == 0)
      && (id in s.requests ==>
            var r := s.requests[id];
            && (r.contract == Query ==> |r.sends| <= 2)
            && (r.contract != Query && !IsDurable(r.contract) ==> |r.sends| <= 1)
            && (r.phase == Done ==> !r.holdsPermit)
            && (IsDurable(r.contract) && |r.sends| > 1 ==>
                  r.sends[0].Some? && forall k :: 0 <= k < |r.sends| ==> r.sends[k] == r.sends[0]))
  {
    assert Holders(INITIAL.requests) == {};
    RunKeepsInvariant(INITIAL, events);
    var s := Run(INITIAL, events);
    if forall i :: i in s.requests ==> s.requests[i].phase == Done {
      assert Holders(s.requests) == {};
    }
  }

  /** Every request's record is in order. */
  lemma RecordsAreInOrder(events: seq<Event>, id: nat)
    ensures var s := Run(INITIAL, events); id in s.requests ==> RequestInvariant(s.requests[id])
  {
    assert Holders(INITIAL.requests) == {};
    RunKeepsInvariant(INITIAL, events);
  }

  /** Under way, or waiting for another try. */
  predicate IsIn(s: State, id: nat, phase: Phase) { id in s.requests && s.requests[id].phase == phase }

  /** A request under way comes to wait again only through a closed connection. */
  lemma {:induction false} OnlyClosingRetries(s: State, events: seq<Event>, id: nat) returns (k: nat)
    requires IsIn(s, id, InFlight) && IsIn(Run(s, events), id, AwaitingClient)
    ensures k < |events| && events[k] == Failed(id, true)
    decreases |events|
  {
    var s' := Step(s, events[0]);
    if IsIn(s', id, InFlight) {
      k := OnlyClosingRetries(s', events[1..], id);
      k := k + 1;
    } else if IsIn(s', id, Done) {
      DoneStaysDone(s', events[1..], id);
      assert false;
    } else {
      k := 0;
    }
  }

  lemma {:induction false} DoneStaysDone(s: State, events: seq<Event>, id: nat)
    requires IsIn(s, id, Done)
    ensures IsIn(Run(s, events), id, Done)
    decreases |events|
  {
    if events != [] {
      DoneStaysDone(Step(s, events[0]), events[1..], id);
    }
  }

  /** The event hands the request to a client. */
  predicate HandsOver(s: State, e: Event, id: nat) {
    e == ClientReady(id) && IsIn(s, id, AwaitingClient) && IsIn(Step(s, e), id, InFlight)
  }

  /** Between any two hand-overs of one request, its connection has closed. */
  lemma ClosedBetweenHandOvers(s: State, e: Event, between: seq<Event>, e': Event, id: nat) returns (k: nat)
    requires HandsOver(s, e, id) && HandsOver(Run(Step(s, e), between), e', id)
    ensures k < |between| && between[k] == Failed(id, true)
  {
    k := OnlyClosingRetries(Step(s, e), between, id);
  }

  // ---------------------------------------------------------------------------------------
  // The loop

  /** What happens on behalf of other requests, or to the connection. */
  predicate Elsewhere(e: Event, id: nat) { e.Connected? || e.Mounted? || e.id != id }

  lemma {:induction false} OthersLeaveRequest(s: State, events: seq<Event>, id: nat)
    requires id in s.requests && forall e :: e in events ==> Elsewhere(e, id)
    ensures var s' := Run(s, events);
      id in s'.requests && s'.requests[id] == s.requests[id]
    decreases |events|
  {
    if events != [] {
      assert Elsewhere(events[0], id);
      OthersLeaveRequest(Step(s, events[0]), events[1..], id);
    }
  }

  datatype Outcome = Response | Rejected | StillTrying

  /** The provider's refs, with the local variables of every call under way. */
  class Router {
    var calls: map<nat, Request>
    var retryInFlight: nat
    var serverInstanceId: Option<string>
    var durableProtocol: Option<int>
    var shouldReconnect: bool
    ghost var history: seq<Event>

    function View(): State
      reads this
    {
      State(calls, retryInFlight, serverInstanceId, durableProtocol, shouldReconnect)
    }

    ghost predicate Valid()
      reads this
    {
      View() == Run(INITIAL, history)
    }

    constructor ()
      ensures Valid() && calls == map[] && history == []
    {
      calls, retryInFlight, serverInstanceId, durableProtocol, shouldReconnect := map[], 0, None, None, false;
      history := [];
    }

    /** An await: any run of other requests and of the connection. */
    method Await(id: nat)
      requires Valid() && id in calls
      modifies this
      ensures Valid() && old(history) <= history
      ensures id in calls && calls[id] == old(calls[id])
    {
      var chosen: seq<Event> := *;
      var events := if forall e :: e in chosen ==> Elsewhere(e, id) then chosen else [];
      FoldConcat(Step, INITIAL, history, events);
      OthersLeaveRequest(View(), events, id);
      var s := Run(View(), events);
      calls, retryInFlight, serverInstanceId := s.requests, s.retryInFlight, s.serverInstanceId;
      durableProtocol, shouldReconnect := s.durableProtocol, s.shouldReconnect;
      history := history + events;
    }

    /** Records that the call has come to `call`, and that this was the event `e`. */
    method Note(id: nat, call: Request, e: Event, ghost before: State)
      requires before == Run(INITIAL, history)
      requires State(calls[id := call], retryInFlight, serverInstanceId, durableProtocol, shouldReconnect) ==
        Step(before, e)
      modifies this`calls, this`history
      ensures Valid() && history == old(history) + [e] && calls == old(calls)[id := call]
    {
      FoldSnoc(Step, INITIAL, history, e);
      calls := calls[id := call];
      history := history + [e];
    }

    /** The request ends by the event `e`; its permit, if any, goes back. */
    method Finish(id: nat, e: Event)
      requires Valid() && id in calls && Step(View(), e) == Leave(View(), id)
      modifies this`calls, this`retryInFlight, this`history
      ensures Valid() && history == old(history) + [e]
      ensures calls == old(calls)[id := old(calls[id]).(phase := Done, holdsPermit := false)]
    {
      ghost var before := View();
      if calls[id].holdsPermit {
        retryInFlight := if retryInFlight > 0 then retryInFlight - 1 else 0;
      }
      Note(id, calls[id].(phase := Done, holdsPermit := false), e, before);
    }

    /** A client is there, or will not come: the request is handed over or given up. */
    method Resume(id: nat, connected: bool)
      requires Valid() && id in calls && calls[id].phase == AwaitingClient
      modifies this`calls, this`retryInFlight, this`history
      ensures Valid() && history == old(history) + [if connected then ClientReady(id) else NoClient(id)]
      ensures id in calls && calls[id].contract == old(calls[id].contract)
      ensures calls[id].phase == Done
              || (calls[id].phase == InFlight && calls[id].sends == old(calls[id].sends) + [serverInstanceId])
      // Handed over unless it is a durable command first given to another instance.
      ensures var call := old(calls[id]);
        calls[id].phase == InFlight <==>
          connected && (IsDurable(call.contract) && call.sends != [] ==> call.sends[0] == serverInstanceId)
    {
      RecordsAreInOrder(history, id);
      var call := calls[id];
      var durableCommand := IsDurable(call.contract);
      if !connected {
        Finish(id, NoClient(id));
      } else if durableCommand && call.admitted.Some? && call.admitted.value != serverInstanceId {
        Finish(id, ClientReady(id));
      } else {
        if durableCommand && call.admitted.None? {
          call := call.(admitted := Some(serverInstanceId));
        }
        Note(id, call.(phase := InFlight, sends := call.sends + [serverInstanceId]), ClientReady(id), View());
      }
    }

    /** The client has answered, or failed: the request ends, or waits for a client again. */
    method Conclude(id: nat, answered: bool, closed: bool) returns (outcome: Outcome)
      requires Valid() && id in calls && calls[id].phase == InFlight
      modifies this`calls, this`retryInFlight, this`history
      ensures Valid() && history == old(history) + [if answered then Answered(id) else Failed(id, closed)]
      ensures id in calls && calls[id].contract == old(calls[id].contract) && calls[id].sends == old(calls[id].sends)
      ensures outcome == Response <==> answered
      ensures calls[id].phase == if outcome == StillTrying then AwaitingClient else Done
      // Tried again exactly when its connection closed, one is to come back, a retry is free or
      // already its own, and it is a query on its first try, or a durable command of a known
      // instance under the first version of the protocol for those.
      ensures var call := old(calls[id]);
        outcome == StillTrying <==>
          && !answered && closed && old(shouldReconnect)
          && (call.holdsPermit || old(retryInFlight) < 8)
          && ((call.contract == Query && |call.sends| == 1)
              || (call.contract.Command? && call.contract.operationId.Some? && call.contract.operationId.value != ""
                  && durableProtocol == Some(1) && |call.sends| > 0 && call.sends[0].Some?))
    {
      RecordsAreInOrder(history, id);
      if answered {
        Finish(id, Answered(id));
        return Response;
      }
      ghost var before := View();
      var call := calls[id];
      var mayRetryQuery := call.contract == Query && call.retryCount < MAX_REQUEST_RECONNECT_RETRIES;
      var mayRetryDurable := IsDurable(call.contract) && durableProtocol == Some(1) && call.admitted != Some(None);
      if (mayRetryQuery || mayRetryDurable) && closed && shouldReconnect
          && (call.holdsPermit || retryInFlight < MAX_RETRIES_IN_FLIGHT) {
        if !call.holdsPermit {
          retryInFlight := retryInFlight + 1;
        }
        call := call.(phase := AwaitingClient, retryCount := call.retryCount + 1, holdsPermit := true);
        Note(id, call, Failed(id, closed), before);
        outcome := StillTrying;
      } else {
        Finish(id, Failed(id, closed));
        outcome := Rejected;
      }
    }

    /** Routes one request. The caller learns its outcome, unless the request is still being
        tried after `tries` hand-overs. `sends` are the server instances it was handed to. */
    method RouteRequest(id: nat, contract: Contract, tries: nat) returns (outcome: Outcome, sends: seq<Option<string>>)
      requires Valid() && id !in calls
      modifies this
      ensures Valid() && old(history) <= history
      ensures id in calls && calls[id].contract == contract && calls[id].sends == sends
      ensures outcome != StillTrying <==> calls[id].phase == Done
      ensures outcome != StillTrying ==> !calls[id].holdsPermit
      ensures outcome == StillTrying ==> |sends| == tries
      ensures contract == Query ==> |sends| <= 2
      ensures contract != Query && !IsDurable(contract) ==> |sends| <= 1
      ensures IsDurable(contract) && |sends| > 1 ==>
        sends[0].Some? && forall k :: 0 <= k < |sends| ==> sends[k] == sends[0]
      ensures retryInFlight <= 8
    {
      Note(id, Request(contract, AwaitingClient, 0, false, None, []), Begin(id, contract), View());
      outcome := StillTrying;
      while outcome == StillTrying && |calls[id].sends| < tries
        invariant Valid() && old(history) <= history && id in calls && calls[id].contract == contract
        invariant calls[id].phase == if outcome == StillTrying then AwaitingClient else Done
        invariant outcome == StillTrying ==> |calls[id].sends| <= tries
        decreases outcome == StillTrying, tries - |calls[id].sends|
      {
        Await(id);
        var connected: bool := *;
        Resume(id, connected);
        if calls[id].phase == Done {
          outcome := Rejected;
        } else {
          Await(id);
          var answered: bool, closed: bool := *, *;
          outcome := Conclude(id, answered, closed);
        }
      }
      sends := calls[id].sends;
      RoutingIsSafe(history, id);
    }
  }
}
