/** The extension RPC peer: requests are correlated with responses by id, as in sections 4 and 5
    of the JSON-RPC 2.0 specification, and a response that announces progress frames is held
    back until all of them have been forwarded. */
module RpcPeer {
  import opened Wrappers
  import opened Text

  datatype Json =
    | Null
    | Boolean(flag: bool)
    | Number(n: int)
    | String(text: string)
    | Array(items: seq<Json>)
    | Object(fields: map<string, Json>)

  datatype RpcError = RpcError(code: int, message: string, data: Option<Json>)

  type Reply = Result<Json, RpcError>

  const MAX_PENDING_REQUESTS := 32
  const MAX_PROGRESS_FRAME_BYTES := 16 * 1024
  const PROGRESS_METHOD := "$/progress"
  const U64_LIMIT := 0x1_0000_0000_0000_0000

  function Transport(message: string): RpcError { RpcError(-32000, message, None) }

  function Get(value: Json, key: string): Option<Json> {
    if value.Object? && key in value.fields then Some(value.fields[key]) else None
  }

  function AsString(value: Option<Json>): Option<string> {
    if value.Some? && value.value.String? then Some(value.value.text) else None
  }

  function AsU64(value: Option<Json>): Option<nat> {
    if value.Some? && value.value.Number? && 0 <= value.value.n < U64_LIMIT then Some(value.value.n) else None
  }

  function AsI64(value: Option<Json>): Option<int> {
    if value.Some? && value.value.Number? && -(U64_LIMIT / 2) <= value.value.n < U64_LIMIT / 2
    then Some(value.value.n) else None
  }

  function ErrorFrom(value: Json): RpcError {
    var code, message := AsI64(Get(value, "code")), AsString(Get(value, "message"));
    RpcError(if code.Some? then code.value else -32603,
             if message.Some? then message.value else "Internal error", Get(value, "data"))
  }

  // ---------------------------------------------------------------------------------------
  // Messages

  /** What a message means to the request it is addressed to. */
  datatype Event =
    | Progress(sequence: Option<nat>, value: Option<Json>)
    | Terminal(reply: Reply)

  /** The progress frames a successful reply announces. */
  function FramesDeclared(reply: Reply): Option<nat> {
    if reply.Ok? then AsU64(Get(reply.value, "progressFrames")) else None
  }

  /** The request a message is for, and what it says; none when it is not this peer's. */
  function Meaning(prefix: string, message: Json): Option<(string, Event)> {
    var method' := Get(message, "method");
    if AsString(method') == Some(PROGRESS_METHOD) then
      var params := Get(message, "params");
      if params.None? then None else
      var id := AsString(Get(params.value, "id"));
      if id.None? || !(prefix <= id.value) then None else
      Some((id.value, Progress(AsU64(Get(params.value, "sequence")), Get(params.value, "value"))))
    else if method'.Some? then None else
      var id := AsString(Get(message, "id"));
      if id.None? || !(prefix <= id.value) then None else
      var error, result := Get(message, "error"), Get(message, "result");
      var reply := if error.Some? && !error.value.Null? then Err(ErrorFrom(error.value))
                   else Ok(if result.Some? then result.value else Null);
      Some((id.value, Terminal(reply)))
  }

  // ---------------------------------------------------------------------------------------
  // The wire

  predicate Has(value: Json, key: string, field: Json) {
    value.Object? && key in value.fields && value.fields[key] == field
  }

  predicate Lacks(value: Json, key: string) { !value.Object? || key !in value.fields }

  /** `n` is the integer field, between the limits; `none` when there is no such field. */
  ghost predicate IntegerOr(value: Json, key: string, low: int, high: int, n: int, none: int) {
    if exists k :: low <= k < high && Has(value, key, Number(k)) then Has(value, key, Number(n)) && low <= n < high
    else n == none
  }

  ghost predicate TextOr(value: Json, key: string, text: string, none: string) {
    if exists t :: Has(value, key, String(t)) then Has(value, key, String(text)) else text == none
  }

  ghost predicate FieldIs(value: Json, key: string, field: Option<Json>) {
    match field case Some(f) => Has(value, key, f) case None => Lacks(value, key)
  }

  /** An error object of section 5.1 of the JSON-RPC 2.0 specification, read leniently. */
  ghost predicate Reports(value: Json, error: RpcError) {
    && IntegerOr(value, "code", -0x8000_0000_0000_0000, 0x8000_0000_0000_0000, error.code, -32603)
    && TextOr(value, "message", error.message, "Internal error")
    && FieldIs(value, "data", error.data)
  }

  /** A response to request `id`: an error that is there and not null comes first, else the
      result, or null for none. */
  ghost predicate Responds(message: Json, id: string, reply: Reply) {
    && message.Object? && Lacks(message, "method") && Has(message, "id", String(id))
    && match reply
       case Err(error) => exists value: Json :: !value.Null? && Has(message, "error", value) && Reports(value, error)
       case Ok(result) =>
         && (Lacks(message, "error") || Has(message, "error", Null))
         && if Lacks(message, "result") then result == Null else Has(message, "result", result)
  }

  /** A progress frame of request `id`. */
  ghost predicate Progresses(message: Json, id: string, sequence: Option<nat>, value: Option<Json>) {
    && Has(message, "method", String("$/progress"))
    && exists params: Json ::
      && Has(message, "params", params) && Has(params, "id", String(id)) && FieldIs(params, "value", value)
      && match sequence
         case Some(n) => n < 0x1_0000_0000_0000_0000 && Has(params, "sequence", Number(n))
         case None => !exists n :: 0 <= n < 0x1_0000_0000_0000_0000 && Has(params, "sequence", Number(n))
  }

  lemma ErrorFromReports(value: Json, error: RpcError)
    ensures ErrorFrom(value) == error <==> Reports(value, error)
  {
    var code, message := Get(value, "code"), Get(value, "message");
    if AsI64(code).Some? {
      assert Has(value, "code", Number(code.value.n));
    }
    if AsString(message).Some? {
      assert Has(value, "message", String(message.value.text));
    }
  }

  /** Every response with an id of this peer means its reply, ... */
  lemma MeaningOfResponse(prefix: string, message: Json, id: string, reply: Reply)
    requires Responds(message, id, reply) && prefix <= id
    ensures Meaning(prefix, message) == Some((id, Terminal(reply)))
  {
    if reply.Err? {
      var value: Json :| !value.Null? && Has(message, "error", value) && Reports(value, reply.error);
      ErrorFromReports(value, reply.error);
    }
  }

  /** ... every frame means what its parameters say, ... */
  lemma MeaningOfFrame(prefix: string, message: Json, id: string, sequence: Option<nat>, value: Option<Json>)
    requires Progresses(message, id, sequence, value) && prefix <= id
    ensures Meaning(prefix, message) == Some((id, Progress(sequence, value)))
  {
    var params: Json :| Has(message, "params", params) && Has(params, "id", String(id))
      && FieldIs(params, "value", value)
      && match sequence
         case Some(n) => n < 0x1_0000_0000_0000_0000 && Has(params, "sequence", Number(n))
         case None => !exists n :: 0 <= n < 0x1_0000_0000_0000_0000 && Has(params, "sequence", Number(n));
    var found := AsU64(Get(params, "sequence"));
    if found.Some? {
      assert Has(params, "sequence", Number(found.value));
    }
  }

  /** ... and nothing else means anything. */
  lemma MeaningIsOnTheWire(prefix: string, message: Json)
    requires Meaning(prefix, message).Some?
    ensures var (id, event) := Meaning(prefix, message).value;
      && prefix <= id
      && match event
         case Terminal(reply) => Responds(message, id, reply)
         case Progress(sequence, value) => Progresses(message, id, sequence, value)
  {
    var (id, event) := Meaning(prefix, message).value;
    match event
    case Terminal(reply) =>
      if reply.Err? {
        var value := message.fields["error"];
        ErrorFromReports(value, reply.error);
        assert Has(message, "error", value);
      }
    case Progress(sequence, value) =>
      var params := message.fields["params"];
      assert Has(message, "params", params);
  }

  /** The announced number of frames, if the result has one. */
  lemma FramesOfReply(reply: Reply)
    ensures FramesDeclared(reply).Some? <==>
      reply.Ok? && exists n :: 0 <= n < 0x1_0000_0000_0000_0000 && Has(reply.value, "progressFrames", Number(n))
    ensures FramesDeclared(reply).Some? ==>
      var n := FramesDeclared(reply).value;
      n < 0x1_0000_0000_0000_0000 && Has(reply.value, "progressFrames", Number(n))
  {
    if FramesDeclared(reply).Some? {
      assert Has(reply.value, "progressFrames", Number(FramesDeclared(reply).value));
    }
  }

  /** What becomes of a value offered to the caller's bounded progress channel. */
  datatype TrySend = Sent | Full | Disconnected

  // ---------------------------------------------------------------------------------------
  // One request, seen on its own

  datatype Frame = Frame(sequence: nat, value: Json)

  datatype Request =
    | Waiting(wantsProgress: bool, forwarded: seq<Frame>, held: Option<(Reply, nat)>)
    | Finished(forwarded: seq<Frame>, reply: Reply)
    | Abandoned(forwarded: seq<Frame>)

  /** Forwarded frames are numbered from zero without gaps, and a held reply still lacks some
      of the frames it announced. */
  predicate Sound(r: Request) {
    && (forall k :: 0 <= k < |r.forwarded| ==> r.forwarded[k].sequence == k)
    && (r.Waiting? && !r.wantsProgress ==> r.forwarded == [])
    && (r.Waiting? && r.held.Some? ==>
          r.wantsProgress && |r.forwarded| < r.held.value.1 && FramesDeclared(r.held.value.0) == Some(r.held.value.1))
  }

  /** A frame that the protocol allows as the request's next one. */
  predicate Acceptable(r: Request, e: Event, encodedLength: Json -> nat) {
    && r.Waiting? && r.wantsProgress && e.Progress? && e.sequence == Some(|r.forwarded|)
    && e.value.Some? && encodedLength(e.value.value) <= 16_384
  }

  /** What one event does to the request it is for. */
  ghost predicate Step(r: Request, e: Event, room: TrySend, encodedLength: Json -> nat, r': Request) {
    if !r.Waiting? then r' == r
    else match e
      case Progress(_, value) =>
        if Acceptable(r, e, encodedLength) && room == Sent then
          var forwarded := r.forwarded + [Frame(|r.forwarded|, value.value)];
          if r.held.Some? && r.held.value.1 == |forwarded| then r' == Finished(forwarded, r.held.value.0)
          else r' == Waiting(true, forwarded, r.held)
        else r'.Finished? && r'.forwarded == r.forwarded && r'.reply.Err? && r'.reply.error.code == -32000
      case Terminal(reply) =>
        match if r.wantsProgress then FramesDeclared(reply) else None
        case None => r' == Finished(r.forwarded, reply)
        case Some(n) =>
          if |r.forwarded| < n then r' == Waiting(true, r.forwarded, Some((reply, n)))
          else if |r.forwarded| == n then r' == Finished(r.forwarded, reply)
          else r'.Finished? && r'.forwarded == r.forwarded && r'.reply.Err? && r'.reply.error.code == -32000
  }

  lemma StepKeepsSound(r: Request, e: Event, room: TrySend, encodedLength: Json -> nat, r': Request)
    requires Sound(r) && Step(r, e, room, encodedLength, r')
    ensures Sound(r') && r.forwarded <= r'.forwarded
  {
  }

  /** An error ends its request at once, and so does a result that announces no frames or is
      for a request that wants none. */
  lemma PlainReplyEnds(r: Request, reply: Reply, room: TrySend, encodedLength: Json -> nat, r': Request)
    requires r.Waiting? && Step(r, Terminal(reply), room, encodedLength, r')
    requires reply.Err? || !r.wantsProgress
      || !exists n :: 0 <= n < 0x1_0000_0000_0000_0000 && Has(reply.value, "progressFrames", Number(n))
    ensures r' == Finished(r.forwarded, reply)
  {
    FramesOfReply(reply);
  }

  // ---------------------------------------------------------------------------------------
  // Runs of one request

  /** `trace` visits a state before and after each event, every frame finding room. */
  ghost predicate Trace(trace: seq<Request>, events: seq<Event>, encodedLength: Json -> nat) {
    |trace| == |events| + 1
    && forall i :: 0 <= i < |events| ==> Step(trace[i], events[i], Sent, encodedLength, trace[i + 1])
  }

  function FrameEvents(values: seq<Json>): (events: seq<Event>)
    ensures |events| == |values|
  {
    seq(|values|, i requires 0 <= i < |values| => Progress(Some(i), Some(values[i])))
  }

  function Frames(values: seq<Json>): (frames: seq<Frame>)
    ensures |frames| == |values|
  {
    seq(|values|, i requires 0 <= i < |values| => Frame(i, values[i]))
  }

  predicate LegalSizes(values: seq<Json>, encodedLength: Json -> nat) {
    forall i :: 0 <= i < |values| ==> encodedLength(values[i]) <= 16_384
  }

  /** The state that the first `i` events must have reached, when the reply announcing all
      the frames comes after `at` of them. */
  function Expected(values: seq<Json>, reply: Reply, at: nat, i: nat): Request
    requires at <= |values| && i <= |values| + 1
  {
    if i == |values| + 1 then Finished(Frames(values), reply)
    else if i <= at then Waiting(true, Frames(values)[..i], None)
    else Waiting(true, Frames(values)[..i - 1], Some((reply, |values|)))
  }

  lemma FramesSnoc(values: seq<Json>, k: nat)
    requires k < |values|
    ensures Frames(values)[..k] + [Frame(k, values[k])] == Frames(values)[..k + 1]
  {
    assert Frames(values)[k] == Frame(k, values[k]);
  }

  /** Wherever the reply announcing `n` frames arrives among those frames, the outcome is the
      same: all of them forwarded in order, then the reply delivered. */
  lemma {:induction false} ReplyPositionDoesNotMatter(
      trace: seq<Request>, values: seq<Json>, reply: Reply, at: nat, i: nat, encodedLength: Json -> nat)
    requires at <= |values| && LegalSizes(values, encodedLength) && FramesDeclared(reply) == Some(|values|)
    requires Trace(trace, FrameEvents(values)[..at] + [Terminal(reply)] + FrameEvents(values)[at..], encodedLength)
    requires trace[0] == Waiting(true, [], None)
    requires i <= |values| + 1
    ensures trace[i] == Expected(values, reply, at, i)
  {
    if i > 0 {
      ReplyPositionDoesNotMatter(trace, values, reply, at, i - 1, encodedLength);
      var events := FrameEvents(values)[..at] + [Terminal(reply)] + FrameEvents(values)[at..];
      var e := events[i - 1];
      assert Step(trace[i - 1], e, Sent, encodedLength, trace[i]);
      var frames := Frames(values);
      if i - 1 == at {
        assert e == Terminal(reply);
        assert frames[..|values|] == frames;
      } else {
        var k := if i - 1 < at then i - 1 else i - 2;
        assert e == FrameEvents(values)[k];
        FramesSnoc(values, k);
        assert frames[..|values|] == frames;
      }
    }
  }

  // ---------------------------------------------------------------------------------------
  // All requests together

  type Requests = map<string, Request>

  /** What can happen at a peer: a request begins, a message arrives for one, or the caller of
      one gives up, because it could not be sent or its time ran out. */
  datatype Move =
    | Began(id: string, wantsProgress: bool)
    | Delivered(id: string, event: Event, room: TrySend)
    | GaveUp(id: string)

  /** Every move concerns at most the request it names. */
  ghost predicate PeerStep(m: Requests, move: Move, encodedLength: Json -> nat, m': Requests) {
    match move
    case Began(id, wantsProgress) => id !in m && m' == m[id := Waiting(wantsProgress, [], None)]
    case Delivered(id, event, room) =>
      && m'.Keys == m.Keys
      && (id in m ==> Step(m[id], event, room, encodedLength, m'[id]))
      && (forall other :: other in m && other != id ==> m'[other] == m[other])
    case GaveUp(id) =>
      id in m && m' == m[id := if m[id].Waiting? then Abandoned(m[id].forwarded) else m[id]]
  }

  ghost predicate PeerTrace(states: seq<Requests>, moves: seq<Move>, encodedLength: Json -> nat) {
    |states| == |moves| + 1
    && forall i :: 0 <= i < |moves| ==> PeerStep(states[i], moves[i], encodedLength, states[i + 1])
  }

  /** The events of one request, in order of arrival. */
  function EventsOf(id: string, moves: seq<Move>): seq<Event> {
    if moves == [] then []
    else
      var last := moves[|moves| - 1];
      EventsOf(id, moves[..|moves| - 1]) + if last.Delivered? && last.id == id then [last.event] else []
  }

  predicate Known(id: string, states: seq<Requests>) { forall i :: 0 <= i < |states| ==> id in states[i] }

  /** The states of one request: a first one, and one after each of its events. */
  ghost function StatesOf(id: string, states: seq<Requests>, moves: seq<Move>): seq<Request>
    requires |states| == |moves| + 1 && Known(id, states)
  {
    if moves == [] then [states[0][id]]
    else
      var n := |moves|;
      var last := moves[n - 1];
      StatesOf(id, states[..n], moves[..n - 1]) + if last.Delivered? && last.id == id then [states[n][id]] else []
  }

  lemma TraceSnoc(trace: seq<Request>, events: seq<Event>, encodedLength: Json -> nat, e: Event, r: Request)
    requires Trace(trace, events, encodedLength) && Step(trace[|events|], e, Sent, encodedLength, r)
    ensures Trace(trace + [r], events + [e], encodedLength)
  {
  }

  lemma {:induction false} RequestsStay(id: string, states: seq<Requests>, moves: seq<Move>,
      encodedLength: Json -> nat, i: nat)
    requires PeerTrace(states, moves, encodedLength) && i < |states| && id in states[0]
    ensures id in states[i]
  {
    if i > 0 {
      RequestsStay(id, states, moves, encodedLength, i - 1);
      assert PeerStep(states[i - 1], moves[i - 1], encodedLength, states[i]);
    }
  }

  /** The caller of the request does not give up, and its channel always has room. */
  predicate Patient(id: string, moves: seq<Move>) {
    forall move :: move in moves && move.id == id ==> !move.GaveUp? && (move.Delivered? ==> move.room == Sent)
  }

  /** A request goes through its own events as if it were alone, while others begin, receive
      messages and give up. */
  lemma {:induction false} OwnTrace(id: string, states: seq<Requests>, moves: seq<Move>, encodedLength: Json -> nat)
    requires PeerTrace(states, moves, encodedLength) && Known(id, states) && Patient(id, moves)
    ensures Trace(StatesOf(id, states, moves), EventsOf(id, moves), encodedLength)
    ensures var own := StatesOf(id, states, moves);
      own[0] == states[0][id] && own[|own| - 1] == states[|states| - 1][id]
  {
    var n := |moves|;
    if n > 0 {
      OwnTrace(id, states[..n], moves[..n - 1], encodedLength);
      assert PeerStep(states[n - 1], moves[n - 1], encodedLength, states[n]) && moves[n - 1] in moves;
      OwnLastMove(id, states[n - 1], moves[n - 1], encodedLength, states[n],
                  StatesOf(id, states[..n], moves[..n - 1]), EventsOf(id, moves[..n - 1]));
    }
  }

  /** One more move: the request's own events take it one step, others leave it alone. */
  lemma OwnLastMove(id: string, m: Requests, last: Move, encodedLength: Json -> nat, m': Requests,
                    own: seq<Request>, events: seq<Event>)
    requires id in m && id in m' && PeerStep(m, last, encodedLength, m') && Patient(id, [last])
    requires Trace(own, events, encodedLength) && own[|events|] == m[id]
    ensures if last.Delivered? && last.id == id then Trace(own + [m'[id]], events + [last.event], encodedLength)
            else m'[id] == m[id]
  {
    assert last in [last];
    if last.Delivered? && last.id == id {
      TraceSnoc(own, events, encodedLength, last.event, m'[id]);
    }
  }

  /** Over any moves, whether or not frames find room and callers give up: forwarded frames
      stay numbered and are only added to, a request that has its reply keeps it and gets no
      other, and one that was given up gets none. */
  lemma {:induction false} OutcomeIsFinal(id: string, states: seq<Requests>, moves: seq<Move>,
                                          encodedLength: Json -> nat, i: nat, j: nat)
    requires PeerTrace(states, moves, encodedLength) && i <= j < |states|
    requires id in states[i] && Sound(states[i][id])
    ensures id in states[j] && Sound(states[j][id]) && states[i][id].forwarded <= states[j][id].forwarded
    ensures !states[i][id].Waiting? ==> states[j][id] == states[i][id]
  {
    if i < j {
      OutcomeIsFinal(id, states, moves, encodedLength, i, j - 1);
      var move := moves[j - 1];
      assert PeerStep(states[j - 1], move, encodedLength, states[j]);
      if move.Delivered? && move.id == id {
        StepKeepsSound(states[j - 1][id], move.event, move.room, encodedLength, states[j][id]);
      }
    }
  }

  /** However other requests begin, receive messages and give up in between, a request that
      receives its `n` frames in order and, anywhere among them, the reply announcing them,
      ends with all frames forwarded and that reply. */
  lemma InterleavingDoesNotMatter(id: string, states: seq<Requests>, moves: seq<Move>,
                                  values: seq<Json>, reply: Reply, at: nat, encodedLength: Json -> nat)
    requires PeerTrace(states, moves, encodedLength) && Patient(id, moves)
    requires id in states[0] && states[0][id] == Waiting(true, [], None)
    requires at <= |values| && LegalSizes(values, encodedLength) && FramesDeclared(reply) == Some(|values|)
    requires EventsOf(id, moves) == FrameEvents(values)[..at] + [Terminal(reply)] + FrameEvents(values)[at..]
    ensures var last := states[|states| - 1]; id in last && last[id] == Finished(Frames(values), reply)
  {
    forall i | 0 <= i < |states|
      ensures id in states[i]
    {
      RequestsStay(id, states, moves, encodedLength, i);
    }
    OwnTrace(id, states, moves, encodedLength);
    var own := StatesOf(id, states, moves);
    ReplyPositionDoesNotMatter(own, values, reply, at, |values| + 1, encodedLength);
  }

  // ---------------------------------------------------------------------------------------
  // The peer

  /** An id made from a number already drawn from the counter. */
  predicate NumberedBelow(id: string, prefix: string, limit: nat) {
    prefix <= id && AllDigits(id[|prefix|..]) && ParseNat(id[|prefix|..]) < limit
  }

  datatype Pending = Pending(wantsProgress: bool, next: nat, deferred: Option<(Reply, nat)>)

  /** A request's entries in the pending map and in its one-place response channel. */
  predicate Represents(r: Request, pending: Option<Pending>, channel: Option<Reply>) {
    && Sound(r)
    && match r
       case Waiting(wantsProgress, forwarded, held) =>
         pending == Some(Pending(wantsProgress, |forwarded|, held)) && channel.None?
       case Finished(_, reply) => pending.None? && channel == Some(reply)
       case Abandoned(_) => pending.None? && channel.None?
  }

  function Lookup<T>(m: map<string, T>, id: string): Option<T> {
    if id in m then Some(m[id]) else None
  }

  class Peer {
    const prefix: string
    const encodedLength: Json -> nat
    var nextId: nat
    var pending: map<string, Pending>
    var channels: map<string, Reply>     // the response channels that hold a reply
    ghost var requests: Requests         // every request made so far

    ghost predicate Valid()
      reads this
    {
      && |pending| <= 32
      && pending.Keys <= requests.Keys && channels.Keys <= requests.Keys
      && (forall id :: id in requests ==> Represents(requests[id], Lookup(pending, id), Lookup(channels, id)))
      && (forall id :: id in requests ==> NumberedBelow(id, prefix, nextId))
    }

    constructor (prefix: string, encodedLength: Json -> nat)
      ensures Valid() && this.prefix == prefix && this.encodedLength == encodedLength && requests == map[]
    {
      this.prefix, this.encodedLength := prefix, encodedLength;
      nextId, pending, channels, requests := 1, map[], map[], map[];
    }

    /** Registers a new request under an id never used before, unless 32 are pending. */
    method Begin(wantsProgress: bool) returns (r: Result<string, RpcError>)
      requires Valid()
      modifies this
      ensures Valid()
      ensures r.Err? <==> |old(pending)| == 32
      ensures r.Err? ==> requests == old(requests)
      ensures r.Ok? ==> PeerStep(old(requests), Began(r.value, wantsProgress), encodedLength, requests)
    {
      var id := NextId();
      if |pending| >= MAX_PENDING_REQUESTS {
        return Err(Transport("extension RPC pending request limit reached"));
      }
      Register(id, wantsProgress);
      r := Ok(id);
    }

    method Register(id: string, wantsProgress: bool)
      requires Valid() && id !in requests && NumberedBelow(id, prefix, nextId) && |pending| < MAX_PENDING_REQUESTS
      modifies this`pending, this`requests
      ensures Valid() && requests == old(requests)[id := Waiting(wantsProgress, [], None)]
    {
      pending := pending[id := Pending(wantsProgress, 0, None)];
      requests := requests[id := Waiting(wantsProgress, [], None)];
    }

    /** Draws a number; no request so far was made with it. */
    method NextId() returns (id: string)
      requires Valid()
      modifies this`nextId
      ensures Valid() && id !in requests && NumberedBelow(id, prefix, nextId)
    {
      id := prefix + Decimal(nextId);
      assert id[|prefix|..] == Decimal(nextId);
      assert !NumberedBelow(id, prefix, nextId) && NumberedBelow(id, prefix, nextId + 1);
      nextId := nextId + 1;
    }

    /** Removes a pending entry and sends its reply. Its channel is empty at that moment, so
        the send neither blocks nor drops anything. */
    method Settle(id: string, reply: Reply, ghost forwarded: seq<Frame>)
      requires Valid() && id in pending && id !in channels && Sound(Finished(forwarded, reply))
      modifies this`pending, this`channels, this`requests
      ensures Valid() && requests == old(requests)[id := Finished(forwarded, reply)]
    {
      pending := pending - {id};
      channels := channels[id := reply];
      requests := requests[id := Finished(forwarded, reply)];
    }

    method Keep(id: string, entry: Pending, ghost forwarded: seq<Frame>)
      requires Valid() && id in pending && |forwarded| == entry.next
      requires Sound(Waiting(entry.wantsProgress, forwarded, entry.deferred))
      modifies this`pending, this`requests
      ensures Valid() && requests == old(requests)[id := Waiting(entry.wantsProgress, forwarded, entry.deferred)]
    {
      pending := pending[id := entry];
      requests := requests[id := Waiting(entry.wantsProgress, forwarded, entry.deferred)];
    }

    /** Handles one incoming message. It belongs to this peer exactly when it names an id with
        the peer's prefix, and then it takes the named request one step and no other. */
    method Resolve(message: Json, room: TrySend) returns (owned: bool)
      requires Valid()
      modifies this`pending, this`channels, this`requests
      ensures Valid()
      ensures owned <==> Meaning(prefix, message).Some?
      ensures !owned ==> requests == old(requests)
      ensures owned ==> var (id, event) := Meaning(prefix, message).value;
        PeerStep(old(requests), Delivered(id, event, room), encodedLength, requests)
      // In terms of the message's fields:
      ensures forall id, reply :: prefix <= id && Responds(message, id, reply) ==>
        owned && PeerStep(old(requests), Delivered(id, Terminal(reply), room), encodedLength, requests)
      ensures forall id, sequence, value :: prefix <= id && Progresses(message, id, sequence, value) ==>
        owned && PeerStep(old(requests), Delivered(id, Progress(sequence, value), room), encodedLength, requests)
      ensures owned ==>
        || (exists id, reply :: prefix <= id && Responds(message, id, reply))
        || (exists id, sequence, value :: prefix <= id && Progresses(message, id, sequence, value))
    {
      OnTheWire(message);
      var meaning := Meaning(prefix, message);
      if meaning.None? { return false; }
      var (id, event) := meaning.value;
      if id !in pending { return true; }
      match event {
        case Terminal(reply) => ResolveTerminal(id, reply, room);
        case Progress(sequence, value) => ResolveProgress(id, sequence, value, room);
      }
      owned := true;
    }

    lemma OnTheWire(message: Json)
      ensures forall id, reply :: prefix <= id && Responds(message, id, reply) ==>
        Meaning(prefix, message) == Some((id, Terminal(reply)))
      ensures forall id, sequence, value :: prefix <= id && Progresses(message, id, sequence, value) ==>
        Meaning(prefix, message) == Some((id, Progress(sequence, value)))
      ensures Meaning(prefix, message).Some? ==>
        || (exists id, reply :: prefix <= id && Responds(message, id, reply))
        || (exists id, sequence, value :: prefix <= id && Progresses(message, id, sequence, value))
    {
      forall id, reply | prefix <= id && Responds(message, id, reply)
        ensures Meaning(prefix, message) == Some((id, Terminal(reply)))
      {
        MeaningOfResponse(prefix, message, id, reply);
      }
      forall id, sequence, value | prefix <= id && Progresses(message, id, sequence, value)
        ensures Meaning(prefix, message) == Some((id, Progress(sequence, value)))
      {
        MeaningOfFrame(prefix, message, id, sequence, value);
      }
      if Meaning(prefix, message).Some? {
        MeaningIsOnTheWire(prefix, message);
      }
    }

    method ResolveTerminal(id: string, reply: Reply, ghost room: TrySend)
      requires Valid() && id in pending
      modifies this`pending, this`channels, this`requests
      ensures Valid() && id in requests && requests == old(requests)[id := requests[id]]
      ensures Step(old(requests)[id], Terminal(reply), room, encodedLength, requests[id])
    {
      var entry := pending[id];
      var frames := FramesDeclared(reply);
      ghost var forwarded := requests[id].forwarded;
      assert Represents(requests[id], Some(entry), Lookup(channels, id));
      if entry.wantsProgress && frames.Some? && entry.next > frames.value {
        Settle(id, Err(Transport("extension RPC terminal progress count is invalid")), forwarded);
      } else if entry.wantsProgress && frames.Some? && entry.next < frames.value {
        Keep(id, entry.(deferred := Some((reply, frames.value))), forwarded);
      } else {
        Settle(id, reply, forwarded);
      }
    }

    method ResolveProgress(id: string, sequence: Option<nat>, value: Option<Json>, room: TrySend)
      requires Valid() && id in pending
      modifies this`pending, this`channels, this`requests
      ensures Valid() && id in requests && requests == old(requests)[id := requests[id]]
      ensures Step(old(requests)[id], Progress(sequence, value), room, encodedLength, requests[id])
    {
      var entry := pending[id];
      ghost var forwarded := requests[id].forwarded;
      var failure :=
        if sequence != Some(entry.next) then Some("extension RPC progress sequence is invalid")
        else if value.None? || encodedLength(value.value) > MAX_PROGRESS_FRAME_BYTES
          then Some("extension RPC progress frame is too large")
        else if !entry.wantsProgress then Some("extension RPC request did not opt into progress")
        else match room
          case Full => Some("extension RPC progress channel overflowed")
          case Disconnected => Some("extension RPC progress receiver disconnected")
          case Sent => None;
      assert Represents(requests[id], Some(entry), Lookup(channels, id));
      if failure.Some? {
        Settle(id, Err(Transport(failure.value)), forwarded);
        return;
      }
      // Both the channel and the value are present here, as the original expects.
      assert entry.wantsProgress && value.Some?;
      forwarded := forwarded + [Frame(entry.next, value.value)];
      entry := entry.(next := entry.next + 1);
      if entry.deferred.Some? && entry.next == entry.deferred.value.1 {
        Settle(id, entry.deferred.value.0, forwarded);
      } else {
        Keep(id, entry, forwarded);
      }
    }

    /** The caller gives up: the request could not be sent, or its time ran out. A reply that
        came first stays the request's one reply. */
    method Abandon(id: string)
      requires Valid() && id in requests
      modifies this`pending, this`requests
      ensures Valid() && id !in pending && PeerStep(old(requests), GaveUp(id), encodedLength, requests)
    {
      if id in pending {
        pending := pending - {id};
        requests := requests[id := Abandoned(requests[id].forwarded)];
      }
    }

    /** What the caller's wait returns once its request is settled or its time is up. A request
        its caller has not abandoned always has its reply, so the third case of the original,
        a channel closed without one, does not arise. */
    method Finish(id: string, timedOut: bool) returns (reply: Reply)
      requires Valid() && id in requests && !requests[id].Abandoned?
      requires !timedOut ==> id !in pending
      modifies this`pending, this`requests
      ensures Valid() && id !in pending && id in requests
      ensures timedOut ==> PeerStep(old(requests), GaveUp(id), encodedLength, requests)
      ensures !timedOut ==> requests == old(requests) && requests[id].Finished? && reply == requests[id].reply
      ensures timedOut ==> reply == Err(Transport("extension RPC request timed out"))
    {
      if timedOut {
        Abandon(id);
        return Err(Transport("extension RPC request timed out"));
      }
      reply := channels[id];
    }
  }

  lemma PeerTraceSnoc(states: seq<Requests>, moves: seq<Move>, encodedLength: Json -> nat, move: Move, m: Requests)
    requires PeerTrace(states, moves, encodedLength) && PeerStep(states[|moves|], move, encodedLength, m)
    ensures PeerTrace(states + [m], moves + [move], encodedLength)
  {
  }

  /** One call from outside, of any kind. */
  method AnyCall(peer: Peer) returns (ghost move: Option<Move>)
    requires peer.Valid()
    modifies peer
    ensures peer.Valid()
    ensures if move.Some? then PeerStep(old(peer.requests), move.value, peer.encodedLength, peer.requests)
            else peer.requests == old(peer.requests)
  {
    var begins: bool, arrives: bool, wantsProgress: bool, id: string := *, *, *, *;
    var message: Json, room: TrySend := *, *;
    move := None;
    if begins {
      var r := peer.Begin(wantsProgress);
      if r.Ok? { move := Some(Began(r.value, wantsProgress)); }
    } else if arrives {
      var owned := peer.Resolve(message, room);
      if owned {
        ghost var (to, event) := Meaning(peer.prefix, message).value;
        move := Some(Delivered(to, event, room));
      }
    } else if id in peer.pending {
      peer.Abandon(id);
      move := Some(GaveUp(id));
    }
  }

  /** Whatever calls a peer receives, its requests go through one of the traces above. */
  method Serve(prefix: string, encodedLength: Json -> nat, calls: nat)
      returns (peer: Peer, ghost states: seq<Requests>, ghost moves: seq<Move>)
    ensures peer.Valid() && PeerTrace(states, moves, encodedLength)
    ensures states[0] == map[] && states[|moves|] == peer.requests
  {
    peer := new Peer(prefix, encodedLength);
    states, moves := [map[]], [];
    for call := 0 to calls
      invariant fresh(peer) && peer.Valid() && peer.encodedLength == encodedLength
      invariant PeerTrace(states, moves, encodedLength)
      invariant states[0] == map[] && states[|moves|] == peer.requests
    {
      var move := AnyCall(peer);
      if move.Some? {
        PeerTraceSnoc(states, moves, encodedLength, move.value, peer.requests);
        states, moves := states + [peer.requests], moves + [move.value];
      }
    }
  }
}
