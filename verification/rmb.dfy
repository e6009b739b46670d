/** The request loop of the reliable message bus, `rmb_call` of src/grid_client/mod.rs. */
module Rmb {
  import opened GridErrors
  import opened Text
  import opened DeployTrace

  type Bytes = seq<nat>

  datatype Body = Plain(bytes: Bytes) | Cipher(bytes: Bytes) | NoBody
  datatype Frame =
    | NotBinary
    | Garbage
    | Envelope(uid: nat, error: Option<string>, body: Body, source: Option<nat>)

  /** What the socket yields next, when, and how long the client then is busy with it. */
  datatype Item = Received(frame: Frame) | ReceiveError(text: string) | StreamEnd
  datatype Arrival = Arrival(at: nat, item: Item, busy: nat)

  /** Everything the outside contributes to one call. Beyond the last arrival the socket stays silent. */
  datatype CallEnv = CallEnv(
    command: string, unit: bool, uid: nat, twin: nat,
    fetched: Result<()>, connected: Result<()>, sent: Result<()>, start: nat, ttl: nat, arrivals: seq<Arrival>,
    decrypt: (nat, Bytes) -> Result<Bytes>, parse: Bytes -> Result<Bytes>)

  datatype Reply = UnitReply | Value(bytes: Bytes)

  /** How a call ended; an answer is the arrival at `n`. */
  datatype Ending =
    | NoTwin(error: GridError) | NoConnection(error: GridError) | SendFailed(error: GridError)
    | Expired | TimedOut | StreamEnded(late: bool) | ReceiveFailed(text: string) | BadFrame
    | ErrorReply(text: string) | Answered(n: nat, reply: Result<Reply>) | BodyMissing

  // ---- Specification: the first decisive arrival ----

  function Max(a: nat, b: nat): nat { if a > b then a else b }

  /** The time at the head of the receive loop after `n` arrivals. */
  function TimeAt(env: CallEnv, n: nat): nat
    requires n <= |env.arrivals|
  {
    if n == 0 then env.start
    else Max(TimeAt(env, n - 1), env.arrivals[n - 1].at) + env.arrivals[n - 1].busy
  }

  function Deadline(env: CallEnv): nat { env.start + env.ttl }

  /** The arrivals the loop passes over: other messages, other calls' replies, and its own reply as
      long as that has no payload and the deadline has not passed. */
  predicate Skipped(env: CallEnv, n: nat)
    requires n < |env.arrivals|
  {
    && env.arrivals[n].item.Received?
    && match env.arrivals[n].item.frame
       case NotBinary => true
       case Garbage => false
       case Envelope(uid, error, body, _) =>
         || uid != env.uid
         || (error.None? && body.NoBody? && !env.unit && TimeAt(env, n + 1) < Deadline(env))
  }

  /** Whether arrival `n` comes before the loop gives up. */
  predicate InTime(env: CallEnv, n: nat)
    requires n < |env.arrivals|
  {
    TimeAt(env, n) < Deadline(env) && env.arrivals[n].at <= Deadline(env)
  }

  /** How a loop ends at arrival `n`, all earlier ones having been in time and skipped. */
  function EndsAt(env: CallEnv, n: nat): Ending
    requires n <= |env.arrivals|
  {
    if TimeAt(env, n) >= Deadline(env) then Expired
    else if n == |env.arrivals| || env.arrivals[n].at > Deadline(env) then TimedOut
    else
      match env.arrivals[n].item
      case StreamEnd => StreamEnded(TimeAt(env, n + 1) >= Deadline(env))
      case ReceiveError(text) => ReceiveFailed(text)
      case Received(frame) =>
        if !frame.Envelope? then BadFrame
        else if frame.error.Some? then ErrorReply(frame.error.value)
        else if env.unit then Answered(n, Ok(UnitReply))
        else if frame.body.NoBody? then BodyMissing
        else Answered(n, ReadBody(env, frame))
  }

  ghost predicate PassesOver(env: CallEnv, n: nat) {
    n <= |env.arrivals| && forall i :: 0 <= i < n ==> InTime(env, i) && Skipped(env, i)
  }

  /** `n` arrivals are passed over and the next one, or the lack of it, ends the call. */
  ghost predicate StopsAt(env: CallEnv, n: nat) {
    && PassesOver(env, n)
    && (n < |env.arrivals| && InTime(env, n) ==> !Skipped(env, n))
  }

  function ReadBody(env: CallEnv, frame: Frame): Result<Reply>
    requires frame.Envelope? && !frame.body.NoBody?
  {
    var bytes :- match frame.body
      case Plain(bytes) => Ok(bytes)
      case Cipher(bytes) => env.decrypt(frame.source.GetOr(env.twin), bytes);
    var value :- env.parse(bytes);
    Ok(Value(value))
  }

  function TimeoutError(env: CallEnv): GridError { Backend("rmb timeout for " + env.command) }

  function ResultOf(env: CallEnv, e: Ending): Result<Reply> {
    match e
    case NoTwin(error) => Err(error)
    case NoConnection(error) => Err(error)
    case SendFailed(error) => Err(error)
    case TimedOut => Err(TimeoutError(env))
    case Expired => if env.unit then Ok(UnitReply) else Err(TimeoutError(env))
    case StreamEnded(late) =>
      if env.unit then Ok(UnitReply)
      else if late then Err(TimeoutError(env))
      else Err(Backend("relay closed before " + env.command + " response"))
    case ReceiveFailed(text) => Err(Backend(text))
    case BadFrame => Err(Backend("undecodable envelope"))
    case BodyMissing => Err(Backend("rmb response missing payload"))
    case ErrorReply(text) => Err(Backend(text))
    case Answered(_, reply) => reply
  }

  /** The endings after which the client drops its socket. */
  predicate Drops(e: Ending) {
    e.SendFailed? || e.TimedOut? || e.StreamEnded? || e.ReceiveFailed?
  }

  /** One call, from whether the socket was open to how it ended. */
  ghost predicate CallSpec(open: bool, env: CallEnv, e: Ending, open': bool, reconnected: bool, r: Result<Reply>) {
    && r == ResultOf(env, e)
    && reconnected == (!open && env.fetched.Ok? && env.connected.Ok?)
    && (if env.fetched.Err? then e == NoTwin(env.fetched.error) && open' == open
        else if !open && env.connected.Err? then e == NoConnection(Backend(env.connected.error.Display())) && !open'
        else
          && open' == !Drops(e)
          && if env.sent.Err? then e == SendFailed(Backend(env.sent.error.Display()))
             else exists n :: StopsAt(env, n) && e == EndsAt(env, n))
  }

  class RelayClient {
    var socket: bool

    method EnsureRelaySocket(env: CallEnv) returns (r: Result<bool>)
      modifies this
      ensures r.Ok? <==> old(socket) || env.connected.Ok?
      ensures r.Ok? ==> socket && r.value == !old(socket)
      ensures r.Err? ==> !socket && env.connected.Err? && r.error == Backend(env.connected.error.Display())
    {
      if socket { return Ok(false); }
      if env.connected.Err? { return Err(Backend(env.connected.error.Display())); }
      socket := true;
      return Ok(true);
    }

    method RmbCall(env: CallEnv) returns (r: Result<Reply>, reconnected: bool, ghost e: Ending)
      modifies this
      ensures CallSpec(old(socket), env, e, socket, reconnected, r)
    {
      hide TimeAt;
      reconnected := false;
      if env.fetched.Err? { return Err(env.fetched.error), false, NoTwin(env.fetched.error); }
      var ensured := EnsureRelaySocket(env);
      if ensured.Err? { return Err(ensured.error), false, NoConnection(ensured.error); }
      reconnected := ensured.value;
      if env.sent.Err? {
        socket := false;
        r := Err(Backend(env.sent.error.Display()));
        return r, reconnected, SendFailed(r.error);
      }
      r, e := Receive(env);
    }

    method Receive(env: CallEnv) returns (r: Result<Reply>, ghost e: Ending)
      requires socket
      modifies this
      ensures r == ResultOf(env, e) && socket == !Drops(e)
      ensures exists n :: StopsAt(env, n) && e == EndsAt(env, n)
    {
      var deadline := Deadline(env);
      var now, n := env.start, 0;
      while now < deadline
        invariant n <= |env.arrivals| && now == TimeAt(env, n)
        invariant PassesOver(env, n) && socket
        decreases |env.arrivals| - n
      {
        if n == |env.arrivals| || env.arrivals[n].at > deadline {
          socket, e := false, TimedOut;
          assert StopsAt(env, n) && e == EndsAt(env, n);
          return Err(TimeoutError(env)), e;
        }
        var arrival := env.arrivals[n];
        now := Max(now, arrival.at) + arrival.busy;
        e := EndsAt(env, n);
        match arrival.item {
          case StreamEnd =>
            socket := false;
            assert StopsAt(env, n);
            if env.unit { return Ok(UnitReply), e; }
            if now >= deadline { return Err(TimeoutError(env)), e; }
            return Err(Backend("relay closed before " + env.command + " response")), e;
          case ReceiveError(text) =>
            socket := false;
            assert StopsAt(env, n);
            return Err(Backend(text)), e;
          case Received(frame) =>
            if frame.Garbage? {
              assert StopsAt(env, n);
              return Err(Backend("undecodable envelope")), e;
            }
            if frame.Envelope? && frame.uid == env.uid {
              if frame.error.Some? {
                assert StopsAt(env, n);
                return Err(Backend(frame.error.value)), e;
              }
              if env.unit {
                assert StopsAt(env, n);
                return Ok(UnitReply), e;
              }
              if !frame.body.NoBody? {
                assert StopsAt(env, n);
                return ReadBody(env, frame), e;
              }
              if now >= deadline {
                assert StopsAt(env, n);
                return Err(Backend("rmb response missing payload")), e;
              }
            }
        }
        n := n + 1;
      }
      e := Expired;
      assert StopsAt(env, n) && e == EndsAt(env, n);
      if env.unit { return Ok(UnitReply), e; }
      return Err(TimeoutError(env)), e;
    }
  }

  // ---- What the specification means ----

  /** The loop goes on as soon as an arrival is there and the client is no longer busy with it, and no earlier. */
  lemma ClockFollowsArrivals(env: CallEnv, n: nat)
    requires n < |env.arrivals|
    ensures var a, t := env.arrivals[n], TimeAt(env, n + 1);
            && t >= TimeAt(env, n) + a.busy && t >= a.at + a.busy
            && (t == TimeAt(env, n) + a.busy || t == a.at + a.busy)
  {
  }

  lemma StopIsUnique(env: CallEnv, m: nat, n: nat)
    requires StopsAt(env, m) && StopsAt(env, n)
    ensures m == n
  {
  }

  /** The arrivals determine the outcome of a call and the socket it leaves. */
  lemma OutcomeIsDetermined(open: bool, env: CallEnv, e: Ending, o: bool, c: bool, r: Result<Reply>,
                            e': Ending, o': bool, c': bool, r': Result<Reply>)
    requires CallSpec(open, env, e, o, c, r) && CallSpec(open, env, e', o', c', r')
    ensures (e, o, c, r) == (e', o', c', r')
  {
    hide EndsAt, InTime, Skipped;
    if env.fetched.Ok? && (open || env.connected.Ok?) && env.sent.Ok? {
      var m :| StopsAt(env, m) && e == EndsAt(env, m);
      var n :| StopsAt(env, n) && e' == EndsAt(env, n);
      StopIsUnique(env, m, n);
    }
  }

  /** A value is delivered only from an envelope that carries the call's own uid, came in time, and
      reads as that value; and then the socket stays open. */
  lemma ValueCarriesOwnUid(open: bool, env: CallEnv, e: Ending, open': bool, reconnected: bool, r: Result<Reply>)
    requires CallSpec(open, env, e, open', reconnected, r) && r.Ok? && !env.unit
    ensures open' && e.Answered? && e.n < |env.arrivals| && InTime(env, e.n)
    ensures var item := env.arrivals[e.n].item;
            && item.Received? && item.frame.Envelope? && item.frame.uid == env.uid && item.frame.error.None?
            && !item.frame.body.NoBody? && r == ReadBody(env, item.frame)
  {
    hide TimeAt;
    var n :| StopsAt(env, n) && e == EndsAt(env, n);
  }

  /** The payload of an envelope: its plain bytes, or what its sealed bytes open to with the key of its sender,
      which is the called twin when the envelope names none. */
  ghost predicate Opens(env: CallEnv, f: Frame, bytes: Bytes)
    requires f.Envelope?
  {
    || f.body == Plain(bytes)
    || (f.body.Cipher? && env.decrypt(if f.source.Some? then f.source.value else env.twin, f.body.bytes) == Ok(bytes))
  }

  /** A value is what the payload of that envelope reads as. */
  lemma ValueIsThePayload(open: bool, env: CallEnv, e: Ending, open': bool, reconnected: bool, r: Result<Reply>)
    requires CallSpec(open, env, e, open', reconnected, r) && r.Ok? && !env.unit
    ensures e.Answered? && e.n < |env.arrivals|
    ensures env.arrivals[e.n].item.Received? && env.arrivals[e.n].item.frame.Envelope?
    ensures exists bytes, value ::
              Opens(env, env.arrivals[e.n].item.frame, bytes) && env.parse(bytes) == Ok(value) && r == Ok(Value(value))
  {
    ValueCarriesOwnUid(open, env, e, open', reconnected, r);
    hide CallSpec, InTime;
    var f := env.arrivals[e.n].item.frame;
    var bytes := if f.body.Plain? then f.body.bytes else env.decrypt(f.source.GetOr(env.twin), f.body.bytes).value;
    assert Opens(env, f, bytes) && env.parse(bytes) == Ok(r.value.bytes);
  }

  /** How many arrivals the loop passes over, from the environment alone. */
  function PassedFrom(env: CallEnv, n: nat): (m: nat)
    requires n <= |env.arrivals|
    ensures n <= m <= |env.arrivals|
    decreases |env.arrivals| - n
  {
    if n < |env.arrivals| && InTime(env, n) && Skipped(env, n) then PassedFrom(env, n + 1) else n
  }

  lemma {:induction false} PassedStops(env: CallEnv, n: nat)
    requires PassesOver(env, n)
    ensures StopsAt(env, PassedFrom(env, n))
    decreases |env.arrivals| - n
  {
    hide TimeAt, Skipped, InTime;
    if n < |env.arrivals| && InTime(env, n) && Skipped(env, n) { PassedStops(env, n + 1); }
  }

  /** Whether the request went out at all. */
  predicate WentOut(open: bool, env: CallEnv) {
    env.fetched.Ok? && (open || env.connected.Ok?) && env.sent.Ok?
  }

  /** What decides a call without a result: the time is up at the head of the loop, or the next arrival in
      time is the end of the stream or an error-free envelope of its own - so success proves no answer. */
  predicate EndsUnitWell(env: CallEnv, n: nat)
    requires n <= |env.arrivals|
  {
    || TimeAt(env, n) >= Deadline(env)
    || (n < |env.arrivals| && env.arrivals[n].at <= Deadline(env)
        && match env.arrivals[n].item
           case StreamEnd => true
           case Received(Envelope(_, error, _, _)) => error.None?
           case _ => false)
  }

  /** Such a call succeeds exactly under that condition on what arrives after the frames passed over. */
  lemma UnitSucceedsIff(open: bool, env: CallEnv, e: Ending, open': bool, reconnected: bool, r: Result<Reply>)
    requires CallSpec(open, env, e, open', reconnected, r) && env.unit
    ensures r.Ok? <==> WentOut(open, env) && EndsUnitWell(env, PassedFrom(env, 0))
  {
    hide TimeAt;
    if WentOut(open, env) {
      PassedStops(env, 0);
      var n :| StopsAt(env, n) && e == EndsAt(env, n);
      StopIsUnique(env, n, PassedFrom(env, 0));
      hide StopsAt, PassedFrom;
    }
  }

  lemma UnitSucceedsUnanswered(env: CallEnv)
    requires env.unit && env.fetched.Ok? && env.connected.Ok? && env.sent.Ok? && env.ttl > 0
    requires env.arrivals == [Arrival(env.start, StreamEnd, 0)]
    ensures exists e: Ending :: e.StreamEnded? && CallSpec(false, env, e, false, true, Ok(UnitReply))
  {
    assert TimeAt(env, 0) == env.start;
    assert StopsAt(env, 0);
    var e := EndsAt(env, 0);
    assert CallSpec(false, env, e, false, true, Ok(UnitReply));
  }

  // ---- A session: many calls on one client ----

  datatype Done = Done(ending: Ending, open: bool, reconnected: bool, result: Result<Reply>)

  /** The calls of a session in order, each starting from the socket the one before left. */
  ghost predicate Session(open: bool, calls: seq<CallEnv>, log: seq<Done>) {
    && |log| == |calls|
    && forall i :: 0 <= i < |calls| ==>
         CallSpec(OpenBefore(open, log, i), calls[i], log[i].ending, log[i].open, log[i].reconnected, log[i].result)
  }

  predicate OpenBefore(open: bool, log: seq<Done>, i: nat)
    requires i <= |log|
  {
    if i == 0 then open else log[i - 1].open
  }

  /** Uids are drawn fresh. */
  predicate FreshUids(calls: seq<CallEnv>) {
    forall i, j :: 0 <= i < j < |calls| ==> calls[i].uid != calls[j].uid
  }

  /** Whatever frames arrive in between, no call of a session is given another call's reply. */
  lemma LateRepliesAreNeverDelivered(open: bool, calls: seq<CallEnv>, log: seq<Done>, i: nat, j: nat)
    requires Session(open, calls, log) && FreshUids(calls)
    requires i < |calls| && j < |calls| && i != j
    requires !calls[i].unit && log[i].result.Ok?
    ensures log[i].ending.Answered? && log[i].ending.n < |calls[i].arrivals|
    ensures var item := calls[i].arrivals[log[i].ending.n].item;
            item.Received? && item.frame.Envelope? && item.frame.uid == calls[i].uid != calls[j].uid
  {
    hide CallSpec, ReadBody, InTime;
    ValueCarriesOwnUid(OpenBefore(open, log, i), calls[i], log[i].ending, log[i].open, log[i].reconnected,
                       log[i].result);
    assert calls[i].uid != calls[j].uid;
  }

  /** The socket is lost by a send failure, a receive failure, a receive time-out or the end of the
      stream, and by nothing else that happens once the relay was reached: exactly then the next
      call that reaches the relay connects anew. */
  lemma ReconnectsIffLost(open: bool, calls: seq<CallEnv>, log: seq<Done>, i: nat)
    requires Session(open, calls, log) && i + 1 < |calls|
    requires calls[i].fetched.Ok? && (OpenBefore(open, log, i) || calls[i].connected.Ok?)
    requires calls[i + 1].fetched.Ok? && calls[i + 1].connected.Ok?
    ensures log[i + 1].reconnected <==>
              || log[i].ending.SendFailed? || log[i].ending.ReceiveFailed?
              || log[i].ending.TimedOut? || log[i].ending.StreamEnded?
  {
    hide StopsAt, EndsAt, ResultOf;
    assert CallSpec(OpenBefore(open, log, i), calls[i], log[i].ending, log[i].open, log[i].reconnected, log[i].result);
    assert CallSpec(OpenBefore(open, log, i + 1), calls[i + 1], log[i + 1].ending, log[i + 1].open,
                    log[i + 1].reconnected, log[i + 1].result);
  }

  /** Losing the relay or the reply is an error the deployment polls retry. */
  lemma LostRepliesAreRetried(open: bool, env: CallEnv, e: Ending, open': bool, reconnected: bool, r: Result<Reply>)
    requires CallSpec(open, env, e, open', reconnected, r) && !env.unit
    requires e.TimedOut? || e.Expired? || e.StreamEnded?
    ensures r.Err? && Retryable(env.command, r.error)
  {
    hide StopsAt, EndsAt, OccursAt;
    var late, closed := "rmb timeout for " + env.command, "relay closed before " + env.command + " response";
    PrefixIsContained(late, "");
    PrefixIsContained(closed, "");
    assert late + "" == late && closed + "" == closed;
  }
}
