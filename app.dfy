/**
 * The process-wide state of main.go and the handlers that change it: the
 * session (`wac`), the history of received text messages (`textMessageList`)
 * and, standing for each registered client's `Send` channel, the sequence of
 * payloads pushed into it.
 */
module App {
  import opened Wrappers
  import opened WhatsApp

  /** A call main.go makes into the session library that tears down or makes a session. */
  datatype SessionCall<Handle> = NewConn(result: Option<Handle>) | Logout(handle: Handle)

  /** The outcome of `/read_all`. */
  datatype ReadAllReply = Unauthorized | Messages(messages: seq<TextMessage>)

  /**
   * The session a trace of calls leaves installed: the result of the last
   * call if that is a NewConn, and none if there is no call or the last one
   * is a Logout.
   */
  function Current<Handle>(calls: seq<SessionCall<Handle>>): (session: Option<Handle>)
    ensures calls == [] ==> session == None
    ensures calls != [] && calls[|calls| - 1].NewConn? ==> session == calls[|calls| - 1].result
    ensures calls != [] && calls[|calls| - 1].Logout? ==> session == None
    ensures session.Some? ==> |calls| > 0 && calls[|calls| - 1] == NewConn(session)
  {
    if calls == [] then None
    else match calls[|calls| - 1]
      case NewConn(result) => result
      case Logout(_) => None
  }

  /**
   * At most one session at a time: a session a NewConn installed is logged
   * out before anything else happens, and only an installed session is ever
   * logged out.
   */
  ghost predicate OneSessionAtATime<Handle>(calls: seq<SessionCall<Handle>>) {
    && (forall i :: 0 <= i < |calls| - 1 && calls[i].NewConn? && calls[i].result.Some? ==>
          calls[i + 1] == Logout(calls[i].result.value))
    && (forall i :: 0 <= i < |calls| && calls[i].Logout? ==>
          0 < i && calls[i - 1] == NewConn(Some(calls[i].handle)))
  }

  /** In a trace with one session at a time, a NewConn runs only when no session is installed. */
  lemma NewConnOnlyWhenAbsent<Handle>(calls: seq<SessionCall<Handle>>, i: nat)
    requires OneSessionAtATime(calls)
    requires i < |calls| && calls[i].NewConn?
    ensures Current(calls[..i]) == None
  {
    if 0 < i {
      assert calls[..i][i - 1] == calls[i - 1];
    }
  }

  /** In a trace with one session at a time, a Logout tears down exactly the installed session. */
  lemma LogoutTearsDownCurrent<Handle>(calls: seq<SessionCall<Handle>>, i: nat)
    requires OneSessionAtATime(calls)
    requires i < |calls| && calls[i].Logout?
    ensures Current(calls[..i]) == Some(calls[i].handle)
  {
    assert calls[..i][i - 1] == calls[i - 1];
  }

  /** Every client's queue after one fan-out of `payload`; it neither adds nor removes clients. */
  function Delivered<ClientId>(queues: map<ClientId, seq<Payload>>, payload: Payload): (r: map<ClientId, seq<Payload>>)
    ensures r.Keys == queues.Keys
  {
    map c | c in queues :: queues[c] + [payload]
  }

  /**
   * A fan-out gives each client the payload exactly once more than it had,
   * as its newest entry, and leaves what was queued before untouched.
   */
  lemma DeliveredOnce<ClientId>(queues: map<ClientId, seq<Payload>>, payload: Payload, c: ClientId)
    requires c in queues
    ensures c in Delivered(queues, payload)
    ensures |Delivered(queues, payload)[c]| == |queues[c]| + 1
    ensures multiset(Delivered(queues, payload)[c])[payload] == multiset(queues[c])[payload] + 1
    ensures Delivered(queues, payload)[c][..|queues[c]|] == queues[c]
    ensures Delivered(queues, payload)[c][|queues[c]|] == payload
  {
  }

  /** The queues after several fan-outs, one after another; the clients stay the same. */
  function DeliveredAll<ClientId>(queues: map<ClientId, seq<Payload>>, payloads: seq<Payload>): (r: map<ClientId, seq<Payload>>)
    ensures r.Keys == queues.Keys
    decreases |payloads|
  {
    if payloads == [] then queues else DeliveredAll(Delivered(queues, payloads[0]), payloads[1..])
  }

  /** Every client receives the payloads in the order they were published. */
  lemma {:induction false} DeliveredAllInOrder<ClientId>(queues: map<ClientId, seq<Payload>>, payloads: seq<Payload>, c: ClientId)
    requires c in queues
    ensures c in DeliveredAll(queues, payloads)
    ensures DeliveredAll(queues, payloads)[c] == queues[c] + payloads
    decreases |payloads|
  {
    if payloads != [] {
      var next := Delivered(queues, payloads[0]);
      DeliveredAllInOrder(next, payloads[1..], c);
      assert queues[c] + [payloads[0]] + payloads[1..] == queues[c] + payloads;
    }
  }

  class State<Handle, ClientId(==)> {
    /** json.NewEncoder(...).Encode of a text message and of a raw string; not interpreted. */
    const encodeText: TextMessage -> Payload
    const encodeJson: string -> Payload

    var session: Option<Handle>
    var history: seq<TextMessage>
    var queues: map<ClientId, seq<Payload>>

    /** The NewConn and Logout calls made so far, oldest first. */
    ghost var calls: seq<SessionCall<Handle>>

    ghost predicate Valid()
      reads this
    {
      session == Current(calls) && OneSessionAtATime(calls)
    }

    /** The state at process start, with the clients the hub has registered. */
    constructor (encodeText: TextMessage -> Payload, encodeJson: string -> Payload, clients: set<ClientId>)
      ensures Valid()
      ensures this.encodeText == encodeText && this.encodeJson == encodeJson
      ensures session == None && history == [] && calls == []
      ensures queues == map c | c in clients :: []
    {
      this.encodeText := encodeText;
      this.encodeJson := encodeJson;
      session := None;
      history := [];
      queues := map c | c in clients :: [];
      calls := [];
    }

    /**
     * The synchronous part of `/login`: an existing session has its history
     * dropped and is logged out, then NewConn's result becomes the session,
     * even when NewConn also reported an error. `proceed` says whether the
     * handler goes on to run the login handshake.
     */
    method StartLogin(conn: Option<Handle>, connFailed: bool) returns (proceed: bool)
      requires Valid()
      modifies this
      ensures Valid()
      ensures session == conn
      ensures old(session).Some? ==> history == [] && calls == old(calls) + [Logout(old(session).value), NewConn(conn)]
      ensures old(session).None? ==> history == old(history) && calls == old(calls) + [NewConn(conn)]
      ensures queues == old(queues)
      ensures proceed == !connFailed
    {
      if session.Some? {
        history := [];
        calls := calls + [Logout(session.value)];
      }
      session := conn;
      calls := calls + [NewConn(conn)];
      proceed := !connFailed;
    }

    /** Pushes one payload into every registered client's queue. */
    method Broadcast(payload: Payload)
      modifies this
      ensures queues == Delivered(old(queues), payload)
      ensures session == old(session) && history == old(history) && calls == old(calls)
    {
      var pending := queues.Keys;
      while pending != {}
        invariant pending <= queues.Keys == old(queues).Keys
        invariant forall c :: c in queues ==>
          queues[c] == if c in pending then old(queues)[c] else old(queues)[c] + [payload]
        invariant session == old(session) && history == old(history) && calls == old(calls)
        decreases pending
      {
        var c :| c in pending;
        queues := queues[c := queues[c] + [payload]];
        pending := pending - {c};
      }
    }

    /** A text message from the session: kept in the history, then pushed to every client. */
    method HandleTextMessage(message: TextMessage)
      requires Valid()
      modifies this
      ensures Valid()
      ensures history == old(history) + [message]
      ensures queues == Delivered(old(queues), encodeText(message))
      ensures session == old(session) && calls == old(calls)
    {
      history := history + [message];
      var payload := encodeText(message);
      Broadcast(payload);
    }

    /** A raw protocol message: pushed to every client, not kept. */
    method HandleJsonMessage(message: string)
      requires Valid()
      modifies this
      ensures Valid()
      ensures queues == Delivered(old(queues), encodeJson(message))
      ensures history == old(history) && session == old(session) && calls == old(calls)
    {
      var payload := encodeJson(message);
      Broadcast(payload);
    }

    /** An image message is only logged. */
    method HandleImageMessage<ImageMessage>(message: ImageMessage)
      ensures unchanged(this)
    {
    }

    /** A video message is only logged. */
    method HandleVideoMessage<VideoMessage>(message: VideoMessage)
      ensures unchanged(this)
    {
    }

    /** An error from the session is only logged. */
    method HandleError<Error>(err: Error)
      ensures unchanged(this)
    {
    }

    /** `/read_all`: the whole history, oldest first, once a session is present. */
    method ReadAll() returns (reply: ReadAllReply)
      ensures reply == Unauthorized <==> session == None
      ensures reply.Messages? ==> reply.messages == history
    {
      if session == None {
        return Unauthorized;
      }
      return Messages(history);
    }
  }
}
