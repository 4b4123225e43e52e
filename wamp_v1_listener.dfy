/**
 * The WAMP v1 listener: when a connection opens, the generic listener
 * registers a client for it, and then the v1 listener sends that client
 * exactly one WELCOME carrying the client's session id, protocol version 1
 * and the server ident "WampSharp".
 *
 * The client container and the generic listener it extends are reduced to
 * a map from connection to client; what the listener does is recorded as
 * an ordered trace of events.
 */
module WampV1Listener {

  /** A transport connection, by identity. */
  datatype Connection = Connection(id: nat)

  /** The IWampClient proxy the container creates for a connection. */
  datatype Client = Client(id: nat, sessionId: string)

  /** The WAMP v1 WELCOME message. */
  datatype Welcome = Welcome(sessionId: string, protocolVersion: int, serverIdent: string)

  /** The WAMP v1 message type id of WELCOME. */
  const WelcomeTypeId: int := 0

  /** The protocol version a WAMP v1 server announces. */
  const ProtocolVersion: int := 1

  /** The server ident this implementation announces. */
  const ServerIdent: string := "WampSharp"

  /** The JSON values a WELCOME frame is made of. */
  datatype Json = JNumber(n: int) | JString(s: string)

  /** A WELCOME as a WAMP v1 frame: `[TYPE_ID_WELCOME, sessionId, protocolVersion, serverIdent]`. */
  function EncodeWelcome(w: Welcome): (frame: seq<Json>)
  {
    [JNumber(WelcomeTypeId), JString(w.sessionId), JNumber(w.protocolVersion), JString(w.serverIdent)]
  }

  /** The WELCOME sent to a client: its own session id, version 1, ident "WampSharp". */
  function WelcomeFor(client: Client): (w: Welcome)
  {
    Welcome(client.sessionId, ProtocolVersion, ServerIdent)
  }

  lemma WelcomeForFrame(client: Client)
    ensures EncodeWelcome(WelcomeFor(client)) ==
      [JNumber(0), JString(client.sessionId), JNumber(1), JString("WampSharp")]
  {
  }

  /** What the listener does, in the order it does it. */
  datatype ListenerEvent =
    | ClientRegistered(connection: Connection, client: Client)
    | WelcomeSent(client: Client, message: Welcome)

  /** The number of WELCOMEs in a trace. */
  function WelcomeCount(trace: seq<ListenerEvent>): (n: nat)
  {
    if trace == [] then 0
    else (if trace[0].WelcomeSent? then 1 else 0) + WelcomeCount(trace[1..])
  }

  lemma {:induction false} WelcomeCountAppend(a: seq<ListenerEvent>, b: seq<ListenerEvent>)
    ensures WelcomeCount(a + b) == WelcomeCount(a) + WelcomeCount(b)
    decreases |a|
  {
    if a == [] {
      assert a + b == b;
    } else {
      assert (a + b)[1..] == a[1..] + b;
      WelcomeCountAppend(a[1..], b);
    }
  }

  /** A connection-open step adds exactly one WELCOME to the trace. */
  lemma OneWelcomePerOpen(trace: seq<ListenerEvent>, connection: Connection, client: Client)
    ensures WelcomeCount(trace + [ClientRegistered(connection, client), WelcomeSent(client, WelcomeFor(client))])
         == WelcomeCount(trace) + 1
  {
    var step := [ClientRegistered(connection, client), WelcomeSent(client, WelcomeFor(client))];
    WelcomeCountAppend(trace, step);
    assert step[1..][1..] == [];
    assert WelcomeCount(step[1..]) == 1 + WelcomeCount(step[1..][1..]);
  }

  /** Some event before position `i` of the trace registered `client`. */
  ghost predicate RegisteredBefore(trace: seq<ListenerEvent>, i: nat, client: Client)
    requires i <= |trace|
  {
    exists j :: 0 <= j < i && trace[j].ClientRegistered? && trace[j].client == client
  }

  /** Every WELCOME goes to a client that was registered earlier in the trace. */
  ghost predicate WelcomesFollowRegistration(trace: seq<ListenerEvent>)
  {
    forall i :: 0 <= i < |trace| && trace[i].WelcomeSent? ==> RegisteredBefore(trace, i, trace[i].client)
  }

  /** Registering a client and then welcoming it keeps every WELCOME after its registration. */
  lemma RegisterThenWelcomeKeepsOrder(trace: seq<ListenerEvent>, connection: Connection, client: Client, w: Welcome)
    requires WelcomesFollowRegistration(trace)
    ensures WelcomesFollowRegistration(trace + [ClientRegistered(connection, client), WelcomeSent(client, w)])
  {
    var t := trace + [ClientRegistered(connection, client), WelcomeSent(client, w)];
    forall i | 0 <= i < |t| && t[i].WelcomeSent?
      ensures RegisteredBefore(t, i, t[i].client)
    {
      if i < |trace| {
        var j :| 0 <= j < i && trace[j].ClientRegistered? && trace[j].client == trace[i].client;
        assert t[j] == trace[j];
      } else {
        assert t[|trace|] == ClientRegistered(connection, client);
      }
    }
  }

  /** WampListener<TMessage>, with the client container of the listener it extends. */
  class WampListener {
    var clients: map<Connection, Client>
    var trace: seq<ListenerEvent>

    ghost predicate Valid()
      reads this
    {
      WelcomesFollowRegistration(trace)
    }

    constructor ()
      ensures Valid() && clients == map[] && trace == []
    {
      clients := map[];
      trace := [];
    }

    /** The generic listener's open step: the container associates the connection with its new client. */
    method BaseOnConnectionOpen(connection: Connection, created: Client)
      requires Valid()
      modifies this
      ensures Valid()
      ensures clients == old(clients)[connection := created]
      ensures trace == old(trace) + [ClientRegistered(connection, created)]
    {
      clients := clients[connection := created];
      trace := trace + [ClientRegistered(connection, created)];
      assert forall i :: 0 <= i < |old(trace)| ==> trace[i] == old(trace)[i];
      assert WelcomesFollowRegistration(trace) by {
        forall i | 0 <= i < |trace| && trace[i].WelcomeSent?
          ensures RegisteredBefore(trace, i, trace[i].client)
        {
          var j :| 0 <= j < i && old(trace)[j].ClientRegistered? && old(trace)[j].client == old(trace)[i].client;
          assert trace[j] == old(trace)[j];
        }
      }
    }

    /**
     * OnConnectionOpen: run the generic open step, look up the client the
     * container holds for the connection, and send it one WELCOME.
     * `created` is the client the container creates for this connection.
     */
    method OnConnectionOpen(connection: Connection, created: Client)
      requires Valid()
      modifies this
      ensures Valid()
      ensures clients == old(clients)[connection := created]
      ensures trace == old(trace) + [ClientRegistered(connection, created), WelcomeSent(created, WelcomeFor(created))]
      ensures WelcomeCount(trace) == WelcomeCount(old(trace)) + 1
    {
      BaseOnConnectionOpen(connection, created);
      var client := clients[connection];
      trace := trace + [WelcomeSent(client, Welcome(client.sessionId, ProtocolVersion, ServerIdent))];
      assert trace == old(trace) + [ClientRegistered(connection, created), WelcomeSent(created, WelcomeFor(created))];
      RegisterThenWelcomeKeepsOrder(old(trace), connection, created, WelcomeFor(created));
      OneWelcomePerOpen(old(trace), connection, created);
    }
  }
}
