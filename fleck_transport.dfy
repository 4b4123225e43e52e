/**
 * The WebSocket transport built on Fleck: a table from binding
 * (sub-protocol) name to the connection listener serving that binding.
 * The table is filled by GetListener, advertised to clients by Open,
 * consulted for every new connection, and completed by Dispose.
 *
 * The Fleck server is reduced to the fields the transport sets on it
 * (the supported sub-protocols, started, disposed); a raw Fleck
 * connection is reduced to its identity and the sub-protocol Fleck
 * negotiated for it. Each listener's Rx subject is reduced to its
 * observers, a completed flag and the log of notifications it has
 * delivered.
 */
module FleckTransport {
  import opened Wrappers
  import opened Bindings

  /** A raw Fleck connection, seen only through its negotiated sub-protocol. */
  datatype WebSocketConnection = WebSocketConnection(id: nat, negotiatedSubProtocol: string)

  /** Which of the two listener classes serves a binding. */
  datatype ListenerKind = Text | Binary

  /** A FleckWampTextConnection or FleckWampBinaryConnection: a raw connection wrapped with its binding. */
  datatype WampConnection = WampConnection(kind: ListenerKind, socket: WebSocketConnection, binding: Binding)

  /** An observer subscribed to a listener, by identity. */
  type ObserverId = nat

  /** One call a subject makes on one of its observers. */
  datatype Notification =
    | OnNext(observer: ObserverId, connection: WampConnection)
    | OnCompleted(observer: ObserverId)

  /** The exceptions the transport raises. */
  datatype TransportError =
    | BindingAlreadyRegistered(name: string)  // ArgumentException: a binding of that name exists
    | UnsupportedBinding                      // ArgumentException: neither a text nor a binary binding
    | KeyNotFound(protocol: string)           // the dictionary indexer found no listener for the protocol

  /** What a subject delivers when it forwards `c`: one OnNext per observer, in subscription order. */
  function NextToAll(observers: seq<ObserverId>, c: WampConnection): (r: seq<Notification>)
    ensures |r| == |observers|
    ensures forall i :: 0 <= i < |r| ==> r[i] == OnNext(observers[i], c)
  {
    if observers == [] then [] else [OnNext(observers[0], c)] + NextToAll(observers[1..], c)
  }

  /** What a subject delivers when it completes: one OnCompleted per observer, in subscription order. */
  function CompletedToAll(observers: seq<ObserverId>): (r: seq<Notification>)
    ensures |r| == |observers|
    ensures forall i :: 0 <= i < |r| ==> r[i] == OnCompleted(observers[i])
  {
    if observers == [] then [] else [OnCompleted(observers[0])] + CompletedToAll(observers[1..])
  }

  /** The listener kind GetListener picks: the text check comes before the binary check. */
  function KindOf(binding: Binding): (k: Option<ListenerKind>)
  {
    if binding.isText then Some(Text)
    else if binding.isBinary then Some(Binary)
    else None
  }

  lemma KindOfCases(binding: Binding)
    ensures KindOf(binding) == Some(Text) <==> binding.isText
    ensures KindOf(binding) == Some(Binary) <==> !binding.isText && binding.isBinary
    ensures KindOf(binding) == None <==> !binding.isText && !binding.isBinary
  {
  }

  /**
   * `mBindings.Keys.ToArray()`: the registered names, each exactly once,
   * in an order the dictionary chooses.
   */
  method KeysToArray(keys: set<string>) returns (protocols: seq<string>)
    ensures |protocols| == |keys|
    ensures forall p :: p in protocols <==> p in keys
    ensures forall i, j :: 0 <= i < j < |protocols| ==> protocols[i] != protocols[j]
  {
    protocols := [];
    var remaining := keys;
    while remaining != {}
      invariant remaining <= keys
      invariant |protocols| + |remaining| == |keys|
      invariant forall p :: p in protocols <==> p in keys && p !in remaining
      invariant forall i, j :: 0 <= i < j < |protocols| ==> protocols[i] != protocols[j]
      decreases remaining
    {
      var k :| k in remaining;
      protocols := protocols + [k];
      remaining := remaining - {k};
    }
  }

  /** A ConnectionListener<TMessage> together with the Rx subject it owns. */
  class ConnectionListener {
    const kind: ListenerKind
    const binding: Binding
    var observers: seq<ObserverId>
    var completed: bool
    var delivered: seq<Notification>

    /** A completed subject has released its observers. */
    ghost predicate Valid()
      reads this
    {
      completed ==> observers == []
    }

    /** A listener as GetListener creates it, with a fresh subject. */
    ghost predicate IsNew()
      reads this
    {
      observers == [] && !completed && delivered == []
    }

    constructor (kind: ListenerKind, binding: Binding)
      ensures Valid() && IsNew()
      ensures this.kind == kind && this.binding == binding
    {
      this.kind := kind;
      this.binding := binding;
      observers := [];
      completed := false;
      delivered := [];
    }

    /** Subscribe: a live subject records the observer; a completed one completes it at once. */
    method Subscribe(observer: ObserverId)
      requires Valid()
      modifies this
      ensures Valid() && completed == old(completed)
      ensures old(completed) ==> observers == old(observers) && delivered == old(delivered) + [OnCompleted(observer)]
      ensures !old(completed) ==> observers == old(observers) + [observer] && delivered == old(delivered)
    {
      if completed {
        delivered := delivered + [OnCompleted(observer)];
      } else {
        observers := observers + [observer];
      }
    }

    /**
     * OnNewConnection(IWebSocketConnection): wrap the raw connection with
     * this listener's binding and forward it to every observer.
     */
    method OnNewConnection(socket: WebSocketConnection)
      requires Valid()
      modifies this
      ensures Valid() && observers == old(observers) && completed == old(completed)
      ensures delivered == old(delivered) + NextToAll(observers, WampConnection(kind, socket, binding))
    {
      var connection := WampConnection(kind, socket, binding);
      delivered := delivered + NextToAll(observers, connection);
    }

    /** Dispose: complete the subject; a subject already completed delivers nothing more. */
    method Dispose()
      requires Valid()
      modifies this
      ensures Valid() && completed && observers == []
      ensures delivered == old(delivered) + CompletedToAll(old(observers))
    {
      delivered := delivered + CompletedToAll(observers);
      observers := [];
      completed := true;
    }
  }

  /** FleckWebSocketTransport. */
  class Transport {
    const location: string
    var bindings: map<string, ConnectionListener>
    var supportedSubProtocols: seq<string>
    var started: bool
    var serverDisposed: bool

    /**
     * Every listener is filed under its own binding's name (so no listener
     * serves two names), every subject is consistent, and every advertised
     * sub-protocol has a listener.
     */
    ghost predicate Valid()
      reads this, bindings.Values
    {
      && (forall name :: name in bindings ==> bindings[name].binding.name == name && bindings[name].Valid())
      && (forall p :: p in supportedSubProtocols ==> p in bindings)
    }

    constructor (location: string)
      ensures Valid() && this.location == location
      ensures bindings == map[] && supportedSubProtocols == [] && !started && !serverDisposed
    {
      this.location := location;
      bindings := map[];
      supportedSubProtocols := [];
      started := false;
      serverDisposed := false;
    }

    /** RegisterBinding: reject a name that is already a key, otherwise add exactly `name -> listener`. */
    method RegisterBinding(binding: Binding, listener: ConnectionListener) returns (r: Result<(), TransportError>)
      requires Valid() && listener.Valid() && listener.binding == binding
      modifies this
      ensures Valid()
      ensures binding.name in old(bindings) ==>
        r == Failure(BindingAlreadyRegistered(binding.name)) && bindings == old(bindings)
      ensures binding.name !in old(bindings) ==>
        r == Success(()) && bindings == old(bindings)[binding.name := listener]
      ensures supportedSubProtocols == old(supportedSubProtocols)
      ensures started == old(started) && serverDisposed == old(serverDisposed)
    {
      if binding.name in bindings {
        return Failure(BindingAlreadyRegistered(binding.name));
      }
      bindings := bindings[binding.name := listener];
      r := Success(());
    }

    /**
     * The private text and binary GetListener overloads: create a listener
     * of the given kind for the binding and register it.
     */
    method GetTypedListener(kind: ListenerKind, binding: Binding) returns (r: Result<ConnectionListener, TransportError>)
      requires Valid()
      modifies this
      ensures Valid()
      ensures binding.name in old(bindings) ==>
        r == Failure(BindingAlreadyRegistered(binding.name)) && bindings == old(bindings)
      ensures binding.name !in old(bindings) ==>
        && r.Success? && fresh(r.value) && r.value.IsNew()
        && r.value.kind == kind && r.value.binding == binding
        && bindings == old(bindings)[binding.name := r.value]
      ensures supportedSubProtocols == old(supportedSubProtocols)
      ensures started == old(started) && serverDisposed == old(serverDisposed)
    {
      var listener := new ConnectionListener(kind, binding);
      var registered := RegisterBinding(binding, listener);
      if registered.Failure? {
        return Failure(registered.error);
      }
      r := Success(listener);
    }

    /**
     * GetListener: a text binding gets a text listener, otherwise a binary
     * binding gets a binary listener, otherwise the binding is rejected and
     * nothing is registered.
     */
    method GetListener(binding: Binding) returns (r: Result<ConnectionListener, TransportError>)
      requires Valid()
      modifies this
      ensures Valid()
      ensures KindOf(binding).None? ==> r == Failure(UnsupportedBinding) && bindings == old(bindings)
      ensures KindOf(binding).Some? && binding.name in old(bindings) ==>
        r == Failure(BindingAlreadyRegistered(binding.name)) && bindings == old(bindings)
      ensures KindOf(binding).Some? && binding.name !in old(bindings) ==>
        && r.Success? && fresh(r.value) && r.value.IsNew()
        && Some(r.value.kind) == KindOf(binding) && r.value.binding == binding
        && bindings == old(bindings)[binding.name := r.value]
      ensures supportedSubProtocols == old(supportedSubProtocols)
      ensures started == old(started) && serverDisposed == old(serverDisposed)
    {
      if binding.isText {
        r := GetTypedListener(Text, binding);
      } else if binding.isBinary {
        r := GetTypedListener(Binary, binding);
      } else {
        r := Failure(UnsupportedBinding);
      }
    }

    /** Open: advertise exactly the registered names as sub-protocols and start the server. */
    method Open()
      requires Valid()
      modifies this
      ensures Valid() && bindings == old(bindings)
      ensures started && serverDisposed == old(serverDisposed)
      ensures |supportedSubProtocols| == |bindings|
      ensures forall p :: p in supportedSubProtocols <==> p in bindings
      ensures forall i, j :: 0 <= i < j < |supportedSubProtocols| ==> supportedSubProtocols[i] != supportedSubProtocols[j]
    {
      var protocols := KeysToArray(bindings.Keys);
      supportedSubProtocols := protocols;
      started := true;
    }

    /**
     * OnNewConnection: hand the connection to the listener registered under
     * its negotiated sub-protocol; an unregistered sub-protocol fails at the
     * lookup and reaches no listener.
     */
    method OnNewConnection(socket: WebSocketConnection) returns (r: Result<(), TransportError>)
      requires Valid()
      modifies bindings.Values
      ensures Valid()
      ensures socket.negotiatedSubProtocol !in bindings ==>
        r == Failure(KeyNotFound(socket.negotiatedSubProtocol))
      ensures socket.negotiatedSubProtocol in bindings ==>
        var listener := bindings[socket.negotiatedSubProtocol];
        && r == Success(())
        && listener.observers == old(listener.observers)
        && listener.completed == old(listener.completed)
        && listener.delivered == old(listener.delivered) + NextToAll(listener.observers, WampConnection(listener.kind, socket, listener.binding))
      ensures forall name :: name in bindings && name != socket.negotiatedSubProtocol ==> unchanged(bindings[name])
    {
      var protocol := socket.negotiatedSubProtocol;
      if protocol !in bindings {
        return Failure(KeyNotFound(protocol));
      }
      var listener := bindings[protocol];
      listener.OnNewConnection(socket);
      r := Success(());
    }

    /** Dispose: complete every registered listener, then dispose the server. */
    method Dispose()
      requires Valid()
      modifies this, bindings.Values
      ensures Valid() && bindings == old(bindings) && serverDisposed
      ensures supportedSubProtocols == old(supportedSubProtocols) && started == old(started)
      ensures forall name :: name in bindings ==>
        && bindings[name].completed && bindings[name].observers == []
        && bindings[name].delivered == old(bindings[name].delivered) + CompletedToAll(old(bindings[name].observers))
    {
      var remaining := bindings.Keys;
      while remaining != {}
        invariant remaining <= bindings.Keys
        invariant bindings == old(bindings) && Valid()
        invariant supportedSubProtocols == old(supportedSubProtocols) && started == old(started)
        invariant forall name :: name in bindings && name !in remaining ==>
          && bindings[name].completed && bindings[name].observers == []
          && bindings[name].delivered == old(bindings[name].delivered) + CompletedToAll(old(bindings[name].observers))
        invariant forall name :: name in remaining ==> unchanged(bindings[name])
        decreases remaining
      {
        var name :| name in remaining;
        bindings[name].Dispose();
        remaining := remaining - {name};
      }
      serverDisposed := true;
    }
  }
}
