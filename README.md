# WampSharp router core, modelled in Dafny

This project models four sequential pieces of the WampSharp router and proves what they promise.

- **The Fleck WebSocket transport** (`FleckTransport`, file `fleck_transport.dfy`). It keeps a table from binding (sub-protocol) name to connection listener.
  - Registering a name twice is rejected.
  - `GetListener` creates a text or binary listener, and a text binding wins when a binding is both.
  - `Open` advertises exactly the registered names as the server's supported sub-protocols. This is the `Sec-WebSocket-Protocol` negotiation of section 4.2.2 of RFC 6455.
  - A new connection goes to the listener of its negotiated sub-protocol.
  - `Dispose` completes every listener's subject.
- **The binded realm container** (`BindedRealms`, file `binded_realms.dfy`). It is a get-or-create cache from realm name to the realm wrapper for one binding. A name gets at most one wrapper, and an entry is never replaced.
- **The async RPC operation descriptor** (`RpcOperations`, file `rpc_operation.dfy`). This covers its construction rules (result flag, parameters, collection-result treatment, procedure name). It also covers how `InvokeAsync` translates the exceptions the target method throws.
- **The WAMP v1 listener** (`WampV1Listener`, file `wamp_v1_listener.dfy`). When a connection opens, the generic listener registers the client. Then exactly one WELCOME `[0, sessionId, 1, "WampSharp"]` is sent to that client.

Two helper modules support them. `Wrappers` (`wrappers.dfy`) holds `Option` and `Result`. `Bindings` (`bindings.dfy`) holds the binding value that the transport and the realm container share.

The source changes state in the transport, the realm container and the listener, so those are classes. Their methods say exactly what the new state is. Each has a `Valid()` invariant:
- Transport: every listener is filed under its own binding's name, and every advertised sub-protocol has a listener.
- Realm container: every cached realm wraps the hosted realm of its own name.
- Listener: every WELCOME follows the registration of its client.

The RPC operation is immutable, so it is a datatype with functions and lemmas.

## Model

| member | source | states |
|---|---|---|
| `FleckTransport.KeysToArray` | src/net45/WampSharp.Default/Fleck/FleckWebSocketTransport.cs:44 | the protocol array holds every registered name exactly once and nothing else |
| `FleckTransport.NextToAll` | src/net45/WampSharp.Default/Fleck/FleckWebSocketTransport.cs:123-126 | forwarding a connection gives each subscribed observer one OnNext with that connection, in subscription order |
| `FleckTransport.CompletedToAll` | src/net45/WampSharp.Default/Fleck/FleckWebSocketTransport.cs:133-137 | completing the subject gives each subscribed observer one OnCompleted, in subscription order |
| `FleckTransport.KindOfCases` | src/net45/WampSharp.Default/Fleck/FleckWebSocketTransport.cs:60-77 | a text binding is served as text even if it is also binary; binary is chosen only for a non-text binary binding; a binding that is neither is rejected |
| `FleckTransport.ConnectionListener.constructor` | src/net45/WampSharp.Default/Fleck/FleckWebSocketTransport.cs:163-170 | a new listener keeps its kind and binding, and its subject has no observers, is not completed and has delivered nothing |
| `FleckTransport.ConnectionListener.Subscribe` | src/net45/WampSharp.Default/Fleck/FleckWebSocketTransport.cs:128-131 | a live subject appends the observer; a completed subject leaves its observers alone and completes the new observer at once |
| `FleckTransport.ConnectionListener.OnNewConnection` | src/net45/WampSharp.Default/Fleck/FleckWebSocketTransport.cs:157-183 | the raw connection is wrapped with the listener's kind and binding and sent to every observer; observers and the completed flag do not change |
| `FleckTransport.ConnectionListener.Dispose` | src/net45/WampSharp.Default/Fleck/FleckWebSocketTransport.cs:133-137 | the subject becomes completed with no observers, after one OnCompleted per former observer; disposing a completed listener delivers nothing more |
| `FleckTransport.Transport.constructor` | src/net45/WampSharp.Default/Fleck/FleckWebSocketTransport.cs:17-30 | a new transport has no bindings and advertises no sub-protocols; its server is neither started nor disposed |
| `FleckTransport.Transport.RegisterBinding` | src/net45/WampSharp.Default/Fleck/FleckWebSocketTransport.cs:97-107 | a name that is already a key fails with the duplicate-binding error and leaves the table unchanged; a fresh name adds exactly `name -> listener` |
| `FleckTransport.Transport.GetTypedListener` | src/net45/WampSharp.Default/Fleck/FleckWebSocketTransport.cs:79-95 | a fresh listener of the requested kind is registered under the binding's name and that same listener is returned; a duplicate name fails and the table is unchanged |
| `FleckTransport.Transport.GetListener` | src/net45/WampSharp.Default/Fleck/FleckWebSocketTransport.cs:60-77 | the kind follows the text-then-binary test; a binding that is neither fails with the unsupported-binding error and registers nothing |
| `FleckTransport.Transport.Open` | src/net45/WampSharp.Default/Fleck/FleckWebSocketTransport.cs:42-49 | the supported sub-protocols are exactly the registered names, each once; the server is started; the table is unchanged |
| `FleckTransport.Transport.OnNewConnection` | src/net45/WampSharp.Default/Fleck/FleckWebSocketTransport.cs:51-58 | the connection reaches only the listener under its negotiated sub-protocol; an unregistered sub-protocol fails at the lookup and no listener changes |
| `FleckTransport.Transport.Dispose` | src/net45/WampSharp.Default/Fleck/FleckWebSocketTransport.cs:32-40 | every registered listener ends completed, after one OnCompleted per observer it had; the table is unchanged and the server is disposed |
| `BindedRealms.GetOrAddStores` | src/net45/WampSharp/WAMP2/V2/Realm/Binded/WampBindedRealmContainer.cs:31 | after get-or-add the name is a key holding the value returned; other entries are unchanged; a present entry is returned, and only an absent name takes the new value |
| `BindedRealms.GetOrAddTwice` | src/net45/WampSharp/WAMP2/V2/Realm/Binded/WampBindedRealmContainer.cs:31 | a second get-or-add on the same name returns the first call's value and changes nothing |
| `BindedRealms.GetOrAddAllOnlyGrows` | src/net45/WampSharp/WAMP2/V2/Realm/Binded/WampBindedRealmContainer.cs:14-32 | after any run of calls the keys are the old keys plus the names asked for, and no earlier entry is replaced or removed |
| `BindedRealms.BindedRealmContainer.constructor` | src/net45/WampSharp/WAMP2/V2/Realm/Binded/WampBindedRealmContainer.cs:18-27 | a new container keeps the collaborators it was given and has no realms |
| `BindedRealms.BindedRealmContainer.CreateRealm` | src/net45/WampSharp/WAMP2/V2/Realm/Binded/WampBindedRealmContainer.cs:34-42 | a new realm wraps the hosted realm of the same name, with the container's own session, event serializer and binding |
| `BindedRealms.BindedRealmContainer.GetRealmByName` | src/net45/WampSharp/WAMP2/V2/Realm/Binded/WampBindedRealmContainer.cs:29-32 | the new cache and the realm returned are the get-or-add of the old cache; a realm is fresh only when the name was absent; the invariant is kept |
| `BindedRealms.GetRealmByNameTwice` | src/net45/WampSharp/WAMP2/V2/Realm/Binded/WampBindedRealmContainer.cs:29-32 | two successive lookups of one name return the same realm object, and that object is the one cached |
| `RpcOperations.ToRpcParameters` | src/net45/WampSharp/WAMP2/V2/Rpc/Callee/Reflection/AsyncMethodInfoRpcOperation.cs:43-46 | one RpcParameter per method parameter, each built from the parameter at the same position |
| `RpcOperations.HasResultCases` | src/net45/WampSharp/WAMP2/V2/Rpc/Callee/Reflection/AsyncMethodInfoRpcOperation.cs:31-38 | only the plain Task return type has no result; every other return type has one |
| `RpcOperations.NewOperationDescribesMethod` | src/net45/WampSharp/WAMP2/V2/Rpc/Callee/Reflection/AsyncMethodInfoRpcOperation.cs:25-47 | the constructed operation has the given name, has a result exactly when the return type is not the plain Task, has the method's parameters in order, and has the method's collection-result treatment |
| `RpcOperations.GetProcedure` | src/net45/WampSharp/WAMP2/V2/Rpc/Callee/Reflection/AsyncMethodInfoRpcOperation.cs:49-60 | it succeeds exactly when the attribute is present, and then gives the attribute's procedure; a missing attribute ends in a NullReferenceException, not a defined error |
| `RpcOperations.NewOperationFromAttributeCases` | src/net45/WampSharp/WAMP2/V2/Rpc/Callee/Reflection/AsyncMethodInfoRpcOperation.cs:20-23 | the two-argument constructor fails without the attribute, and otherwise equals the three-argument one given the attribute's name |
| `RpcOperations.ConvertToRuntimeError` | src/net45/WampSharp/WAMP2/V2/Rpc/Callee/Reflection/AsyncMethodInfoRpcOperation.cs:101 | the converted exception is a WampException that carries the original's message |
| `RpcOperations.TranslateInnerExceptionProperties` | src/net45/WampSharp/WAMP2/V2/Rpc/Callee/Reflection/AsyncMethodInfoRpcOperation.cs:90-102 | a WampException is kept unchanged; anything else becomes the runtime error carrying its message; the result is always a WampException with the inner message and never the reflection wrapper; translating again changes nothing; and, as a property of this abstraction of the conversion rather than of the source, converted exceptions with equal messages are equal |
| `RpcOperations.InvokeAsyncUnpacksFirst` | src/net45/WampSharp/WAMP2/V2/Rpc/Callee/Reflection/AsyncMethodInfoRpcOperation.cs:79-85 | when unpacking fails, its exception propagates and the result does not depend on the target method |
| `RpcOperations.InvokeAsyncTranslatesTargetExceptions` | src/net45/WampSharp/WAMP2/V2/Rpc/Callee/Reflection/AsyncMethodInfoRpcOperation.cs:77-104 | the target runs on the unpacked arguments; its task is returned; a WampException it throws is rethrown unchanged; any other inner exception becomes the runtime error carrying its message; an exception raised without the reflection wrapper propagates unchanged |
| `WampV1Listener.WelcomeForFrame` | src/WampSharp/WAMP1/V1/Core/Listener/WampListener.cs:36 | the WELCOME sent to a client is the frame `[0, sessionId, 1, "WampSharp"]` carrying that client's session id |
| `WampV1Listener.OneWelcomePerOpen` | src/WampSharp/WAMP1/V1/Core/Listener/WampListener.cs:30-37 | one connection-open step adds exactly one WELCOME to the trace |
| `WampV1Listener.RegisterThenWelcomeKeepsOrder` | src/WampSharp/WAMP1/V1/Core/Listener/WampListener.cs:32-36 | when a client is registered and then welcomed, every WELCOME in the trace still follows the registration of its client |
| `WampV1Listener.WampListener.constructor` | src/WampSharp/WAMP1/V1/Core/Listener/WampListener.cs:23-28 | a new listener has no clients and an empty trace |
| `WampV1Listener.WampListener.BaseOnConnectionOpen` | src/WampSharp/WAMP1/V1/Core/Listener/WampListener.cs:32 | the container maps the connection to its new client, and the registration is recorded |
| `WampV1Listener.WampListener.OnConnectionOpen` | src/WampSharp/WAMP1/V1/Core/Listener/WampListener.cs:30-37 | the client is registered first, then exactly one WELCOME with its session id, version 1 and "WampSharp" goes to the client the container holds for the connection |

## Left out

- The Fleck server, its handshake and its sub-protocol negotiation are not modelled. The server is reduced to its supported sub-protocols and its started and disposed flags. A raw connection is reduced to its identity and its negotiated sub-protocol. The `FleckWampTextConnection` and `FleckWampBinaryConnection` constructors become a wrapper value.
- The order of `Keys.ToArray()` is the dictionary's own. The model chooses it arbitrarily and proves only that each name appears once.
- Rx `Subject` internals are reduced to observers, a completed flag and a log of notifications. `Subject.Dispose`, and the `ObjectDisposedException` Rx raises for later calls, are not modelled: a completed subject simply ignores further notifications. Unsubscribing through the disposable that `Subscribe` returns is not modelled either.
- Observers are identities whose `OnNext` and `OnCompleted` never throw. In the source an observer callback that throws stops the subject's delivery at that observer, and the exception propagates to the caller. The model does not capture what happens then:
  - Transport.Dispose: the model promises that every listener is completed and the server disposed. In the source an exception from one listener's `OnCompleted` (FleckWebSocketTransport.cs:135) skips that subject's `Dispose` (:136), the remaining listeners of the loop (:34-37) and `mServer.Dispose()` (:39).
  - ConnectionListener.Dispose: the model promises one OnCompleted per former observer. In the source the observers after a throwing one are not completed and the subject is not disposed.
  - ConnectionListener.OnNewConnection: the model promises one OnNext per observer. In the source, at line 125, the observers after a throwing one miss the connection.
- A `null` negotiated sub-protocol (an `ArgumentNullException` from the dictionary) is not modelled. Sub-protocols are plain strings.
- Reflection and tasks are not modelled: `MethodInfo.Invoke`, `GetCustomAttribute`, `GetCollectionResultTreatment`, `CastTask` and the async completion.
  - The method is a record.
  - The reflective call and `UnpackParameters` are function parameters.
  - `ConvertExceptionToRuntimeException` belongs to a base class that is not part of this model. It is modelled as a runtime error that keeps only the original exception's message.
- TranslateInnerException: treats the converted runtime error as a `WampException`, so a runtime error thrown by the target passes through unchanged instead of being converted again. The exception class is not part of this model, so this subtype relation is assumed.
- A target method whose return value is not a `Task` (so that `as Task` yields `null`) is not modelled. The reflective call is assumed to return a task or to throw.
- The `RpcParameter` constructor is not part of this model. An `RpcParameter` records the reflected parameter it was built from.
- The immutability of `CollectionResultTreatment` and the other descriptor fields is not stated as a lemma. It follows from `Operation` being a datatype value.
- `WampBindedRealm` and the hosted realm container are not part of this model. The hosted container's `GetRealmByName` is a function from realm name to hosted realm, fixed when the container is built.
- Concurrency of `ConcurrentDictionary.GetOrAdd` is not modelled. Under races its factory may run more than once; the model is sequential.
- The base `WampListener<TMessage,TClient>` and its client container are not part of this model. The base open step is modelled as the container mapping the connection to the client it creates, which is passed in. A connection that is already mapped is overwritten; the source does not show what the container does in that case.
- The WELCOME frame layout `[0, sessionId, protocolVersion, serverIdent]` comes from the WAMP v1 specification. The proxy and formatter that actually serialize it are not part of this model, and the listener never decodes a WELCOME, so no decoder is modelled.
- The demo program and `DefaultWampChannelFactory` are left out. They only chain constructors and perform I/O.
