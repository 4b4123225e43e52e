/**
 * WampBindedRealmContainer: a get-or-create cache from realm name to the
 * realm wrapper serving one binding. The hosted realm container it draws
 * from, and the session server, event serializer and binding it passes
 * on, are collaborators whose own behaviour is outside this model.
 */
module BindedRealms {
  import opened Bindings

  /** A realm of the underlying hosted realm container, by identity. */
  datatype HostedRealm = HostedRealm(id: nat)

  /** The session server handed to every binded realm, by identity. */
  datatype SessionServer = SessionServer(id: nat)

  /** The event serializer handed to every binded realm, by identity. */
  datatype EventSerializer = EventSerializer(id: nat)

  /**
   * GetOrAdd on a dictionary: the entry already under `key` if there is
   * one, otherwise `created`, stored under `key`. Returns the new
   * dictionary and the value handed back.
   */
  function GetOrAdd<K, V>(m: map<K, V>, key: K, created: V): (r: (map<K, V>, V))
  {
    if key in m then (m, m[key]) else (m[key := created], created)
  }

  /** After GetOrAdd the key is present, holds the value returned, and every other entry is as it was. */
  lemma GetOrAddStores<K, V>(m: map<K, V>, key: K, created: V)
    ensures var (m', v) := GetOrAdd(m, key, created);
      && m'.Keys == m.Keys + {key}
      && m'[key] == v
      && (forall k :: k in m ==> m'[k] == m[k])
      && (key in m ==> v == m[key])
      && (key !in m ==> v == created)
  {
  }

  /** Two successive GetOrAdd calls on one key return the same value, whatever the second would create. */
  lemma GetOrAddTwice<K, V>(m: map<K, V>, key: K, first: V, second: V)
    ensures var (m1, v1) := GetOrAdd(m, key, first);
      GetOrAdd(m1, key, second) == (m1, v1)
  {
  }

  /** The dictionary after a run of GetOrAdd calls, the i-th on `keys[i]` offering `created[i]`. */
  function GetOrAddAll<K, V>(m: map<K, V>, keys: seq<K>, created: seq<V>): (r: map<K, V>)
    requires |keys| == |created|
    decreases |keys|
  {
    if keys == [] then m
    else GetOrAddAll(GetOrAdd(m, keys[0], created[0]).0, keys[1..], created[1..])
  }

  /**
   * A run of GetOrAdd calls only grows the dictionary: every key named
   * is present afterwards, and no entry present before is replaced or
   * removed.
   */
  lemma {:induction false} GetOrAddAllOnlyGrows<K, V>(m: map<K, V>, keys: seq<K>, created: seq<V>)
    requires |keys| == |created|
    ensures GetOrAddAll(m, keys, created).Keys == m.Keys + set k | k in keys
    ensures forall k :: k in m ==> GetOrAddAll(m, keys, created)[k] == m[k]
    decreases |keys|
  {
    if keys != [] {
      var m1 := GetOrAdd(m, keys[0], created[0]).0;
      GetOrAddStores(m, keys[0], created[0]);
      GetOrAddAllOnlyGrows(m1, keys[1..], created[1..]);
      assert (set k | k in keys) == {keys[0]} + set k | k in keys[1..];
    }
  }

  /** A WampBindedRealm<TMessage>: a hosted realm wrapped with a session, an event serializer and a binding. */
  class BindedRealm {
    const hostedRealm: HostedRealm
    const session: SessionServer
    const eventSerializer: EventSerializer
    const binding: Binding

    constructor (hostedRealm: HostedRealm, session: SessionServer, eventSerializer: EventSerializer, binding: Binding)
      ensures this.hostedRealm == hostedRealm && this.session == session
      ensures this.eventSerializer == eventSerializer && this.binding == binding
    {
      this.hostedRealm := hostedRealm;
      this.session := session;
      this.eventSerializer := eventSerializer;
      this.binding := binding;
    }
  }

  /** WampBindedRealmContainer<TMessage>. */
  class BindedRealmContainer {
    /** IWampHostedRealmContainer.GetRealmByName, as the underlying container answers it. */
    const realmContainer: string -> HostedRealm
    const session: SessionServer
    const eventSerializer: EventSerializer
    const binding: Binding
    var realmNameToRealm: map<string, BindedRealm>

    /** `realm` is what CreateRealm builds for `name`. */
    predicate BuiltFor(realm: BindedRealm, name: string)
    {
      && realm.hostedRealm == realmContainer(name)
      && realm.session == session
      && realm.eventSerializer == eventSerializer
      && realm.binding == binding
    }

    /** Every cached realm wraps the hosted realm of its own name, with this container's collaborators. */
    ghost predicate Valid()
      reads this
    {
      forall name :: name in realmNameToRealm ==> BuiltFor(realmNameToRealm[name], name)
    }

    constructor (realmContainer: string -> HostedRealm, session: SessionServer, eventSerializer: EventSerializer, binding: Binding)
      ensures Valid() && realmNameToRealm == map[]
      ensures this.realmContainer == realmContainer && this.session == session
      ensures this.eventSerializer == eventSerializer && this.binding == binding
    {
      this.realmContainer := realmContainer;
      this.session := session;
      this.eventSerializer := eventSerializer;
      this.binding := binding;
      realmNameToRealm := map[];
    }

    /** CreateRealm: a new binded realm around the hosted realm of the same name. */
    method CreateRealm(realmName: string) returns (realm: BindedRealm)
      ensures fresh(realm) && BuiltFor(realm, realmName)
    {
      var hosted := realmContainer(realmName);
      realm := new BindedRealm(hosted, session, eventSerializer, binding);
    }

    /**
     * GetRealmByName: the realm cached under `name`, created and cached
     * only when the name is absent.
     */
    method GetRealmByName(name: string) returns (realm: BindedRealm)
      requires Valid()
      modifies this
      ensures Valid() && BuiltFor(realm, name)
      ensures (realmNameToRealm, realm) == GetOrAdd(old(realmNameToRealm), name, realm)
      ensures name !in old(realmNameToRealm) ==> fresh(realm)
    {
      if name in realmNameToRealm {
        realm := realmNameToRealm[name];
      } else {
        realm := CreateRealm(name);
        realmNameToRealm := realmNameToRealm[name := realm];
      }
    }
  }

  /** Two successive GetRealmByName calls with the same name return the same realm object. */
  method GetRealmByNameTwice(container: BindedRealmContainer, name: string) returns (first: BindedRealm, second: BindedRealm)
    requires container.Valid()
    modifies container
    ensures container.Valid() && first == second
    ensures name in container.realmNameToRealm && container.realmNameToRealm[name] == first
  {
    first := container.GetRealmByName(name);
    GetOrAddStores(old(container.realmNameToRealm), name, first);
    second := container.GetRealmByName(name);
    GetOrAddTwice(old(container.realmNameToRealm), name, first, second);
  }
}
