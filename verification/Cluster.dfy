/** An abstract API server shared with other writers. */
module Cluster {
  import opened Json
  import opened Outcomes
  import opened Errors
  import opened Objects

  // The environment is arbitrary: before each of our calls other writers transform the store as they like, any call
  // may fail, and an accepted deletion may linger. A failed call leaves the store unchanged, and the answers NotFound
  // and AlreadyExists are truthful.

  type Store = map<Key, Fields>

  /** An injected failure says nothing about existence. */
  type Fault = e: Error | !Has(e, NotFound) && !Has(e, AlreadyExists) witness Api(OtherStatus)

  datatype Env = Env(
    disc: Discovery,
    others: (nat, Store, set<Key>) -> Store,     // what other writers do before our n-th call
    fault: nat -> Option<Fault>,                 // whether our n-th call fails
    lingers: nat -> bool,                        // whether a deletion accepted by our n-th call takes effect later
    admit: (nat, Fields) -> Fields,              // what the server stores for a created object
    listing: (nat, set<Key>) -> seq<Key>)        // the order of a listing

  datatype Verb = Get | Create | Delete

  /** One call of ours on one object, as the client that made it saw it. */
  datatype Event = Event(client: nat, verb: Verb, key: Key, error: Option<Error>)

  datatype World = World(store: Store, terminating: set<Key>, calls: nat, log: seq<Event>)

  // ----- well-formedness -----

  function FirstExact(resources: seq<ApiResource>, kind: string): Option<ApiResource>
  {
    if resources == [] then None
    else if resources[0].kind == kind then Some(resources[0])
    else FirstExact(resources[1..], kind)
  }

  /** The resource the REST mapper resolves a kind to; unlike discovery it does not ignore case. */
  function Served(disc: Discovery, gvk: Gvk): Option<ApiResource>
  {
    if gvk.groupVersion in disc then FirstExact(disc[gvk.groupVersion], gvk.kind) else None
  }

  /** Versions and kinds have names; kinds that differ only in case, and subresources of one kind, have one scope. */
  ghost predicate Coherent(disc: Discovery)
  {
    "" !in disc &&
    forall gv :: gv in disc ==>
      && (forall r :: r in disc[gv] ==> r.kind != "")
      && (forall r, s :: r in disc[gv] && s in disc[gv] && EqualFold(r.kind, s.kind) ==> r.namespaced == s.namespaced)
  }

  /** Objects are stored under their own key, with string labels; namespaced kinds, and only those, have a namespace. */
  ghost predicate WellFormed(disc: Discovery, store: Store)
  {
    forall key :: key in store ==>
      && KeyOf(store[key]) == key && key.name != ""
      && (var labels := MapAt(Metadata(store[key]), "labels"); forall l :: l in labels ==> labels[l].Str?)
      && Served(disc, key.gvk).Some? && (Served(disc, key.gvk).value.namespaced <==> key.namespace != "")
  }

  // ----- API calls as functions of the world -----

  /** The world as our next call finds it. */
  function Moved(env: Env, w: World): World
  {
    w.(store := env.others(w.calls, w.store, w.terminating))
  }

  function Done(w: World, client: nat, verb: Verb, key: Key, error: Option<Error>): World
  {
    w.(calls := w.calls + 1, log := w.log + [Event(client, verb, key, error)])
  }

  function AsOption<T>(r: Result<T, Error>): Option<Error>
  {
    if r.Ok? then None else Some(r.error)
  }

  /** The client ignores the namespace of a cluster-scoped kind. */
  function Address(disc: Discovery, key: Key): Result<Key, Error>
  {
    match Served(disc, key.gvk)
    case None => Err(NoMatch)
    case Some(r) => Ok(if r.namespaced then key else key.(namespace := ""))
  }

  function GetAnswer(env: Env, w: World, key: Key): Result<Fields, Error>
  {
    var at := Address(env.disc, key);
    if env.fault(w.calls).Some? then Err(env.fault(w.calls).value)
    else if at.Err? then Err(at.error)
    else if at.value in w.store then Ok(w.store[at.value])
    else Err(Api(NotFound))
  }

  function DoGet(env: Env, w: World, client: nat, key: Key): (World, Result<Fields, Error>)
  {
    var now := Moved(env, w);
    var r := GetAnswer(env, now, key);
    (Done(now, client, Get, key, AsOption(r)), r)
  }

  function DoCreate(env: Env, w: World, client: nat, key: Key, o: Fields): (World, Option<Error>)
  {
    var now := Moved(env, w);
    var at := Address(env.disc, key);
    var e :=
      if env.fault(now.calls).Some? then Some(env.fault(now.calls).value)
      else if at.Err? then Some(at.error)
      else if at.value in now.store then Some(Api(AlreadyExists))
      else None;
    var after := if e.None? then now.(store := now.store[at.value := env.admit(now.calls, o)]) else now;
    (Done(after, client, Create, key, e), e)
  }

  function DoDelete(env: Env, w: World, client: nat, key: Key): (World, Option<Error>)
  {
    var now := Moved(env, w);
    var at := Address(env.disc, key);
    var e :=
      if env.fault(now.calls).Some? then Some(env.fault(now.calls).value)
      else if at.Err? then Some(at.error)
      else if at.value !in now.store then Some(Api(NotFound))
      else None;
    var after :=
      if e.Some? then now
      else if env.lingers(now.calls) then now.(terminating := now.terminating + {at.value})
      else now.(store := now.store - {at.value}, terminating := now.terminating - {at.value});
    (Done(after, client, Delete, key, e), e)
  }

  /** What a listing selects: one kind, one namespace unless it is empty, all of the given labels. */
  function Selected(disc: Discovery, store: Store, gvk: Gvk, namespace: string, labels: map<string, string>): set<Key>
  {
    var namespaced := var r := Served(disc, gvk); r.Some? && r.value.namespaced;
    set key | key in store && key.gvk == gvk
              && (namespace == "" || !namespaced || key.namespace == namespace)
              && (forall l | l in labels :: l in LabelsOf(store[key]) && LabelsOf(store[key])[l] == labels[l])
  }

  /** A listing returns every selected key, in an order of the server's choosing. */
  ghost predicate ListsAll(env: Env)
  {
    forall n, keys, key :: key in env.listing(n, keys) <==> key in keys
  }

  function ListAnswer(env: Env, w: World, gvk: Gvk, namespace: string, labels: map<string, string>): Result<seq<Fields>,
                      Error>
  {
    if env.fault(w.calls).Some? then Err(env.fault(w.calls).value)
    else if Served(env.disc, gvk).None? then Err(NoMatch)
    else Ok(ObjectsAt(w.store, env.listing(w.calls, Selected(env.disc, w.store, gvk, namespace, labels))))
  }

  function ObjectsAt(store: Store, keys: seq<Key>): (r: seq<Fields>)
    ensures forall o :: o in r <==> exists key :: key in keys && key in store && store[key] == o
  {
    if keys == [] then []
    else (if keys[0] in store then [store[keys[0]]] else []) + ObjectsAt(store, keys[1..])
  }

  function DoList(env: Env, w: World, gvk: Gvk, namespace: string, labels: map<string, string>): (World,
                  Result<seq<Fields>, Error>)
  {
    var now := Moved(env, w);
    (now.(calls := now.calls + 1), ListAnswer(env, now, gvk, namespace, labels))
  }

  // ----- what the answers mean -----

  /** Without a fault a Get succeeds exactly when the object is there, and returns it; NotFound means that the kind is
      served and the object is absent. It changes nothing but the history. */
  lemma GetIsTruthful(env: Env, w: World, client: nat, key: Key)
    ensures var now, got, at := Moved(env, w), DoGet(env, w, client, key), Address(env.disc, key);
      && got.0.store == now.store && got.0.terminating == w.terminating
      && (got.1.Ok? ==> at.Ok? && at.value in now.store && got.1.value == now.store[at.value])
      && (got.1.Err? && Has(got.1.error, NotFound) ==> at.Ok? && at.value !in now.store)
      && (env.fault(w.calls).None? && at.Ok? && at.value in now.store ==> got.1.Ok?)
      && (env.fault(w.calls).None? && at.Ok? && at.value !in now.store ==> got.1 == Err(Api(NotFound)))
  {
  }

  /** A Create succeeds only where nothing is; AlreadyExists means that something is. Whatever the outcome, no other
      object changes, and on an error none does. */
  lemma CreateIsTruthful(env: Env, w: World, client: nat, key: Key, o: Fields)
    ensures var now, created, at := Moved(env, w), DoCreate(env, w, client, key, o), Address(env.disc, key);
      && created.0.terminating == w.terminating
      && (created.1.Some? ==> created.0.store == now.store)
      && (created.1.None? ==> at.Ok? && at.value !in now.store && at.value in created.0.store)
      && (created.1.Some? && Has(created.1.value, AlreadyExists) ==> at.Ok? && at.value in now.store)
      && (forall k :: k in now.store ==> k in created.0.store && created.0.store[k] == now.store[k])
      && (forall k :: k in created.0.store && Ok(k) != at ==> k in now.store)
  {
  }

  /** A Delete is accepted only for an object that is there, and removes it or marks it; NotFound means that it is
      absent. Whatever the outcome, no other object changes, and on an error none does. */
  lemma DeleteIsTruthful(env: Env, w: World, client: nat, key: Key)
    ensures var now, deleted, at := Moved(env, w), DoDelete(env, w, client, key), Address(env.disc, key);
      && (deleted.1.Some? ==> deleted.0.store == now.store && deleted.0.terminating == w.terminating)
      && (deleted.1.None? ==> at.Ok? && at.value in now.store)
      && (deleted.1.None? ==> at.value !in deleted.0.store || at.value in deleted.0.terminating)
      && (deleted.1.Some? && Has(deleted.1.value, NotFound) ==> at.Ok? && at.value !in now.store)
      && (forall k :: k in deleted.0.store ==> k in now.store && deleted.0.store[k] == now.store[k])
      && (forall k :: k in now.store && Ok(k) != at ==> k in deleted.0.store)
  {
  }

  /** A listing that succeeds holds exactly the selected objects. It changes nothing. */
  lemma ListIsComplete(env: Env, w: World, gvk: Gvk, namespace: string, labels: map<string, string>)
    requires ListsAll(env)
    ensures var now, listed := Moved(env, w), DoList(env, w, gvk, namespace, labels);
      && listed.0.store == now.store && listed.0.terminating == w.terminating && listed.0.log == w.log
      && (listed.1.Ok? ==> forall o :: o in listed.1.value <==>
            exists key :: key in Selected(env.disc, now.store, gvk, namespace, labels) && now.store[key] == o)
      && (env.fault(w.calls).None? && Served(env.disc, gvk).Some? ==> listed.1.Ok?)
  {
    var now, selected := Moved(env, w), Selected(env.disc, Moved(env, w).store, gvk, namespace, labels);
    var keys := env.listing(w.calls, selected);
    if DoList(env, w, gvk, namespace, labels).1.Ok? {
      assert DoList(env, w, gvk, namespace, labels).1.value == ObjectsAt(now.store, keys);
      forall o ensures o in ObjectsAt(now.store, keys) <==> exists key :: key in selected && now.store[key] == o {
        if key :| key in selected && now.store[key] == o { assert key in keys; }
      }
    }
  }

  // ----- what other writers and calls leave alone -----

  /** No call of ours fails. */
  ghost predicate Faultless(env: Env) { forall n :: env.fault(n).None? }

  /** Other writers never bring the object at `key` into being. */
  ghost predicate NeverCreated(env: Env, key: Key)
  {
    forall n, store, terminating :: key in env.others(n, store, terminating) ==> key in store
  }

  /** Other writers neither create the object at `key` nor remove it, unless its deletion was accepted. */
  ghost predicate QuietAt(env: Env, key: Key)
  {
    && NeverCreated(env, key)
    && forall n, store, terminating :: key in store && key !in terminating ==> key in env.others(n, store, terminating)
  }

  /** The object at `key` did not appear, was not marked, and is still there unless it was marked before. */
  ghost predicate KeptIn(key: Key, w: World, v: World)
  {
    && (key in v.terminating ==> key in w.terminating)
    && (key in v.store ==> key in w.store)
    && (key in w.store && key !in w.terminating ==> key in v.store)
  }

  /** The history grew, and the deletions it grew by are of the given targets. */
  ghost predicate DeletesOnly(w: World, v: World, targets: seq<Key>)
  {
    w.log <= v.log && forall i :: |w.log| <= i < |v.log| && v.log[i].verb.Delete? ==> v.log[i].key in targets
  }

  /** The history grew by no creation. */
  ghost predicate CreatesNothing(w: World, v: World)
  {
    w.log <= v.log && forall i :: |w.log| <= i < |v.log| ==> !v.log[i].verb.Create?
  }

  // ----- the client -----

  /** A client of one cluster; `world` is the cluster's state and the history of calls made on it. */
  class Client {
    const env: Env
    const id: nat
    var world: World

    constructor (env: Env, id: nat, world: World)
      ensures this.env == env && this.id == id && this.world == world
    {
      this.env, this.id, this.world := env, id, world;
    }

    method Get(key: Key) returns (r: Result<Fields, Error>)
      modifies this
      ensures (world, r) == DoGet(env, old(world), id, key)
    {
      var done := DoGet(env, world, id, key);
      world, r := done.0, done.1;
    }

    method Delete(key: Key) returns (e: Option<Error>)
      modifies this
      ensures (world, e) == DoDelete(env, old(world), id, key)
    {
      var done := DoDelete(env, world, id, key);
      world, e := done.0, done.1;
    }

    method List(gvk: Gvk, namespace: string, labels: map<string, string>) returns (r: Result<seq<Fields>, Error>)
      modifies this
      ensures (world, r) == DoList(env, old(world), gvk, namespace, labels)
    {
      var done := DoList(env, world, gvk, namespace, labels);
      world, r := done.0, done.1;
    }
  }
}
