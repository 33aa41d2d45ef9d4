/** The model registry of the mvp plugin (Plugins/dist/dcore-mvp.ts and
    Plugins/src/mvp/Collection.ts): models that keep a listener list per event
    type, and a collection of models that listens to each of its members. */
module Mvp {
  import opened Wrappers
  import opened Seqs

  /** `ModelEvents` and `CollectionEvents`. */
  const ChangeEvent: string := "change"
  const DestroyEvent: string := "destroy"
  const AddedItemsEvent: string := "added-items"
  const DeletedItemsEvent: string := "deleted-items"
  const UpdatedItemEvent: string := "updated-item"

  /** A handler: a caller's function, identified by `id`, or one of the two
      module functions a collection attaches to its members. */
  datatype Handler = UserHandler(id: nat) | ItemChange | ItemDestroy

  /** An entry of a listener list; `context` is the `this` of the call, null
      standing for `undefined`. */
  datatype Listener = Listener(handler: Handler, context: object?)

  /** The data a notification passes to its handlers. */
  datatype Data = NoData | OfModel(model: Model) | OfModels(models: seq<Model>) | UserData(id: nat)

  /** One handler call made by `notify`. */
  datatype Call = Call(listener: Listener, data: Data)

  /** `this.listeners[eventType] || []`. */
  function ListenersOf(listeners: map<string, seq<Listener>>, eventType: string): (ls: seq<Listener>)
    ensures eventType !in listeners ==> ls == []
    ensures eventType in listeners ==> ls == listeners[eventType]
  {
    if eventType in listeners then listeners[eventType] else []
  }

  /** How many entries of `eventType`'s list are `l`. */
  function Registered(listeners: map<string, seq<Listener>>, eventType: string, l: Listener): nat
  {
    multiset(ListenersOf(listeners, eventType))[l]
  }

  /** The calls made over a listener list, in list order. */
  function Dispatch(ls: seq<Listener>, data: Data): (calls: seq<Call>)
    ensures |calls| == |ls|
  {
    seq(|ls|, i requires 0 <= i < |ls| => Call(ls[i], data))
  }

  /** The calls `notify(eventType, data)` makes: none when the type was never registered. */
  function NotifyCalls(listeners: map<string, seq<Listener>>, eventType: string, data: Data): (calls: seq<Call>)
  {
    if eventType in listeners then Dispatch(listeners[eventType], data) else []
  }

  /** A listener hears a notification exactly when it is registered for its
      type, once per registration. */
  lemma NotifyReaches(listeners: map<string, seq<Listener>>, eventType: string, l: Listener, data: Data)
    ensures Call(l, data) in NotifyCalls(listeners, eventType, data) <==> l in ListenersOf(listeners, eventType)
    ensures multiset(NotifyCalls(listeners, eventType, data))[Call(l, data)] == Registered(listeners, eventType, l)
  {
    DispatchCount(ListenersOf(listeners, eventType), l, data);
  }

  lemma {:induction false} DispatchCount(ls: seq<Listener>, l: Listener, data: Data)
    ensures multiset(Dispatch(ls, data))[Call(l, data)] == multiset(ls)[l]
    decreases |ls|
  {
    if ls != [] {
      var n := |ls| - 1;
      DispatchCount(ls[..n], l, data);
      assert Dispatch(ls, data) == Dispatch(ls[..n], data) + [Call(ls[n], data)];
      assert ls == ls[..n] + [ls[n]];
    }
  }

  /** `off` as written: on a match the list is shortened by one, which drops
      its last entry whichever entry matched. */
  function OffAsWrittenList(ls: seq<Listener>, l: Listener): (r: seq<Listener>)
    ensures l in ls ==> |r| == |ls| - 1 && r == ls[..|ls| - 1]
    ensures l !in ls ==> r == ls
  {
    if l in ls then ls[..|ls| - 1] else ls
  }

  /** `off` as intended: the first matching entry is overwritten with the last
      one and the list shortened by one, so exactly one `l` goes and every
      other entry stays. */
  function Without(ls: seq<Listener>, l: Listener): (r: seq<Listener>)
    ensures l in ls ==> multiset(r) == multiset(ls) - multiset{l}
    ensures l !in ls ==> r == ls
  {
    if l in ls then SwapRemove(ls, IndexOf(ls, l)) else ls
  }

  /** With two listeners registered, detaching the first as written keeps the
      first and loses the second; the intended removal does the opposite. */
  lemma OffAsWrittenDropsOther(a: Listener, b: Listener)
    requires a != b
    ensures OffAsWrittenList([a, b], a) == [a]
    ensures Without([a, b], a) == [b]
  {
    assert IndexOf([a, b], a) == 0;
  }

  /** `on` adds exactly one registration of its entry under its type. */
  lemma RegisteredOn(listeners: map<string, seq<Listener>>, t: string, l: Listener, t2: string, l2: Listener)
    ensures Registered(listeners[t := ListenersOf(listeners, t) + [l]], t2, l2) ==
            Registered(listeners, t2, l2) + (if t2 == t && l2 == l then 1 else 0)
  {
  }

  /** `off` of a registered entry removes exactly one registration of it. */
  lemma RegisteredWithout(listeners: map<string, seq<Listener>>, t: string, l: Listener, t2: string, l2: Listener)
    requires l in ListenersOf(listeners, t)
    ensures Registered(listeners[t := Without(ListenersOf(listeners, t), l)], t2, l2) ==
            Registered(listeners, t2, l2) - (if t2 == t && l2 == l then 1 else 0)
  {
  }

  /** The listener map after collection `c` attached both its handlers to a
      model: `on("change", onItemChange, c)`, then `on("destroy", onItemDestroy, c)`. */
  ghost function AttachedTo(listeners: map<string, seq<Listener>>, c: object): map<string, seq<Listener>>
  {
    var l1 := listeners[ChangeEvent := ListenersOf(listeners, ChangeEvent) + [Listener(ItemChange, c)]];
    l1[DestroyEvent := ListenersOf(l1, DestroyEvent) + [Listener(ItemDestroy, c)]]
  }

  /** The listener map after collection `c` detached both its handlers from a
      model with the corrected `off`. */
  ghost function DetachedFrom(listeners: map<string, seq<Listener>>, c: object): map<string, seq<Listener>>
  {
    var l1 := listeners[ChangeEvent := Without(ListenersOf(listeners, ChangeEvent), Listener(ItemChange, c))];
    l1[DestroyEvent := Without(ListenersOf(l1, DestroyEvent), Listener(ItemDestroy, c))]
  }

  /** `l` under `t` is one of the two entries collection `c` attaches. */
  predicate IsEntryOf(t: string, l: Listener, c: object)
  {
    (t == ChangeEvent && l == Listener(ItemChange, c)) || (t == DestroyEvent && l == Listener(ItemDestroy, c))
  }

  /** Apart from collection `c`'s own two entries, `after` registers every
      entry as often as `before` (an entry in neither is registered zero
      times in both), and the lists of other event types are the same lists. */
  ghost predicate SameOthers(before: map<string, seq<Listener>>, after: map<string, seq<Listener>>, c: object)
  {
    (forall t :: t != ChangeEvent && t != DestroyEvent ==> ListenersOf(after, t) == ListenersOf(before, t)) &&
    (forall t, l :: t in before.Keys + after.Keys && l in ListenersOf(before, t) + ListenersOf(after, t) && !IsEntryOf(t, l, c) ==>
                    Registered(after, t, l) == Registered(before, t, l))
  }

  /** Attaching adds one registration of each of `c`'s entries and changes
      nothing else. */
  lemma AttachCounts(listeners: map<string, seq<Listener>>, c: object, t: string, l: Listener)
    ensures Registered(AttachedTo(listeners, c), t, l) == Registered(listeners, t, l) + (if IsEntryOf(t, l, c) then 1 else 0)
    ensures t != ChangeEvent && t != DestroyEvent ==> ListenersOf(AttachedTo(listeners, c), t) == ListenersOf(listeners, t)
  {
    var change, destroy := Listener(ItemChange, c), Listener(ItemDestroy, c);
    var l1 := listeners[ChangeEvent := ListenersOf(listeners, ChangeEvent) + [change]];
    RegisteredOn(listeners, ChangeEvent, change, t, l);
    RegisteredOn(l1, DestroyEvent, destroy, t, l);
  }

  /** Detaching a collection that is attached removes one registration of
      each of its entries and changes nothing else. */
  lemma DetachCounts(listeners: map<string, seq<Listener>>, c: object, t: string, l: Listener)
    requires Registered(listeners, ChangeEvent, Listener(ItemChange, c)) > 0
    requires Registered(listeners, DestroyEvent, Listener(ItemDestroy, c)) > 0
    ensures Registered(DetachedFrom(listeners, c), t, l) == Registered(listeners, t, l) - (if IsEntryOf(t, l, c) then 1 else 0)
    ensures t != ChangeEvent && t != DestroyEvent ==> ListenersOf(DetachedFrom(listeners, c), t) == ListenersOf(listeners, t)
  {
    var change, destroy := Listener(ItemChange, c), Listener(ItemDestroy, c);
    assert change in multiset(ListenersOf(listeners, ChangeEvent));
    assert destroy in multiset(ListenersOf(listeners, DestroyEvent));
    var l1 := listeners[ChangeEvent := Without(ListenersOf(listeners, ChangeEvent), change)];
    RegisteredWithout(listeners, ChangeEvent, change, t, l);
    RegisteredWithout(listeners, ChangeEvent, change, DestroyEvent, destroy);
    RegisteredWithout(l1, DestroyEvent, destroy, t, l);
  }

  /** Detaching what a collection attached restores every registration count. */
  lemma DetachUndoesAttach(listeners: map<string, seq<Listener>>, c: object, t: string, l: Listener)
    ensures Registered(DetachedFrom(AttachedTo(listeners, c), c), t, l) == Registered(listeners, t, l)
    ensures ListenersOf(DetachedFrom(AttachedTo(listeners, c), c), t) == ListenersOf(listeners, t) || t == ChangeEvent || t == DestroyEvent
  {
    var attached := AttachedTo(listeners, c);
    AttachCounts(listeners, c, ChangeEvent, Listener(ItemChange, c));
    AttachCounts(listeners, c, DestroyEvent, Listener(ItemDestroy, c));
    AttachCounts(listeners, c, t, l);
    DetachCounts(attached, c, t, l);
  }

  /** Attaching keeps every other registration. */
  lemma AttachSameOthers(listeners: map<string, seq<Listener>>, c: object)
    ensures SameOthers(listeners, AttachedTo(listeners, c), c)
  {
    hide AttachedTo, Registered;
    var after := AttachedTo(listeners, c);
    forall t | t != ChangeEvent && t != DestroyEvent
      ensures ListenersOf(after, t) == ListenersOf(listeners, t)
    {
      AttachCounts(listeners, c, t, Listener(ItemChange, c));
    }
    forall t, l | t in listeners.Keys + after.Keys && l in ListenersOf(listeners, t) + ListenersOf(after, t) && !IsEntryOf(t, l, c)
      ensures Registered(after, t, l) == Registered(listeners, t, l)
    {
      AttachCounts(listeners, c, t, l);
    }  }

  /** Detaching an attached collection keeps every other registration. */
  lemma DetachSameOthers(listeners: map<string, seq<Listener>>, c: object)
    requires Registered(listeners, ChangeEvent, Listener(ItemChange, c)) > 0
    requires Registered(listeners, DestroyEvent, Listener(ItemDestroy, c)) > 0
    ensures SameOthers(listeners, DetachedFrom(listeners, c), c)
  {
    hide DetachedFrom, Registered;
    var after := DetachedFrom(listeners, c);
    forall t | t != ChangeEvent && t != DestroyEvent
      ensures ListenersOf(after, t) == ListenersOf(listeners, t)
    {
      DetachCounts(listeners, c, t, Listener(ItemChange, c));
    }
    forall t, l | t in listeners.Keys + after.Keys && l in ListenersOf(listeners, t) + ListenersOf(after, t) && !IsEntryOf(t, l, c)
      ensures Registered(after, t, l) == Registered(listeners, t, l)
    {
      DetachCounts(listeners, c, t, l);
    }
  }

  /** A map keeps its own registrations. */
  lemma SameOthersRefl(listeners: map<string, seq<Listener>>, c: object)
    ensures SameOthers(listeners, listeners, c)
  {
  }

  /** Keeping the other registrations composes. */
  lemma SameOthersTrans(a: map<string, seq<Listener>>, b: map<string, seq<Listener>>, d: map<string, seq<Listener>>, c: object)
    requires SameOthers(a, b, c) && SameOthers(b, d, c)
    ensures SameOthers(a, d, c)
  {
  }

  /** The listeners of each listed model. */
  ghost function ListenerSnapshot(ms: seq<Model>): (snapshot: map<Model, map<string, seq<Listener>>>)
    reads ms`listeners
    ensures forall x :: x in ms ==> x in snapshot && snapshot[x] == x.listeners
  {
    map x | x in ms :: x.listeners
  }

  /** Since `listeners0` was taken, every model of `ms` has kept every
      registration but collection `c`'s own. */
  ghost predicate KeptSince(ms: seq<Model>, listeners0: map<Model, map<string, seq<Listener>>>, c: object)
    reads ms`listeners
  {
    forall x :: x in ms ==> x in listeners0 && SameOthers(listeners0[x], x.listeners, c)
  }

  /** Right after the snapshot is taken, every model has kept everything. */
  lemma KeptSinceStart(ms: seq<Model>, c: object)
    ensures KeptSince(ms, ListenerSnapshot(ms), c)
  {
    forall x | x in ms
      ensures SameOthers(x.listeners, x.listeners, c)
    {
      SameOthersRefl(x.listeners, c);
    }
  }

  /** What `KeptSince` says about each model. */
  lemma KeptSinceMeans(ms: seq<Model>, listeners0: map<Model, map<string, seq<Listener>>>, c: object)
    requires KeptSince(ms, listeners0, c)
    ensures forall x :: x in ms ==> x in listeners0 && SameOthers(listeners0[x], x.listeners, c)
  {
  }

  /** `Model`: per-event lists of (handler, context) entries. Handlers are
      recorded rather than run: `calls` lists every call `notify` made. */
  class Model {
    var listeners: map<string, seq<Listener>>
    var calls: seq<Call>

    constructor()
      ensures listeners == map[] && calls == []
    {
      listeners := map[];
      calls := [];
    }

    /** `on`: an empty event type is refused; otherwise the entry is appended
        to that type's list. */
    method On(eventType: string, handler: Handler, context: object?) returns (b: bool)
      modifies this`listeners
      ensures b <==> eventType != ""
      ensures listeners ==
                if b then old(listeners)[eventType := ListenersOf(old(listeners), eventType) + [Listener(handler, context)]]
                else old(listeners)
    {
      if eventType == "" {
        return false;
      }
      listeners := listeners[eventType := ListenersOf(listeners, eventType) + [Listener(handler, context)]];
      return true;
    }

    /** `off` as written: finds the first matching entry, then shortens the
        list by one. */
    method OffAsWritten(eventType: string, handler: Handler, context: object?) returns (b: bool)
      modifies this`listeners
      ensures var l, ls := Listener(handler, context), ListenersOf(old(listeners), eventType);
              (b <==> l in ls) &&
              listeners == if b then old(listeners)[eventType := OffAsWrittenList(ls, l)] else old(listeners)
    {
      var ls := ListenersOf(listeners, eventType);
      var i := 0;
      while i < |ls|
        invariant 0 <= i <= |ls|
        invariant Listener(handler, context) !in ls[..i]
      {
        if ls[i] == Listener(handler, context) {
          listeners := listeners[eventType := ls[..|ls| - 1]];
          return true;
        }
        i := i + 1;
      }
      assert ls[..i] == ls;
      return false;
    }

    /** `off`: detaches one matching entry by moving the last entry into its
        slot; false when none matches. */
    method Off(eventType: string, handler: Handler, context: object?) returns (b: bool)
      modifies this`listeners
      ensures var l, ls := Listener(handler, context), ListenersOf(old(listeners), eventType);
              (b <==> l in ls) &&
              listeners == if b then old(listeners)[eventType := Without(ls, l)] else old(listeners)
    {
      var ls := ListenersOf(listeners, eventType);
      var i := 0;
      while i < |ls|
        invariant 0 <= i <= |ls|
        invariant Listener(handler, context) !in ls[..i]
      {
        if ls[i] == Listener(handler, context) {
          var moved := ls[i := ls[|ls| - 1]];
          listeners := listeners[eventType := moved[..|ls| - 1]];
          assert IndexOf(ls, ls[i]) == i;
          assert moved[..|ls| - 1] == SwapRemove(ls, i);
          return true;
        }
        i := i + 1;
      }
      assert ls[..i] == ls;
      return false;
    }

    /** `notify`: calls a snapshot of the type's listeners in list order;
        nothing when the type was never registered. */
    method Notify(eventType: string, data: Data)
      modifies this`calls
      ensures calls == old(calls) + NotifyCalls(listeners, eventType, data)
    {
      if eventType !in listeners {
        return;
      }
      var snapshot := listeners[eventType];
      var i := 0;
      while i < |snapshot|
        invariant 0 <= i <= |snapshot|
        invariant calls == old(calls) + Dispatch(snapshot[..i], data)
      {
        assert Dispatch(snapshot[..i + 1], data) == Dispatch(snapshot[..i], data) + [Call(snapshot[i], data)];
        calls := calls + [Call(snapshot[i], data)];
        i := i + 1;
      }
      assert snapshot[..i] == snapshot;
    }

    /** `change`: notifies "change" with the model itself. */
    method Change()
      modifies this`calls
      ensures calls == old(calls) + NotifyCalls(listeners, ChangeEvent, OfModel(this))
    {
      Notify(ChangeEvent, OfModel(this));
    }

    /** `destroy`: notifies "destroy" with the model itself. */
    method Destroy()
      modifies this`calls
      ensures calls == old(calls) + NotifyCalls(listeners, DestroyEvent, OfModel(this))
    {
      Notify(DestroyEvent, OfModel(this));
    }
  }

  /** What `asModel` is given: an object, null, or a value of another type. */
  datatype Target = ObjectTarget | NullTarget | NotAnObject

  /** `asModel`: null unless the target is a non-null object, which then gets
      a model's (empty) listener lists. */
  method AsModel(target: Target) returns (m: Model?)
    ensures m == null <==> !target.ObjectTarget?
    ensures m != null ==> fresh(m) && m.listeners == map[] && m.calls == []
  {
    if !target.ObjectTarget? {
      return null;
    }
    m := new Model();
  }

  /** The models of an `addRange`/`removeRange` argument; a value that is not
      an array contributes none. */
  function ModelsOf(models: Option<seq<Model>>): seq<Model>
  {
    if models.Some? then models.value else []
  }

  /** What `removeRange` leaves and what it deleted. */
  datatype Removal = Removal(kept: seq<Model>, deleted: seq<Model>)

  /** One iteration of `removeRange`: a model still present is removed by
      moving the last element into its first slot, and recorded as deleted;
      an absent one is skipped. */
  function RemoveStep(r: Removal, m: Model): (next: Removal)
    ensures multiset(next.kept) + multiset(next.deleted) == multiset(r.kept) + multiset(r.deleted)
    ensures next.deleted == r.deleted + (if m in r.kept then [m] else [])
  {
    var k := IndexOf(r.kept, m);
    if k < 0 then r else Removal(SwapRemove(r.kept, k), r.deleted + [m])
  }

  /** `removeRange` on a list: each listed model still present is removed,
      in argument order; absent ones are skipped. */
  function RemoveEach(list: seq<Model>, models: seq<Model>): (r: Removal)
    ensures multiset(r.kept) + multiset(r.deleted) == multiset(list)
    ensures multiset(r.deleted) <= multiset(models)
    decreases |models|
  {
    if models == [] then Removal(list, [])
    else
      var n := |models| - 1;
      assert models == models[..n] + [models[n]];
      RemoveStep(RemoveEach(list, models[..n]), models[n])
  }

  /** One more listed model is one more step. */
  lemma RemoveEachStep(list: seq<Model>, models: seq<Model>, i: nat)
    requires i < |models|
    ensures RemoveEach(list, models[..i + 1]) == RemoveStep(RemoveEach(list, models[..i]), models[i])
  {
    assert models[..i + 1][..i] == models[..i];
  }

  /** Multiset steps of the proof below. */
  lemma MultisetCancel(a: multiset<Model>, b: multiset<Model>, l: multiset<Model>)
    requires a + b == l
    ensures a == l - b
  {
  }

  lemma MultisetLeft(p: multiset<Model>, m: Model, l: multiset<Model>)
    requires p + multiset{m} <= l
    ensures (l - p)[m] >= 1
  {
  }

  /** Removing models the list holds (with multiplicity) deletes each of
      them, in argument order, and leaves the rest. */
  lemma {:induction false} RemoveEachPresent(list: seq<Model>, models: seq<Model>)
    requires multiset(models) <= multiset(list)
    ensures RemoveEach(list, models).deleted == models
    ensures multiset(RemoveEach(list, models).kept) == multiset(list) - multiset(models)
    decreases |models|
  {
    if models != [] {
      var n := |models| - 1;
      var m := models[n];
      assert models == models[..n] + [m];
      assert multiset(models) == multiset(models[..n]) + multiset{m};
      RemoveEachPresent(list, models[..n]);
      RemoveEachStep(list, models, n);
      assert models[..n + 1] == models;
      hide *;
      var prev := RemoveEach(list, models[..n]);
      MultisetLeft(multiset(models[..n]), m, multiset(list));
      assert m in prev.kept by {
        assert m in multiset(prev.kept);
      }
      var next := RemoveEach(list, models);
      MultisetCancel(multiset(next.kept), multiset(next.deleted), multiset(list));
    }
  }

  /** Removing a list's own models from it empties it and deletes all of them. */
  lemma RemoveAll(list: seq<Model>)
    ensures RemoveEach(list, list) == Removal([], list)
  {
    RemoveEachPresent(list, list);
    var r := RemoveEach(list, list);
    assert |r.kept| == |multiset(r.kept)| == 0;
  }

  /** `Collection`: the models in an array, listened to through the two
      module handlers; its own listener lists are those of `events`. */
  class Collection {
    const events: Model
    var modelList: seq<Model>

    /** The collection listens to `m` once per slot `m` has in the list:
        that many change entries and destroy entries with this collection as
        context, and none when `m` is not held. */
    ghost predicate Tracks(m: Model)
      reads this`modelList, m`listeners
    {
      Registered(m.listeners, ChangeEvent, Listener(ItemChange, this)) == multiset(modelList)[m] &&
      Registered(m.listeners, DestroyEvent, Listener(ItemDestroy, this)) == multiset(modelList)[m]
    }

    ghost predicate TracksAll(ms: seq<Model>)
      reads this`modelList, ms`listeners
    {
      forall m :: m in ms ==> Tracks(m)
    }

    ghost predicate Valid()
      reads this`modelList, modelList`listeners
    {
      TracksAll(modelList)
    }

    /** The constructor adds an array argument with `addRange`. */
    constructor(models: Option<seq<Model>>)
      modifies ModelsOf(models)`listeners
      ensures Valid() && TracksAll(ModelsOf(models))
      ensures forall x :: x in ModelsOf(models) ==> SameOthers(old(x.listeners), x.listeners, this)
      ensures modelList == ModelsOf(models)
      ensures fresh(events) && events.listeners == map[] && events.calls == []
    {
      events := new Model();
      modelList := [];
      new;
      AddRange(models);
    }

    /** `size`: the number of slots, duplicates counted. */
    function Size(): (n: nat)
      reads this
      ensures n == |ToArray()|
    {
      |modelList|
    }

    /** `add`: a falsy model is ignored; otherwise `addRange([model])`. */
    method Add(model: Model?)
      requires Valid()
      requires model != null ==> Tracks(model)
      modifies this`modelList, events`calls, (if model != null then {model} else {})`listeners
      ensures Valid()
      ensures model != null ==> SameOthers(old(model.listeners), model.listeners, this)
      ensures modelList == old(modelList) + (if model != null then [model] else [])
      ensures events.calls == old(events.calls) +
                (if model != null then NotifyCalls(events.listeners, AddedItemsEvent, OfModels([model])) else [])
    {
      if model != null {
        AddRange(Some([model]));
      }
    }

    /** `addRange`: ignores a value that is not an array; otherwise attaches
        both handlers to every model and appends it, in order, then notifies
        "added-items" once. */
    method AddRange(models: Option<seq<Model>>)
      requires Valid() && TracksAll(ModelsOf(models))
      modifies this`modelList, events`calls, ModelsOf(models)`listeners
      ensures Valid() && TracksAll(ModelsOf(models))
      ensures forall x :: x in ModelsOf(models) ==> SameOthers(old(x.listeners), x.listeners, this)
      ensures modelList == old(modelList) + ModelsOf(models)
      ensures events.calls == old(events.calls) +
                (if models.Some? then NotifyCalls(events.listeners, AddedItemsEvent, OfModels(models.value)) else [])
    {
      if models.None? {
        return;
      }
      ghost var listeners0 := ListenerSnapshot(ModelsOf(models));
      KeptSinceStart(ModelsOf(models), this);
      hide Registered, NotifyCalls, SameOthers, TracksAll, ModelsOf, KeptSince, ListenerSnapshot;
      AttachEach(ModelsOf(models), listeners0);
      label attached:
      events.Notify(AddedItemsEvent, OfModels(models.value));
      StillTracks@attached(modelList);
      StillTracks@attached(ModelsOf(models));
      KeptSinceMeans(ModelsOf(models), listeners0, this);
    }

    /** The loop of `addRange`: every model attached and pushed, in order. */
    method AttachEach(ms: seq<Model>, ghost listeners0: map<Model, map<string, seq<Listener>>>)
      requires TracksAll(modelList + ms) && KeptSince(ms, listeners0, this)
      modifies this`modelList, ms`listeners
      ensures modelList == old(modelList) + ms
      ensures TracksAll(modelList) && TracksAll(ms)
      ensures KeptSince(ms, listeners0, this)
    {
      hide Registered;
      ghost var all := modelList + ms;
      var i := 0;
      while i < |ms|
        invariant 0 <= i <= |ms|
        invariant modelList == old(modelList) + ms[..i]
        invariant TracksAll(all)
        invariant KeptSince(ms, listeners0, this)
      {
        var m := ms[i];
        Attach(m, all, ms, listeners0);
        assert ms[..i + 1] == ms[..i] + [m];
        i := i + 1;
      }
      assert ms[..i] == ms;
    }

    /** One step of `addRange`: both handlers attached to `m`, then `m`
        pushed; every other model of `others` stays tracked. */
    method Attach(m: Model, ghost others: seq<Model>, ghost ms: seq<Model>,
                  ghost listeners0: map<Model, map<string, seq<Listener>>>)
      requires Tracks(m) && KeptSince(ms, listeners0, this)
      modifies this`modelList, m`listeners
      ensures modelList == old(modelList) + [m]
      ensures m.listeners == AttachedTo(old(m.listeners), this)
      ensures SameOthers(old(m.listeners), m.listeners, this)
      ensures Tracks(m)
      ensures forall x :: x in others && x != m && old(Tracks(x)) ==> Tracks(x)
      ensures KeptSince(ms, listeners0, this)
    {
      hide Registered;
      var change, destroy := Listener(ItemChange, this), Listener(ItemDestroy, this);
      ghost var l0 := m.listeners;
      var attached := m.On(ChangeEvent, ItemChange, this);
      RegisteredOn(l0, ChangeEvent, change, ChangeEvent, change);
      RegisteredOn(l0, ChangeEvent, change, DestroyEvent, destroy);
      ghost var l1 := m.listeners;
      attached := m.On(DestroyEvent, ItemDestroy, this);
      RegisteredOn(l1, DestroyEvent, destroy, ChangeEvent, change);
      RegisteredOn(l1, DestroyEvent, destroy, DestroyEvent, destroy);
      modelList := modelList + [m];
      AttachSameOthers(l0, this);
      if m in ms {
        SameOthersTrans(listeners0[m], l0, m.listeners, this);
      }
      forall x | x in others && x != m && old(Tracks(x))
        ensures Tracks(x)
      {
        assert x.listeners == old(x.listeners);
        assert multiset(modelList)[x] == multiset(old(modelList))[x];
      }
    }

    /** `remove`: `removeRange([model])`. */
    method Remove(model: Model)
      requires Valid()
      modifies this`modelList, events`calls, model`listeners
      ensures Valid() && TracksAll(old(modelList))
      ensures SameOthers(old(model.listeners), model.listeners, this)
      ensures var r := RemoveEach(old(modelList), [model]);
              modelList == r.kept &&
              events.calls == old(events.calls) +
                (if r.deleted != [] then NotifyCalls(events.listeners, DeletedItemsEvent, OfModels(r.deleted)) else [])
    {
      RemoveRange(Some([model]));
    }

    /** `removeRange`: ignores a value that is not an array; otherwise removes
        each listed model still held, detaching both handlers from it, and
        notifies "deleted-items" once with the removed models iff there are any. */
    method RemoveRange(models: Option<seq<Model>>)
      requires Valid()
      modifies this`modelList, events`calls, ModelsOf(models)`listeners
      ensures Valid() && TracksAll(old(modelList))
      ensures forall x :: x in ModelsOf(models) ==> SameOthers(old(x.listeners), x.listeners, this)
      ensures var r := RemoveEach(old(modelList), ModelsOf(models));
              modelList == r.kept &&
              events.calls == old(events.calls) +
                (if r.deleted != [] then NotifyCalls(events.listeners, DeletedItemsEvent, OfModels(r.deleted)) else [])
    {
      if models.None? {
        return;
      }
      ghost var listeners0 := ListenerSnapshot(ModelsOf(models));
      KeptSinceStart(ModelsOf(models), this);
      hide Registered, NotifyCalls, RemoveEach, SameOthers, TracksAll, ModelsOf, KeptSince, ListenerSnapshot;
      var deleted := RemoveEachHeld(ModelsOf(models), listeners0);
      label removed:
      if |deleted| > 0 {
        events.Notify(DeletedItemsEvent, OfModels(deleted));
        StillTracks@removed(old(modelList));
        StillTracks@removed(modelList);
      }
      KeptSinceMeans(ModelsOf(models), listeners0, this);
    }

    /** Tracking depends on the slots and the listeners only: a change to
        calls alone keeps it. */
    twostate lemma StillTracks(ms: seq<Model>)
      requires old(TracksAll(ms)) && unchanged(this`modelList)
      requires forall m :: m in ms ==> unchanged(m`listeners)
      ensures TracksAll(ms)
    {
    }

    /** The loop of `removeRange`: every listed model, in order, removed once
        when still held; returns the removed ones. */
    method RemoveEachHeld(ms: seq<Model>, ghost listeners0: map<Model, map<string, seq<Listener>>>)
      returns (deleted: seq<Model>)
      requires Valid() && KeptSince(ms, listeners0, this)
      modifies this`modelList, ms`listeners
      ensures TracksAll(old(modelList)) && Valid()
      ensures RemoveEach(old(modelList), ms) == Removal(modelList, deleted)
      ensures KeptSince(ms, listeners0, this)
    {
      hide *;
      ProgressStart(ms, listeners0);
      deleted := [];
      var i := 0;
      while i < |ms|
        invariant 0 <= i <= |ms|
        invariant Progress(old(modelList), ms, i, deleted, listeners0)
      {
        deleted := RemoveNext(ms[i], old(modelList), ms, i, deleted, listeners0);
        i := i + 1;
      }
      ProgressDone(old(modelList), ms, deleted, listeners0);
    }

    /** After the first `i` listed models: the slots and removed models are
        those `RemoveEach` gives, every model first held is still tracked,
        nothing new is held, and the listed models kept every other
        registration. */
    ghost predicate Progress(start: seq<Model>, ms: seq<Model>, i: nat, deleted: seq<Model>,
                             listeners0: map<Model, map<string, seq<Listener>>>)
      reads this`modelList, start`listeners, ms`listeners
    {
      i <= |ms| &&
      RemoveEach(start, ms[..i]) == Removal(modelList, deleted) &&
      TracksAll(start) && (forall x :: x in modelList ==> x in start) &&
      KeptSince(ms, listeners0, this)
    }

    /** Before the loop nothing is removed yet. */
    lemma ProgressStart(ms: seq<Model>, listeners0: map<Model, map<string, seq<Listener>>>)
      requires Valid() && KeptSince(ms, listeners0, this)
      ensures Progress(modelList, ms, 0, [], listeners0)
    {
      assert RemoveEach(modelList, ms[..0]) == Removal(modelList, []);
    }

    /** At the end of the loop, the progress is the whole removal. */
    lemma ProgressDone(start: seq<Model>, ms: seq<Model>, deleted: seq<Model>,
                       listeners0: map<Model, map<string, seq<Listener>>>)
      requires Progress(start, ms, |ms|, deleted, listeners0)
      ensures RemoveEach(start, ms) == Removal(modelList, deleted)
      ensures TracksAll(start) && Valid()
      ensures KeptSince(ms, listeners0, this)
    {
      assert ms[..|ms|] == ms;
    }

    /** The body of the loop of `removeRange`: the `i`-th listed model removed
        once when still held. */
    method RemoveNext(model: Model, ghost start: seq<Model>, ms: seq<Model>, i: nat, deleted: seq<Model>,
                      ghost listeners0: map<Model, map<string, seq<Listener>>>) returns (next: seq<Model>)
      requires i < |ms| && ms[i] == model && Progress(start, ms, i, deleted, listeners0)
      modifies this`modelList, model`listeners
      ensures Progress(start, ms, i + 1, next, listeners0)
    {
      hide Registered, SwapRemove, RemoveEach, RemoveStep, IndexOf, SameOthers, DetachedFrom, KeptSince;
      RemoveEachStep(start, ms, i);
      var found := RemoveOne(model, start, deleted, ms, listeners0);
      next := if found then deleted + [model] else deleted;
    }

    /** One iteration of `removeRange`: when `model` is held, its first slot
        is vacated as `Detach` does; every model of `held` stays tracked. */
    method RemoveOne(model: Model, ghost held: seq<Model>, ghost deleted: seq<Model>,
                     ghost ms: seq<Model>, ghost listeners0: map<Model, map<string, seq<Listener>>>)
      returns (found: bool)
      requires TracksAll(held) && forall x :: x in modelList ==> x in held
      requires KeptSince(ms, listeners0, this)
      modifies this`modelList, model`listeners
      ensures RemoveStep(Removal(old(modelList), deleted), model) ==
              Removal(modelList, deleted + if found then [model] else [])
      ensures SameOthers(old(model.listeners), model.listeners, this)
      ensures TracksAll(held) && forall x :: x in modelList ==> x in held
      ensures KeptSince(ms, listeners0, this)
    {
      hide Registered, SameOthers, DetachedFrom;
      var atIndex := IndexOf(modelList, model);
      if atIndex < 0 {
        SameOthersRefl(model.listeners, this);
        return false;
      }
      ghost var before := model.listeners;
      Detach(model, atIndex, held);
      if model in ms {
        SameOthersTrans(listeners0[model], before, model.listeners, this);
      }
      return true;
    }

    /** One removal step: both handlers detached from the held `m`, and the
        last slot moved into `m`'s slot; every other model of `others` stays
        tracked. */
    method Detach(m: Model, atIndex: nat, ghost others: seq<Model>)
      requires atIndex < |modelList| && modelList[atIndex] == m
      requires Tracks(m)
      modifies this`modelList, m`listeners
      ensures modelList == SwapRemove(old(modelList), atIndex)
      ensures forall x :: x in modelList ==> x in old(modelList)
      ensures m.listeners == DetachedFrom(old(m.listeners), this)
      ensures SameOthers(old(m.listeners), m.listeners, this)
      ensures Tracks(m)
      ensures forall x :: x in others && x != m && old(Tracks(x)) ==> Tracks(x)
    {
      hide Registered, DetachedFrom, SameOthers;
      assert m in multiset(modelList);
      Unlisten(m);
      ghost var before := modelList;
      modelList := modelList[atIndex := modelList[|modelList| - 1]];
      modelList := modelList[..|modelList| - 1];
      assert modelList == SwapRemove(before, atIndex);
      forall x | x in modelList
        ensures x in before
      {
        assert x in multiset(modelList);
      }
      forall x | x in others && x != m && old(Tracks(x))
        ensures Tracks(x)
      {
        assert x.listeners == old(x.listeners);
        assert multiset(modelList)[x] == multiset(old(modelList))[x];
      }
    }

    /** Both of this collection's handlers detached from `m`, one entry each. */
    method Unlisten(m: Model)
      requires Registered(m.listeners, ChangeEvent, Listener(ItemChange, this)) > 0
      requires Registered(m.listeners, DestroyEvent, Listener(ItemDestroy, this)) > 0
      modifies m`listeners
      ensures Registered(m.listeners, ChangeEvent, Listener(ItemChange, this)) ==
              old(Registered(m.listeners, ChangeEvent, Listener(ItemChange, this))) - 1
      ensures Registered(m.listeners, DestroyEvent, Listener(ItemDestroy, this)) ==
              old(Registered(m.listeners, DestroyEvent, Listener(ItemDestroy, this))) - 1
      ensures m.listeners == DetachedFrom(old(m.listeners), this)
      ensures SameOthers(old(m.listeners), m.listeners, this)
    {
      DetachSameOthers(m.listeners, this);
      hide Without;
      var change, destroy := Listener(ItemChange, this), Listener(ItemDestroy, this);
      assert change in multiset(ListenersOf(m.listeners, ChangeEvent));
      assert destroy in multiset(ListenersOf(m.listeners, DestroyEvent));
      hide Registered;
      ghost var l0 := m.listeners;
      var detached := m.Off(ChangeEvent, ItemChange, this);
      RegisteredWithout(l0, ChangeEvent, change, ChangeEvent, change);
      RegisteredWithout(l0, ChangeEvent, change, DestroyEvent, destroy);
      ghost var l1 := m.listeners;
      assert ListenersOf(l1, DestroyEvent) == ListenersOf(l0, DestroyEvent);
      detached := m.Off(DestroyEvent, ItemDestroy, this);
      RegisteredWithout(l1, DestroyEvent, destroy, ChangeEvent, change);
      RegisteredWithout(l1, DestroyEvent, destroy, DestroyEvent, destroy);
    }

    /** `clear`: `removeRange(toArray())`. */
    method Clear()
      requires Valid()
      modifies this`modelList, events`calls, modelList`listeners
      ensures Valid() && TracksAll(old(modelList))
      ensures forall x :: x in old(modelList) ==> SameOthers(old(x.listeners), x.listeners, this)
      ensures modelList == []
      ensures events.calls == old(events.calls) +
                (if old(modelList) != [] then NotifyCalls(events.listeners, DeletedItemsEvent, OfModels(old(modelList))) else [])
    {
      RemoveAll(modelList);
      RemoveRange(Some(ToArray()));
    }

    /** `contains`: the model occupies some slot. */
    function Contains(model: Model): (b: bool)
      reads this
      ensures b <==> model in ToArray()
    {
      IndexOf(modelList, model) >= 0
    }

    /** `any`: the list is not empty. */
    function Any(): (b: bool)
      reads this
      ensures b <==> ToArray() != []
    {
      Size() > 0
    }

    /** `toArray`: the models, in slot order. */
    function ToArray(): (models: seq<Model>)
      reads this
      ensures models == modelList
    {
      modelList
    }

    /** `onItemChange`: re-emits "updated-item" with the changed model. */
    method OnItemChange(item: Model)
      modifies events`calls
      ensures events.calls == old(events.calls) + NotifyCalls(events.listeners, UpdatedItemEvent, OfModel(item))
    {
      events.Notify(UpdatedItemEvent, OfModel(item));
    }

    /** `onItemDestroy`: removes the destroyed model with `removeRange([item])`. */
    method OnItemDestroy(item: Model)
      requires Valid()
      modifies this`modelList, events`calls, item`listeners
      ensures Valid() && TracksAll(old(modelList))
      ensures SameOthers(old(item.listeners), item.listeners, this)
      ensures var r := RemoveEach(old(modelList), [item]);
              modelList == r.kept &&
              events.calls == old(events.calls) +
                (if r.deleted != [] then NotifyCalls(events.listeners, DeletedItemsEvent, OfModels(r.deleted)) else [])
    {
      RemoveRange(Some([item]));
    }
  }

  /** A member's change and destroy reach the collection, once per slot. */
  lemma MemberHearsCollection(c: Collection, m: Model)
    requires c.Valid() && m in c.modelList
    ensures Call(Listener(ItemChange, c), OfModel(m)) in NotifyCalls(m.listeners, ChangeEvent, OfModel(m))
    ensures Call(Listener(ItemDestroy, c), OfModel(m)) in NotifyCalls(m.listeners, DestroyEvent, OfModel(m))
  {
    NotifyReaches(m.listeners, ChangeEvent, Listener(ItemChange, c), OfModel(m));
    NotifyReaches(m.listeners, DestroyEvent, Listener(ItemDestroy, c), OfModel(m));
    assert m in multiset(c.modelList);
  }

  /** A model the collection tracks but no longer holds does not reach it. */
  lemma FormerMemberUnheard(c: Collection, m: Model)
    requires c.Tracks(m) && m !in c.modelList
    ensures Call(Listener(ItemChange, c), OfModel(m)) !in NotifyCalls(m.listeners, ChangeEvent, OfModel(m))
    ensures Call(Listener(ItemDestroy, c), OfModel(m)) !in NotifyCalls(m.listeners, DestroyEvent, OfModel(m))
  {
    NotifyReaches(m.listeners, ChangeEvent, Listener(ItemChange, c), OfModel(m));
    NotifyReaches(m.listeners, DestroyEvent, Listener(ItemDestroy, c), OfModel(m));
  }
}
