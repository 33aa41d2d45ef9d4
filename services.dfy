/** The service registry of the services plugin
    (Plugins/src/services/ServiceConfig.ts): creators registered under
    non-empty string ids, and a lookup that calls the creator every time. */
module Services {
  import opened Wrappers
  import opened Js

  /** The `TypeError`s of `add`. */
  datatype AddError = InvalidId | InvalidCreator | DuplicateId

  /** The `ReferenceError` of `get`, or the exception a creator throws. */
  datatype GetError = NotFound | CreatorThrew(id: nat)

  /** What a creator call returns, named by the creator identified by
      `creator` and by the number `call` of that call among all creator calls
      made through the registry. The name says which call produced the value,
      not whether two calls return the same object. */
  datatype Instance = Instance(creator: nat, call: nat)

  /** `get` on a registry holding `services`, when `made` creator calls have
      already been made. */
  function GetResult(services: map<string, Callback>, id: Arg, made: nat): (r: Result<Instance, GetError>)
    requires forall k :: k in services ==> services[k].Function?
  {
    var key := Key(id);
    if key !in services then Err(NotFound)
    else if services[key].throws then Err(CreatorThrew(services[key].id))
    else Ok(Instance(services[key].id, made))
  }

  /** An id `add` accepts: a non-empty string. */
  predicate ValidId(id: Arg)
  {
    id.Str? && id.s != ""
  }

  /** `ServiceConfig`: the creators by id, and the ids of the creators `get`
      has called, in call order. */
  class ServiceConfig {
    var services: map<string, Callback>
    var calls: seq<nat>

    /** Every stored creator is a function. */
    ghost predicate Valid()
      reads this
    {
      forall k :: k in services ==> services[k].Function?
    }

    constructor()
      ensures Valid() && services == map[] && calls == []
    {
      services := map[];
      calls := [];
    }

    /** `add`: refuses an id that is not a non-empty string, then a creator
        that is not a function, then an id already registered; otherwise
        stores the creator and returns the registry. */
    method Add(id: Arg, creator: Callback) returns (o: Outcome<AddError>)
      requires Valid()
      modifies this`services
      ensures Valid()
      ensures !ValidId(id) ==> o == Fail(InvalidId)
      ensures ValidId(id) && creator.NotAFunction? ==> o == Fail(InvalidCreator)
      ensures ValidId(id) && creator.Function? && id.s in old(services) ==> o == Fail(DuplicateId)
      ensures o.Pass? <==> ValidId(id) && creator.Function? && id.s !in old(services)
      ensures services == if o.Pass? then old(services)[id.s := creator] else old(services)
    {
      if !ValidId(id) {
        return Fail(InvalidId);
      }
      if creator.NotAFunction? {
        return Fail(InvalidCreator);
      }
      if id.s in services {
        return Fail(DuplicateId);
      }
      services := services[id.s := creator];
      return Pass;
    }

    /** `get`: a `ReferenceError` for an unknown id; otherwise the creator is
        called again, and its result returned or its exception propagated. */
    method Get(id: Arg) returns (r: Result<Instance, GetError>)
      requires Valid()
      modifies this`calls
      ensures r == GetResult(services, id, |old(calls)|)
      ensures calls == old(calls) + (if Key(id) in services then [services[Key(id)].id] else [])
    {
      var creator := if Key(id) in services then Some(services[Key(id)]) else None;
      if creator.None? {
        return Err(NotFound);
      }
      var made := |calls|;
      calls := calls + [creator.value.id];
      if creator.value.throws {
        return Err(CreatorThrew(creator.value.id));
      }
      return Ok(Instance(creator.value.id, made));
    }
  }

  /** A creator stored under an id is what `get` of that id calls, and the
      other ids are looked up as before. */
  lemma AddedIsFound(services: map<string, Callback>, id: string, creator: Callback, other: Arg, made: nat)
    requires forall k :: k in services ==> services[k].Function?
    requires creator.Function?
    ensures GetResult(services[id := creator], Str(id), made) ==
            if creator.throws then Err(CreatorThrew(creator.id)) else Ok(Instance(creator.id, made))
    ensures Key(other) != id ==> GetResult(services[id := creator], other, made) == GetResult(services, other, made)
  {
  }
}
