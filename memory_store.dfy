/** The in-memory chat store: a dictionary from UUID to chat behind a lock.
    Calls are modelled one at a time, so the lock is not modelled. */
module MemoryStores {
  import opened Wrappers
  import opened ChatModels

  /** `ObjectNotFoundError` and the `ValueError` of a mismatched update. */
  datatype StoreError = NotFound(uuid: Uuid) | UuidMismatch(objUuid: Uuid, uuid: Uuid)

  /** Every stored chat is filed under its own UUID. */
  predicate Filed(objs: map<Uuid, Chat>) {
    forall k | k in objs :: objs[k].uuid == k
  }

  class MemoryStore {
    var objs: map<Uuid, Chat>

    constructor()
      ensures objs == map[]
    {
      objs := map[];
    }

    /** Inserts `obj` unless its UUID is already taken. */
    method Create(obj: Chat) returns (created: bool)
      modifies this
      ensures created <==> obj.uuid !in old(objs)
      ensures objs == if created then old(objs)[obj.uuid := obj] else old(objs)
      ensures |objs| == old(|objs|) + (if created then 1 else 0)
      ensures old(Filed(objs)) ==> Filed(objs)
    {
      if obj.uuid in objs {
        return false;
      }
      objs := objs[obj.uuid := obj];
      return true;
    }

    /** The stored chat, or nothing. */
    function Get(uuid: Uuid): (r: Option<Chat>)
      reads this
      ensures r.Some? <==> uuid in objs
      ensures r.Some? ==> r.value == objs[uuid]
    {
      if uuid in objs then Some(objs[uuid]) else None
    }

    /** The stored chat, or `ObjectNotFoundError`. */
    function Require(uuid: Uuid): (r: Result<Chat, StoreError>)
      reads this
      ensures r.Ok? <==> uuid in objs
      ensures r.Ok? ==> r.value == objs[uuid]
      ensures r.Err? ==> r.error == NotFound(uuid)
    {
      match Get(uuid)
      case None => Err(NotFound(uuid))
      case Some(obj) => Ok(obj)
    }

    /** Replaces the chat filed under `uuid`, which must be the chat's own;
        reports whether there was one. */
    method Update(uuid: Uuid, obj: Chat) returns (r: Result<bool, StoreError>)
      modifies this
      ensures obj.uuid != uuid ==> r == Err(UuidMismatch(obj.uuid, uuid)) && objs == old(objs)
      ensures obj.uuid == uuid ==> r == Ok(uuid in old(objs))
      ensures obj.uuid == uuid && uuid in old(objs) ==> objs == old(objs)[uuid := obj]
      ensures obj.uuid == uuid && uuid !in old(objs) ==> objs == old(objs)
      ensures old(Filed(objs)) ==> Filed(objs)
    {
      if obj.uuid != uuid {
        return Err(UuidMismatch(obj.uuid, uuid));
      }
      if uuid !in objs {
        return Ok(false);
      }
      objs := objs[uuid := obj];
      return Ok(true);
    }

    /** Applies `fn` to the chat filed under `uuid` and returns the result;
        nothing else changes. The chat stays filed under `uuid` whatever
        `fn` does to it. */
    method Mutate(uuid: Uuid, fn: Chat -> Chat) returns (r: Result<Chat, StoreError>)
      modifies this
      ensures uuid !in old(objs) ==> r == Err(NotFound(uuid)) && objs == old(objs)
      ensures uuid in old(objs) ==> r == Ok(fn(old(objs)[uuid])) && objs == old(objs)[uuid := fn(old(objs)[uuid])]
      ensures old(Filed(objs)) && (forall c :: fn(c).uuid == c.uuid) ==> Filed(objs)
    {
      var found := Require(uuid);
      if found.Err? {
        return Err(found.error);
      }
      var obj := fn(found.value);
      objs := objs[uuid := obj];
      return Ok(obj);
    }

    /** Removes the chat filed under `uuid`; reports whether there was one. */
    method Delete(uuid: Uuid) returns (deleted: bool)
      modifies this
      ensures deleted <==> uuid in old(objs)
      ensures objs == old(objs) - {uuid}
      ensures |objs| == old(|objs|) - (if deleted then 1 else 0)
      ensures old(Filed(objs)) ==> Filed(objs)
    {
      deleted := uuid in objs;
      objs := objs - {uuid};
    }

    function Count(): (n: nat)
      reads this
      ensures n == |objs.Keys|
    {
      |objs|
    }
  }
}
