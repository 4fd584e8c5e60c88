/** acl.c: the numbers of commands. */
module AclIds {
  import opened Letters
  import opened AclTable

  /** Every name has its own number, and none has the reserved bit's. */
  ghost predicate IdsOk(ids: map<string, nat>, next: nat) {
    && next != RESERVED
    && (forall n :: n in ids ==> ids[n] < next && ids[n] != RESERVED)
    && (forall n, m :: n in ids && m in ids && n != m ==> ids[n] != ids[m])
  }

  class CommandIds {
    var ids: map<string, nat>  // commandId
    var nextId: nat

    constructor ()
      ensures IdsOk(ids, nextId) && ids == map[]
    {
      ids, nextId := map[], 0;
    }

    /** ACLGetCommandID: a name keeps its number, whatever its case; a new one gets a new number. */
    method GetCommandID(name: string) returns (id: nat)
      requires IdsOk(ids, nextId)
      modifies this
      ensures IdsOk(ids, nextId) && Lower(name) in ids && id == ids[Lower(name)]
      ensures forall n :: n in old(ids) ==> n in ids && ids[n] == old(ids)[n]
      ensures forall n :: n in ids ==> n in old(ids) || n == Lower(name)
    {
      var lower := Lower(name);
      if lower in ids {
        return ids[lower];
      }
      id := nextId;
      ids := ids[lower := nextId];
      nextId := nextId + 1;
      if nextId == BITS - 1 {
        nextId := nextId + 1;
      }
    }
  }
}
