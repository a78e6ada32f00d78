/** The editor-wide state outside the graph: the clipboard of
    src/common/global/index.ts and the source of fresh ids that `guid()`
    in src/utils/index.ts draws from. */
module Session {
  import opened Model

  class Session {
    /** global.clipboard.models */
    var clipboard: seq<ItemModel>
    /** How many ids have been drawn so far. */
    var drawn: nat
    /** The id `guid()` returns on its n-th call; its randomness is outside
        the model, so it is a parameter of the session. */
    const guid: nat -> Id

    constructor(guid: nat -> Id)
      ensures clipboard == [] && drawn == 0 && this.guid == guid
    {
      clipboard := [];
      drawn := 0;
      this.guid := guid;
    }

    /** guid(): the next id. */
    method Guid() returns (id: Id)
      modifies this`drawn
      ensures id == guid(old(drawn)) && drawn == old(drawn) + 1
    {
      id := guid(drawn);
      drawn := drawn + 1;
    }

    method SetClipboard(models: seq<ItemModel>)
      modifies this`clipboard
      ensures clipboard == models
    {
      clipboard := models;
    }
  }

  /** The ids the draws number `from` .. `from + n - 1` return are new to
      `used` and pairwise different. */
  predicate FreshIds(guid: nat -> Id, from: nat, n: nat, used: set<Id>)
  {
    (forall i :: from <= i < from + n ==> guid(i) !in used)
    && (forall i, j :: from <= i < j < from + n ==> guid(i) != guid(j))
  }
}
