/**
 * The part of the world state the asset instructions touch: accounts, keyed by
 * their identifier, each holding a map from asset identifier to `Asset`.
 * A holding is the presence of a key, not a counter.
 */
module World {
  import opened Ids
  import opened Errors

  /** An asset handle; it carries its identifier and no quantity. */
  datatype Asset = Asset(id: Id)

  /** `Asset::new`. */
  function NewAsset(id: Id): (a: Asset)
    ensures a.id == id
  {
    Asset(id)
  }

  datatype Account = Account(assets: map<Id, Asset>)

  type Accounts = map<Id, Account>

  /** The world state view; instructions receive it by exclusive reference and update it in place. */
  class WorldStateView {
    var accounts: Accounts
  }

  /** The accounts holding the asset keyed `asset`. */
  function Holders(w: Accounts, asset: Id): (h: set<Id>)
    ensures forall k :: k in h <==> k in w && asset in w[k].assets
  {
    set k | k in w && asset in w[k].assets
  }

  /** Every held asset is keyed by its own identifier. */
  predicate Consistent(w: Accounts) {
    forall k, a :: k in w && a in w[k].assets ==> w[k].assets[a].id == a
  }

  /**
   * How an executed instruction relates to its specification: on success the
   * world becomes the specified one and `Ok(())` is returned; on failure the
   * error is returned and the world is as it was.
   */
  predicate Applied(effect: Result<Accounts>, r: Result<()>, before: Accounts, after: Accounts) {
    match effect
    case Ok(w) => r == Ok(()) && after == w
    case Err(e) => r == Err(e) && after == before
  }
}
