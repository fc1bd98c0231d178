/**
 * The asset instructions: their payloads, their wire encodings, and the
 * execution of AddAssetQuantity and TransferAsset against the world state.
 * Each execution is specified by a function from the old accounts to the
 * new accounts or an error; every lookup the instruction needs is checked
 * before anything changes, so a failed execution leaves the world untouched.
 */
module AssetIsi {
  import opened Primitives
  import opened Ids
  import opened Errors
  import opened Scale
  import opened World

  /** Adds an asset to an account; `amount` is carried but plays no part in execution. */
  datatype AddAssetQuantity = AddAssetQuantity(assetId: Id, accountId: Id, amount: u128)

  /** Registers a new kind of asset in a domain; it has no execution semantics here. */
  datatype CreateAsset = CreateAsset(assetName: Str, domainId: Str, decimals: byte)

  /** Moves an asset from one account to another; `description` precedes `amount` on the wire. */
  datatype TransferAsset = TransferAsset(
    sourceAccountId: Id,
    destinationAccountId: Id,
    assetId: Id,
    description: Str,
    amount: u128)

  // ================================================================ execution

  /** The effect of AddAssetQuantity: the target account now holds `Asset::new(asset_id)`. */
  function AddAssetQuantityEffect(x: AddAssetQuantity, w: Accounts): (r: Result<Accounts>)
    ensures r.Err? <==> x.accountId !in w
    ensures r.Err? ==> r.error == EntityNotFound(x.accountId)
    ensures r.Ok? ==> r.value.Keys == w.Keys
  {
    if x.accountId !in w then Err(EntityNotFound(x.accountId))
    else
      var account := w[x.accountId];
      Ok(w[x.accountId := account.(assets := account.assets[x.assetId := NewAsset(x.assetId)])])
  }

  method ExecuteAddAssetQuantity(x: AddAssetQuantity, wsv: WorldStateView) returns (r: Result<()>)
    modifies wsv
    ensures Applied(AddAssetQuantityEffect(x, old(wsv.accounts)), r, old(wsv.accounts), wsv.accounts)
  {
    if x.accountId !in wsv.accounts {
      return Err(EntityNotFound(x.accountId));
    }
    var account := wsv.accounts[x.accountId];
    var assets := account.assets[x.assetId := NewAsset(x.assetId)];
    wsv.accounts := wsv.accounts[x.accountId := account.(assets := assets)];
    return Ok(());
  }

  /** After AddAssetQuantity the target maps `asset_id` to an asset of that identifier, and nothing else changed. */
  lemma AddAssetQuantityInserts(x: AddAssetQuantity, w: Accounts)
    requires x.accountId in w
    ensures AddAssetQuantityEffect(x, w).Ok?
    ensures var w' := AddAssetQuantityEffect(x, w).value;
      && x.assetId in w'[x.accountId].assets
      && w'[x.accountId].assets[x.assetId].id == x.assetId
      && w'[x.accountId].assets.Keys == w[x.accountId].assets.Keys + {x.assetId}
      && (forall a :: a in w[x.accountId].assets && a != x.assetId ==>
            w'[x.accountId].assets[a] == w[x.accountId].assets[a])
      && (forall k :: k in w && k != x.accountId ==> w'[k] == w[k])
  {
  }

  /** `amount` never influences the outcome. */
  lemma AddAssetQuantityIgnoresAmount(x: AddAssetQuantity, amount: u128, w: Accounts)
    ensures AddAssetQuantityEffect(x.(amount := amount), w) == AddAssetQuantityEffect(x, w)
  {
  }

  /** Executing AddAssetQuantity twice gives the world executing it once gives. */
  lemma AddAssetQuantityIdempotent(x: AddAssetQuantity, w: Accounts)
    requires AddAssetQuantityEffect(x, w).Ok?
    ensures AddAssetQuantityEffect(x, AddAssetQuantityEffect(x, w).value) == AddAssetQuantityEffect(x, w)
  {
    var w' := AddAssetQuantityEffect(x, w).value;
    var account := w'[x.accountId];
    assert account.assets[x.assetId := NewAsset(x.assetId)] == account.assets;
    assert w'[x.accountId := account] == w';
  }

  /** AddAssetQuantity keeps every holding keyed by its own identifier. */
  lemma AddAssetQuantityKeepsConsistent(x: AddAssetQuantity, w: Accounts)
    requires Consistent(w) && AddAssetQuantityEffect(x, w).Ok?
    ensures Consistent(AddAssetQuantityEffect(x, w).value)
  {
  }

  /**
   * The effect of TransferAsset: the source must exist and hold the asset, and
   * the destination must exist; then the asset is removed from the source and
   * the removed value is inserted into the destination, read after the removal.
   */
  function TransferAssetEffect(x: TransferAsset, w: Accounts): (r: Result<Accounts>)
    ensures x.sourceAccountId !in w ==> r == Err(EntityNotFound(x.sourceAccountId))
    ensures x.sourceAccountId in w && x.assetId !in w[x.sourceAccountId].assets ==>
      r == Err(AssetNotHeld(x.assetId))
    ensures x.sourceAccountId in w && x.assetId in w[x.sourceAccountId].assets && x.destinationAccountId !in w ==>
      r == Err(EntityNotFound(x.destinationAccountId))
    ensures r.Ok? <==>
      x.sourceAccountId in w && x.assetId in w[x.sourceAccountId].assets && x.destinationAccountId in w
    ensures r.Ok? ==> r.value.Keys == w.Keys
  {
    if x.sourceAccountId !in w then Err(EntityNotFound(x.sourceAccountId))
    else if x.assetId !in w[x.sourceAccountId].assets then Err(AssetNotHeld(x.assetId))
    else if x.destinationAccountId !in w then Err(EntityNotFound(x.destinationAccountId))
    else
      var source := w[x.sourceAccountId];
      var asset := source.assets[x.assetId];
      var w1 := w[x.sourceAccountId := source.(assets := source.assets - {x.assetId})];
      var destination := w1[x.destinationAccountId];
      Ok(w1[x.destinationAccountId := destination.(assets := destination.assets[x.assetId := asset])])
  }

  method ExecuteTransferAsset(x: TransferAsset, wsv: WorldStateView) returns (r: Result<()>)
    modifies wsv
    ensures Applied(TransferAssetEffect(x, old(wsv.accounts)), r, old(wsv.accounts), wsv.accounts)
  {
    if x.sourceAccountId !in wsv.accounts {
      return Err(EntityNotFound(x.sourceAccountId));
    }
    if x.assetId !in wsv.accounts[x.sourceAccountId].assets {
      return Err(AssetNotHeld(x.assetId));
    }
    if x.destinationAccountId !in wsv.accounts {
      return Err(EntityNotFound(x.destinationAccountId));
    }
    var source := wsv.accounts[x.sourceAccountId];
    var asset := source.assets[x.assetId];
    wsv.accounts := wsv.accounts[x.sourceAccountId := source.(assets := source.assets - {x.assetId})];
    var destination := wsv.accounts[x.destinationAccountId];
    wsv.accounts := wsv.accounts[x.destinationAccountId := destination.(assets := destination.assets[x.assetId := asset])];
    return Ok(());
  }

  /**
   * Between distinct accounts the source stops holding the asset, the
   * destination holds the very value removed, and nothing else changes.
   */
  lemma TransferAssetMoves(x: TransferAsset, w: Accounts)
    requires TransferAssetEffect(x, w).Ok?
    requires x.sourceAccountId != x.destinationAccountId
    ensures var w' := TransferAssetEffect(x, w).value;
      var src, dst := x.sourceAccountId, x.destinationAccountId;
      && x.assetId !in w'[src].assets
      && x.assetId in w'[dst].assets
      && w'[dst].assets[x.assetId] == w[src].assets[x.assetId]
      && w'[src].assets.Keys == w[src].assets.Keys - {x.assetId}
      && w'[dst].assets.Keys == w[dst].assets.Keys + {x.assetId}
      && (forall a :: a in w[src].assets && a != x.assetId ==> w'[src].assets[a] == w[src].assets[a])
      && (forall a :: a in w[dst].assets && a != x.assetId ==> w'[dst].assets[a] == w[dst].assets[a])
      && (forall k :: k in w && k != src && k != dst ==> w'[k] == w[k])
  {
  }

  /** A transfer from an account to itself leaves the world as it was. */
  lemma TransferAssetToSelf(x: TransferAsset, w: Accounts)
    requires TransferAssetEffect(x, w).Ok?
    requires x.sourceAccountId == x.destinationAccountId
    ensures TransferAssetEffect(x, w) == Ok(w)
  {
    var src := x.sourceAccountId;
    var source := w[src];
    var removed := source.(assets := source.assets - {x.assetId});
    var w1 := w[src := removed];
    assert removed.(assets := removed.assets[x.assetId := source.assets[x.assetId]]) == source;
    assert w1[src := source] == w[src := source] == w;
  }

  /** `amount` and `description` never influence the outcome. */
  lemma TransferAssetIgnoresAmount(x: TransferAsset, amount: u128, description: Str, w: Accounts)
    ensures TransferAssetEffect(x.(amount := amount, description := description), w) == TransferAssetEffect(x, w)
  {
  }

  /** Holdings of every other asset stay where they were. */
  lemma TransferAssetKeepsOtherHolders(x: TransferAsset, w: Accounts, other: Id)
    requires TransferAssetEffect(x, w).Ok? && other != x.assetId
    ensures Holders(TransferAssetEffect(x, w).value, other) == Holders(w, other)
  {
  }

  /**
   * A transfer to an account that did not hold the asset moves the holding:
   * the set of holders loses the source, gains the destination, and keeps its size.
   */
  lemma TransferAssetPreservesHolderCount(x: TransferAsset, w: Accounts)
    requires TransferAssetEffect(x, w).Ok?
    requires x.assetId !in w[x.destinationAccountId].assets
    ensures var h := Holders(TransferAssetEffect(x, w).value, x.assetId);
      h == Holders(w, x.assetId) - {x.sourceAccountId} + {x.destinationAccountId}
      && |h| == |Holders(w, x.assetId)|
  {
    var src, dst := x.sourceAccountId, x.destinationAccountId;
    var before := Holders(w, x.assetId);
    var after := Holders(TransferAssetEffect(x, w).value, x.assetId);
    TransferAssetMoves(x, w);
    assert after == before - {src} + {dst};
    assert src in before && dst !in before;
    assert |before - {src}| == |before| - 1;
  }

  /**
   * A transfer to another account that already held the asset overwrites that
   * holding: one account fewer holds the asset.
   */
  lemma TransferAssetOntoHolder(x: TransferAsset, w: Accounts)
    requires TransferAssetEffect(x, w).Ok?
    requires x.sourceAccountId != x.destinationAccountId
    requires x.assetId in w[x.destinationAccountId].assets
    ensures |Holders(TransferAssetEffect(x, w).value, x.assetId)| == |Holders(w, x.assetId)| - 1
  {
    var src := x.sourceAccountId;
    var before := Holders(w, x.assetId);
    TransferAssetMoves(x, w);
    assert Holders(TransferAssetEffect(x, w).value, x.assetId) == before - {src};
  }

  /** TransferAsset keeps every holding keyed by its own identifier. */
  lemma TransferAssetKeepsConsistent(x: TransferAsset, w: Accounts)
    requires Consistent(w) && TransferAssetEffect(x, w).Ok?
    ensures Consistent(TransferAssetEffect(x, w).value)
  {
  }

  // ================================================================ codec

  /** The derived encodings: the fields in declaration order. */
  function EncodeAddAssetQuantity(x: AddAssetQuantity): (s: seq<byte>)
    ensures |s| >= 20
    ensures s[|s| - 16..] == EncodeU128(x.amount)
  {
    EncodeId(x.assetId) + EncodeId(x.accountId) + EncodeU128(x.amount)
  }

  function DecodeAddAssetQuantity(s: seq<byte>): (r: Result<Decoded<AddAssetQuantity>>)
    ensures r.Ok? ==> |r.value.rest| < |s|
    ensures r.Err? ==> r.error == DecodeError
  {
    var assetId :- DecodeId(s);
    var accountId :- DecodeId(assetId.rest);
    var amount :- DecodeU128(accountId.rest);
    Ok(Decoded(AddAssetQuantity(assetId.value, accountId.value, amount.value), amount.rest))
  }

  lemma AddAssetQuantityRoundTrip(x: AddAssetQuantity, rest: seq<byte>)
    ensures DecodeAddAssetQuantity(EncodeAddAssetQuantity(x) + rest) == Ok(Decoded(x, rest))
  {
    var t2 := EncodeU128(x.amount) + rest;
    var t1 := EncodeId(x.accountId) + t2;
    AddAssetQuantityLayout(x, rest);
    IdRoundTrip(x.assetId, t1);
    IdRoundTrip(x.accountId, t2);
    U128RoundTrip(x.amount, rest);
    AddAssetQuantityDecodes(EncodeAddAssetQuantity(x) + rest,
      Decoded(x.assetId, t1), Decoded(x.accountId, t2), Decoded(x.amount, rest));
  }

  lemma AddAssetQuantityCanonical(s: seq<byte>)
    requires DecodeAddAssetQuantity(s).Ok?
    ensures s == EncodeAddAssetQuantity(DecodeAddAssetQuantity(s).value.value) + DecodeAddAssetQuantity(s).value.rest
  {
    var assetId := DecodeId(s).value;
    var accountId := DecodeId(assetId.rest).value;
    var amount := DecodeU128(accountId.rest).value;
    AddAssetQuantityDecodes(s, assetId, accountId, amount);
    IdCanonical(s);
    IdCanonical(assetId.rest);
    U128Canonical(accountId.rest);
    AddAssetQuantityLayout(AddAssetQuantity(assetId.value, accountId.value, amount.value), amount.rest);
  }

  /** The encoding of an AddAssetQuantity followed by `rest`, field by field. */
  lemma AddAssetQuantityLayout(x: AddAssetQuantity, rest: seq<byte>)
    ensures EncodeAddAssetQuantity(x) + rest
      == EncodeId(x.assetId) + (EncodeId(x.accountId) + (EncodeU128(x.amount) + rest))
  {
    Reassociate3(EncodeId(x.assetId), EncodeId(x.accountId), EncodeU128(x.amount), rest);
  }

  /** The decoder in terms of its fields' decoders. */
  lemma AddAssetQuantityDecodes(s: seq<byte>, assetId: Decoded<Id>, accountId: Decoded<Id>, amount: Decoded<u128>)
    requires DecodeId(s) == Ok(assetId)
    requires DecodeId(assetId.rest) == Ok(accountId)
    requires DecodeU128(accountId.rest) == Ok(amount)
    ensures DecodeAddAssetQuantity(s)
      == Ok(Decoded(AddAssetQuantity(assetId.value, accountId.value, amount.value), amount.rest))
  {
  }

  function EncodeCreateAsset(x: CreateAsset): (s: seq<byte>)
    ensures |s| >= 3
    ensures s[|s| - 1] == x.decimals
  {
    EncodeStr(x.assetName) + EncodeStr(x.domainId) + EncodeU8(x.decimals)
  }

  function DecodeCreateAsset(s: seq<byte>): (r: Result<Decoded<CreateAsset>>)
    ensures r.Ok? ==> |r.value.rest| < |s|
    ensures r.Err? ==> r.error == DecodeError
  {
    var assetName :- DecodeStr(s);
    var domainId :- DecodeStr(assetName.rest);
    var decimals :- DecodeU8(domainId.rest);
    Ok(Decoded(CreateAsset(assetName.value, domainId.value, decimals.value), decimals.rest))
  }

  lemma CreateAssetRoundTrip(x: CreateAsset, rest: seq<byte>)
    ensures DecodeCreateAsset(EncodeCreateAsset(x) + rest) == Ok(Decoded(x, rest))
  {
    var t2 := EncodeU8(x.decimals) + rest;
    var t1 := EncodeStr(x.domainId) + t2;
    CreateAssetLayout(x, rest);
    StrRoundTrip(x.assetName, t1);
    StrRoundTrip(x.domainId, t2);
    U8RoundTrip(x.decimals, rest);
    CreateAssetDecodes(EncodeCreateAsset(x) + rest,
      Decoded(x.assetName, t1), Decoded(x.domainId, t2), Decoded(x.decimals, rest));
  }

  lemma CreateAssetCanonical(s: seq<byte>)
    requires DecodeCreateAsset(s).Ok?
    ensures s == EncodeCreateAsset(DecodeCreateAsset(s).value.value) + DecodeCreateAsset(s).value.rest
  {
    var assetName := DecodeStr(s).value;
    var domainId := DecodeStr(assetName.rest).value;
    var decimals := DecodeU8(domainId.rest).value;
    CreateAssetDecodes(s, assetName, domainId, decimals);
    StrCanonical(s);
    StrCanonical(assetName.rest);
    U8Canonical(domainId.rest);
    CreateAssetLayout(CreateAsset(assetName.value, domainId.value, decimals.value), decimals.rest);
  }

  lemma CreateAssetLayout(x: CreateAsset, rest: seq<byte>)
    ensures EncodeCreateAsset(x) + rest
      == EncodeStr(x.assetName) + (EncodeStr(x.domainId) + (EncodeU8(x.decimals) + rest))
  {
    Reassociate3(EncodeStr(x.assetName), EncodeStr(x.domainId), EncodeU8(x.decimals), rest);
  }

  lemma CreateAssetDecodes(s: seq<byte>, assetName: Decoded<Str>, domainId: Decoded<Str>, decimals: Decoded<byte>)
    requires DecodeStr(s) == Ok(assetName)
    requires DecodeStr(assetName.rest) == Ok(domainId)
    requires DecodeU8(domainId.rest) == Ok(decimals)
    ensures DecodeCreateAsset(s)
      == Ok(Decoded(CreateAsset(assetName.value, domainId.value, decimals.value), decimals.rest))
  {
  }

  function EncodeTransferAsset(x: TransferAsset): (s: seq<byte>)
    ensures |s| >= 23
    ensures s[|s| - 16..] == EncodeU128(x.amount)
  {
    EncodeId(x.sourceAccountId) + EncodeId(x.destinationAccountId) + EncodeId(x.assetId)
      + EncodeStr(x.description) + EncodeU128(x.amount)
  }

  function DecodeTransferAsset(s: seq<byte>): (r: Result<Decoded<TransferAsset>>)
    ensures r.Ok? ==> |r.value.rest| < |s|
    ensures r.Err? ==> r.error == DecodeError
  {
    var source :- DecodeId(s);
    var destination :- DecodeId(source.rest);
    var assetId :- DecodeId(destination.rest);
    var description :- DecodeStr(assetId.rest);
    var amount :- DecodeU128(description.rest);
    Ok(Decoded(
      TransferAsset(source.value, destination.value, assetId.value, description.value, amount.value),
      amount.rest))
  }

  lemma TransferAssetRoundTrip(x: TransferAsset, rest: seq<byte>)
    ensures DecodeTransferAsset(EncodeTransferAsset(x) + rest) == Ok(Decoded(x, rest))
  {
    var t4 := EncodeU128(x.amount) + rest;
    var t3 := EncodeStr(x.description) + t4;
    var t2 := EncodeId(x.assetId) + t3;
    var t1 := EncodeId(x.destinationAccountId) + t2;
    TransferAssetLayout(x, rest);
    IdRoundTrip(x.sourceAccountId, t1);
    IdRoundTrip(x.destinationAccountId, t2);
    IdRoundTrip(x.assetId, t3);
    StrRoundTrip(x.description, t4);
    U128RoundTrip(x.amount, rest);
    TransferAssetDecodes(EncodeTransferAsset(x) + rest, Decoded(x.sourceAccountId, t1),
      Decoded(x.destinationAccountId, t2), Decoded(x.assetId, t3), Decoded(x.description, t4),
      Decoded(x.amount, rest));
  }

  lemma TransferAssetCanonical(s: seq<byte>)
    requires DecodeTransferAsset(s).Ok?
    ensures s == EncodeTransferAsset(DecodeTransferAsset(s).value.value) + DecodeTransferAsset(s).value.rest
  {
    var source := DecodeId(s).value;
    var destination := DecodeId(source.rest).value;
    var assetId := DecodeId(destination.rest).value;
    var description := DecodeStr(assetId.rest).value;
    var amount := DecodeU128(description.rest).value;
    TransferAssetDecodes(s, source, destination, assetId, description, amount);
    IdCanonical(s);
    IdCanonical(source.rest);
    IdCanonical(destination.rest);
    StrCanonical(assetId.rest);
    U128Canonical(description.rest);
    TransferAssetLayout(
      TransferAsset(source.value, destination.value, assetId.value, description.value, amount.value),
      amount.rest);
  }

  lemma TransferAssetLayout(x: TransferAsset, rest: seq<byte>)
    ensures EncodeTransferAsset(x) + rest
      == EncodeId(x.sourceAccountId) + (EncodeId(x.destinationAccountId) + (EncodeId(x.assetId)
         + (EncodeStr(x.description) + (EncodeU128(x.amount) + rest))))
  {
    Reassociate5(EncodeId(x.sourceAccountId), EncodeId(x.destinationAccountId), EncodeId(x.assetId),
      EncodeStr(x.description), EncodeU128(x.amount), rest);
  }

  lemma TransferAssetDecodes(s: seq<byte>, source: Decoded<Id>, destination: Decoded<Id>,
                             assetId: Decoded<Id>, description: Decoded<Str>, amount: Decoded<u128>)
    requires DecodeId(s) == Ok(source)
    requires DecodeId(source.rest) == Ok(destination)
    requires DecodeId(destination.rest) == Ok(assetId)
    requires DecodeStr(assetId.rest) == Ok(description)
    requires DecodeU128(description.rest) == Ok(amount)
    ensures DecodeTransferAsset(s) == Ok(Decoded(
      TransferAsset(source.value, destination.value, assetId.value, description.value, amount.value),
      amount.rest))
  {
  }

  lemma Reassociate3(a: seq<byte>, b: seq<byte>, c: seq<byte>, r: seq<byte>)
    ensures a + (b + (c + r)) == a + b + c + r
  {
  }

  lemma Reassociate5(a: seq<byte>, b: seq<byte>, c: seq<byte>, d: seq<byte>, e: seq<byte>, r: seq<byte>)
    ensures a + (b + (c + (d + (e + r)))) == a + b + c + d + e + r
  {
  }

  // ================================================================ byte vectors

  /** `From<Vec<u8>>`: decode a value from the front of the bytes; what follows it is ignored. */
  function AddAssetQuantityFromBytes(b: seq<byte>): (r: Result<AddAssetQuantity>)
    ensures r.Ok? <==> DecodeAddAssetQuantity(b).Ok?
    ensures r.Ok? ==> r.value == DecodeAddAssetQuantity(b).value.value
    ensures r.Err? ==> r.error == DecodeError
  {
    var d :- DecodeAddAssetQuantity(b);
    Ok(d.value)
  }

  lemma AddAssetQuantityBytesRoundTrip(x: AddAssetQuantity)
    ensures AddAssetQuantityFromBytes(EncodeAddAssetQuantity(x)) == Ok(x)
  {
    AddAssetQuantityRoundTrip(x, []);
    assert EncodeAddAssetQuantity(x) + [] == EncodeAddAssetQuantity(x);
  }

  function CreateAssetFromBytes(b: seq<byte>): (r: Result<CreateAsset>)
    ensures r.Ok? <==> DecodeCreateAsset(b).Ok?
    ensures r.Ok? ==> r.value == DecodeCreateAsset(b).value.value
    ensures r.Err? ==> r.error == DecodeError
  {
    var d :- DecodeCreateAsset(b);
    Ok(d.value)
  }

  lemma CreateAssetBytesRoundTrip(x: CreateAsset)
    ensures CreateAssetFromBytes(EncodeCreateAsset(x)) == Ok(x)
  {
    CreateAssetRoundTrip(x, []);
    assert EncodeCreateAsset(x) + [] == EncodeCreateAsset(x);
  }

  function TransferAssetFromBytes(b: seq<byte>): (r: Result<TransferAsset>)
    ensures r.Ok? <==> DecodeTransferAsset(b).Ok?
    ensures r.Ok? ==> r.value == DecodeTransferAsset(b).value.value
    ensures r.Err? ==> r.error == DecodeError
  {
    var d :- DecodeTransferAsset(b);
    Ok(d.value)
  }

  lemma TransferAssetBytesRoundTrip(x: TransferAsset)
    ensures TransferAssetFromBytes(EncodeTransferAsset(x)) == Ok(x)
  {
    TransferAssetRoundTrip(x, []);
    assert EncodeTransferAsset(x) + [] == EncodeTransferAsset(x);
  }
}
