/**
 * Iroha Special Instructions: the closed union `Contract` of every instruction
 * payload, its dispatch against the world state, its wire encoding (a one-byte
 * variant index followed by the payload), and the projections that say which
 * accounts and assets a contract refers to.
 */
module Isi {
  import opened Primitives
  import opened Ids
  import opened Errors
  import opened Scale
  import opened World
  import AssetIsi

  /**
   * The payload of a variant whose type is not part of this model. It stands
   * there as a byte string, encoded as SCALE encodes a byte vector.
   */
  datatype Opaque = Opaque(raw: Str)

  /** The instruction vocabulary, in declaration order; that order fixes each variant's wire tag. */
  datatype Contract =
    | AddSignatory(addSignatory: Opaque)
    | AppendRole(appendRole: Opaque)
    | CreateAccount(createAccount: Opaque)
    | CreateRole(createRole: Opaque)
    | AddAssetQuantity(addAssetQuantity: AssetIsi.AddAssetQuantity)
    | TransferAsset(transferAsset: AssetIsi.TransferAsset)
    | CreateAsset(createAsset: AssetIsi.CreateAsset)
    | CreateDomain(createDomain: Opaque)
    | AddPeer(addPeer: Opaque)

  /** The declaration position of the variant. */
  function Index(c: Contract): (i: nat)
    ensures i < 9
  {
    match c
    case AddSignatory(_) => 0
    case AppendRole(_) => 1
    case CreateAccount(_) => 2
    case CreateRole(_) => 3
    case AddAssetQuantity(_) => 4
    case TransferAsset(_) => 5
    case CreateAsset(_) => 6
    case CreateDomain(_) => 7
    case AddPeer(_) => 8
  }

  /** The variants `invoke` has no execution for. */
  predicate Unsupported(c: Contract) {
    c.AddSignatory? || c.AppendRole? || c.CreateRole? || c.CreateAsset? || c.AddPeer?
  }

  // ================================================================ dispatch

  /**
   * The execution of CreateAccount and CreateDomain, whose code is not part of
   * this model: given the contract and the accounts, the new accounts or an error.
   */
  type Foreign = (Contract, Accounts) -> Result<Accounts>

  /** The effect of `invoke`: forward the four executable variants, refuse the rest. */
  function InvokeEffect(c: Contract, w: Accounts, foreign: Foreign): (r: Result<Accounts>)
    ensures Unsupported(c) ==> r == Err(Unimplemented)
  {
    match c
    case AddAssetQuantity(x) => AssetIsi.AddAssetQuantityEffect(x, w)
    case CreateAccount(_) => foreign(c, w)
    case CreateDomain(_) => foreign(c, w)
    case TransferAsset(x) => AssetIsi.TransferAssetEffect(x, w)
    case _ => Err(Unimplemented)
  }

  method ExecuteForeign(c: Contract, wsv: WorldStateView, foreign: Foreign) returns (r: Result<()>)
    modifies wsv
    ensures Applied(foreign(c, old(wsv.accounts)), r, old(wsv.accounts), wsv.accounts)
  {
    var effect := foreign(c, wsv.accounts);
    match effect
    case Ok(w) =>
      wsv.accounts := w;
      r := Ok(());
    case Err(e) =>
      r := Err(e);
  }

  /** `Contract::invoke`: a failed invocation returns its error and leaves the world as it was. */
  method Invoke(c: Contract, wsv: WorldStateView, foreign: Foreign) returns (r: Result<()>)
    modifies wsv
    ensures Applied(InvokeEffect(c, old(wsv.accounts), foreign), r, old(wsv.accounts), wsv.accounts)
    ensures r.Err? ==> wsv.accounts == old(wsv.accounts)
  {
    match c
    case AddAssetQuantity(x) =>
      r := AssetIsi.ExecuteAddAssetQuantity(x, wsv);
    case CreateAccount(_) =>
      r := ExecuteForeign(c, wsv, foreign);
    case CreateDomain(_) =>
      r := ExecuteForeign(c, wsv, foreign);
    case TransferAsset(x) =>
      r := AssetIsi.ExecuteTransferAsset(x, wsv);
    case _ =>
      r := Err(Unimplemented);
  }

  /** Invoking an asset instruction has exactly the effect and result of executing its payload. */
  lemma InvokeForwardsAssetInstructions(c: Contract, w: Accounts, foreign: Foreign)
    ensures c.AddAssetQuantity? ==>
      InvokeEffect(c, w, foreign) == AssetIsi.AddAssetQuantityEffect(c.addAssetQuantity, w)
    ensures c.TransferAsset? ==>
      InvokeEffect(c, w, foreign) == AssetIsi.TransferAssetEffect(c.transferAsset, w)
  {
  }

  /**
   * Outside the two variants executed by code this model does not see,
   * `invoke` reports Unimplemented exactly for the unsupported variants.
   */
  lemma InvokeUnimplementedExactly(c: Contract, w: Accounts, foreign: Foreign)
    requires !c.CreateAccount? && !c.CreateDomain?
    ensures InvokeEffect(c, w, foreign) == Err(Unimplemented) <==> Unsupported(c)
  {
  }

  // ================================================================ conversions

  /** `From<AddAssetQuantity> for Contract`. */
  function FromAddAssetQuantity(x: AssetIsi.AddAssetQuantity): (c: Contract)
    ensures c.AddAssetQuantity? && c.addAssetQuantity == x
  {
    AddAssetQuantity(x)
  }

  /** `From<CreateAsset> for Contract`. */
  function FromCreateAsset(x: AssetIsi.CreateAsset): (c: Contract)
    ensures c.CreateAsset? && c.createAsset == x
  {
    CreateAsset(x)
  }

  /** `From<TransferAsset> for Contract`. */
  function FromTransferAsset(x: AssetIsi.TransferAsset): (c: Contract)
    ensures c.TransferAsset? && c.transferAsset == x
  {
    TransferAsset(x)
  }

  // ================================================================ projections

  datatype Relation =
    | OwnedBy(id: Id)  // the account the contract takes from
    | GoingTo(id: Id)  // the account the contract gives to

  /** `Property::relations`: only TransferAsset is classified so far. */
  function Relations(c: Contract): (r: seq<Relation>)
    ensures c.TransferAsset? ==>
      r == [GoingTo(c.transferAsset.destinationAccountId), OwnedBy(c.transferAsset.sourceAccountId)]
    ensures !c.TransferAsset? ==> r == []
  {
    match c
    case TransferAsset(x) => [GoingTo(x.destinationAccountId), OwnedBy(x.sourceAccountId)]
    case _ => []
  }

  /** `Assetibility::assets`: only TransferAsset is classified so far. */
  function Assets(c: Contract): (r: seq<Id>)
    ensures c.TransferAsset? ==> r == [c.transferAsset.assetId]
    ensures !c.TransferAsset? ==> r == []
  {
    match c
    case TransferAsset(x) => [x.assetId]
    case _ => []
  }

  /** The accounts a sequence of relations names. */
  function RelatedAccounts(rs: seq<Relation>): (ids: set<Id>)
    ensures forall i :: 0 <= i < |rs| ==> rs[i].id in ids
  {
    set i | 0 <= i < |rs| :: rs[i].id
  }

  /**
   * The projections of a TransferAsset cover what invoking it can change: no
   * account outside its relations changes, and no asset key outside its assets
   * changes in any account.
   */
  lemma TransferAssetTouchesOnlyWhatItDeclares(c: Contract, w: Accounts, foreign: Foreign)
    requires c.TransferAsset? && InvokeEffect(c, w, foreign).Ok?
    ensures var w' := InvokeEffect(c, w, foreign).value;
      && w'.Keys == w.Keys
      && (forall k :: k in w && k !in RelatedAccounts(Relations(c)) ==> w'[k] == w[k])
      && (forall k, a :: k in w && a !in Assets(c) ==>
            (a in w'[k].assets <==> a in w[k].assets)
            && (a in w[k].assets ==> w'[k].assets[a] == w[k].assets[a]))
  {
    var x := c.transferAsset;
    var related := RelatedAccounts(Relations(c));
    assert Relations(c)[0].id == x.destinationAccountId && Relations(c)[1].id == x.sourceAccountId;
    assert x.destinationAccountId in related && x.sourceAccountId in related;
    if x.sourceAccountId == x.destinationAccountId {
      AssetIsi.TransferAssetToSelf(x, w);
    } else {
      AssetIsi.TransferAssetMoves(x, w);
    }
  }

  // ================================================================ codec

  function EncodeOpaque(p: Opaque): seq<byte> {
    EncodeStr(p.raw)
  }

  function DecodeOpaque(s: seq<byte>): (r: Result<Decoded<Opaque>>)
    ensures r.Err? ==> r.error == DecodeError
  {
    var raw :- DecodeStr(s);
    Ok(Decoded(Opaque(raw.value), raw.rest))
  }

  lemma OpaqueRoundTrip(p: Opaque, rest: seq<byte>)
    ensures DecodeOpaque(EncodeOpaque(p) + rest) == Ok(Decoded(p, rest))
  {
    StrRoundTrip(p.raw, rest);
  }

  lemma OpaqueCanonical(s: seq<byte>)
    requires DecodeOpaque(s).Ok?
    ensures s == EncodeOpaque(DecodeOpaque(s).value.value) + DecodeOpaque(s).value.rest
  {
    StrCanonical(s);
  }

  /** The derived encoding of the union: the variant's declaration index as one byte, then its payload. */
  function EncodeContract(c: Contract): (s: seq<byte>)
    ensures |s| > 0 && s[0] as nat == Index(c)
  {
    match c
    case AddSignatory(p) => [0] + EncodeOpaque(p)
    case AppendRole(p) => [1] + EncodeOpaque(p)
    case CreateAccount(p) => [2] + EncodeOpaque(p)
    case CreateRole(p) => [3] + EncodeOpaque(p)
    case AddAssetQuantity(x) => [4] + AssetIsi.EncodeAddAssetQuantity(x)
    case TransferAsset(x) => [5] + AssetIsi.EncodeTransferAsset(x)
    case CreateAsset(x) => [6] + AssetIsi.EncodeCreateAsset(x)
    case CreateDomain(p) => [7] + EncodeOpaque(p)
    case AddPeer(p) => [8] + EncodeOpaque(p)
  }

  /** The tags of the variants whose payload is opaque. */
  predicate OpaqueTag(tag: byte) {
    tag == 0 || tag == 1 || tag == 2 || tag == 3 || tag == 7 || tag == 8
  }

  /** The opaque-payload variant a tag selects. */
  function OpaqueVariant(tag: byte, p: Opaque): (c: Contract)
    requires OpaqueTag(tag)
    ensures Index(c) == tag as nat
    ensures EncodeContract(c) == [tag] + EncodeOpaque(p)
  {
    if tag == 0 then AddSignatory(p)
    else if tag == 1 then AppendRole(p)
    else if tag == 2 then CreateAccount(p)
    else if tag == 3 then CreateRole(p)
    else if tag == 7 then CreateDomain(p)
    else AddPeer(p)
  }

  /** Decoding reads the tag byte, refuses an unknown one, and decodes that variant's payload. */
  function DecodeContract(s: seq<byte>): (r: Result<Decoded<Contract>>)
    ensures |s| == 0 || s[0] as nat >= 9 ==> r == Err(DecodeError)
    ensures r.Err? ==> r.error == DecodeError
  {
    if |s| == 0 then Err(DecodeError)
    else
      var tag, body := s[0], s[1..];
      if OpaqueTag(tag) then
        var p :- DecodeOpaque(body);
        Ok(Decoded(OpaqueVariant(tag, p.value), p.rest))
      else if tag == 4 || tag == 5 || tag == 6 then DecodeAssetVariant(tag, body)
      else Err(DecodeError)
  }

  /**
   * The three asset-payload branches of the decoder. Keeping them behind their
   * tags' precondition lets a proof about one variant leave the other
   * variants' decoders folded.
   */
  function DecodeAssetVariant(tag: byte, body: seq<byte>): (r: Result<Decoded<Contract>>)
    requires tag == 4 || tag == 5 || tag == 6
    ensures tag == 4 ==> (r.Ok? <==> AssetIsi.DecodeAddAssetQuantity(body).Ok?)
    ensures tag == 5 ==> (r.Ok? <==> AssetIsi.DecodeTransferAsset(body).Ok?)
    ensures tag == 6 ==> (r.Ok? <==> AssetIsi.DecodeCreateAsset(body).Ok?)
    ensures r.Err? ==> r.error == DecodeError
  {
    if tag == 4 then
      var x :- AssetIsi.DecodeAddAssetQuantity(body);
      Ok(Decoded(AddAssetQuantity(x.value), x.rest))
    else if tag == 5 then
      var x :- AssetIsi.DecodeTransferAsset(body);
      Ok(Decoded(TransferAsset(x.value), x.rest))
    else
      var x :- AssetIsi.DecodeCreateAsset(body);
      Ok(Decoded(CreateAsset(x.value), x.rest))
  }

  /** Decoding an encoded contract, followed by anything, yields the contract and what followed. */
  lemma ContractRoundTrip(c: Contract, rest: seq<byte>)
    ensures DecodeContract(EncodeContract(c) + rest) == Ok(Decoded(c, rest))
  {
    match c
    case AddAssetQuantity(x) =>
      AddAssetQuantityVariantRoundTrip(x, rest);
      AddAssetQuantityTagged(x, rest);
    case TransferAsset(x) =>
      TransferAssetVariantRoundTrip(x, rest);
      TransferAssetTagged(x, rest);
    case CreateAsset(x) =>
      CreateAssetVariantRoundTrip(x, rest);
      CreateAssetTagged(x, rest);
    case AddSignatory(p) =>
      OpaqueVariantRoundTrip(0, p, rest);
      PrependTag(0, EncodeOpaque(p), rest);
    case AppendRole(p) =>
      OpaqueVariantRoundTrip(1, p, rest);
      PrependTag(1, EncodeOpaque(p), rest);
    case CreateAccount(p) =>
      OpaqueVariantRoundTrip(2, p, rest);
      PrependTag(2, EncodeOpaque(p), rest);
    case CreateRole(p) =>
      OpaqueVariantRoundTrip(3, p, rest);
      PrependTag(3, EncodeOpaque(p), rest);
    case CreateDomain(p) =>
      OpaqueVariantRoundTrip(7, p, rest);
      PrependTag(7, EncodeOpaque(p), rest);
    case AddPeer(p) =>
      OpaqueVariantRoundTrip(8, p, rest);
      PrependTag(8, EncodeOpaque(p), rest);
  }

  lemma OpaqueVariantRoundTrip(tag: byte, p: Opaque, rest: seq<byte>)
    requires OpaqueTag(tag)
    ensures DecodeContract([tag] + (EncodeOpaque(p) + rest)) == Ok(Decoded(OpaqueVariant(tag, p), rest))
  {
    var s := [tag] + (EncodeOpaque(p) + rest);
    Untag(tag, EncodeOpaque(p) + rest);
    OpaqueRoundTrip(p, rest);
  }

  lemma AddAssetQuantityVariantRoundTrip(x: AssetIsi.AddAssetQuantity, rest: seq<byte>)
    ensures DecodeContract([4] + (AssetIsi.EncodeAddAssetQuantity(x) + rest))
      == Ok(Decoded(AddAssetQuantity(x), rest))
  {
    var s := [4] + (AssetIsi.EncodeAddAssetQuantity(x) + rest);
    Untag(4, AssetIsi.EncodeAddAssetQuantity(x) + rest);
    AssetIsi.AddAssetQuantityRoundTrip(x, rest);
    DecodesAssetVariant(s);
  }

  lemma TransferAssetVariantRoundTrip(x: AssetIsi.TransferAsset, rest: seq<byte>)
    ensures DecodeContract([5] + (AssetIsi.EncodeTransferAsset(x) + rest))
      == Ok(Decoded(TransferAsset(x), rest))
  {
    var s := [5] + (AssetIsi.EncodeTransferAsset(x) + rest);
    Untag(5, AssetIsi.EncodeTransferAsset(x) + rest);
    AssetIsi.TransferAssetRoundTrip(x, rest);
    DecodesAssetVariant(s);
  }

  lemma CreateAssetVariantRoundTrip(x: AssetIsi.CreateAsset, rest: seq<byte>)
    ensures DecodeContract([6] + (AssetIsi.EncodeCreateAsset(x) + rest))
      == Ok(Decoded(CreateAsset(x), rest))
  {
    var s := [6] + (AssetIsi.EncodeCreateAsset(x) + rest);
    Untag(6, AssetIsi.EncodeCreateAsset(x) + rest);
    AssetIsi.CreateAssetRoundTrip(x, rest);
    DecodesAssetVariant(s);
  }

  /**
   * A successful decode consumed exactly the encoding of what it returned, and
   * the first byte it read is that variant's declaration index.
   */
  lemma ContractCanonical(s: seq<byte>)
    requires DecodeContract(s).Ok?
    ensures s == EncodeContract(DecodeContract(s).value.value) + DecodeContract(s).value.rest
    ensures s[0] as nat == Index(DecodeContract(s).value.value)
  {
    if OpaqueTag(s[0]) {
      OpaqueVariantCanonical(s);
    } else if s[0] == 4 {
      AddAssetQuantityVariantCanonical(s);
    } else if s[0] == 5 {
      TransferAssetVariantCanonical(s);
    } else {
      CreateAssetVariantCanonical(s);
    }
  }

  lemma OpaqueVariantCanonical(s: seq<byte>)
    requires DecodeContract(s).Ok? && |s| > 0 && OpaqueTag(s[0])
    ensures s == EncodeContract(DecodeContract(s).value.value) + DecodeContract(s).value.rest
    ensures s[0] as nat == Index(DecodeContract(s).value.value)
  {
    var tag, body := s[0], s[1..];
    var p := DecodeOpaque(body).value;
    assert DecodeContract(s).value == Decoded(OpaqueVariant(tag, p.value), p.rest);
    OpaqueCanonical(body);
    Untag(tag, body);
    PrependTag(tag, EncodeOpaque(p.value), p.rest);
  }

  lemma AddAssetQuantityVariantCanonical(s: seq<byte>)
    requires DecodeContract(s).Ok? && |s| > 0 && s[0] == 4
    ensures s == EncodeContract(DecodeContract(s).value.value) + DecodeContract(s).value.rest
    ensures s[0] as nat == Index(DecodeContract(s).value.value)
  {
    var body := s[1..];
    DecodesAssetVariant(s);
    var x := AssetIsi.DecodeAddAssetQuantity(body).value;
    assert DecodeContract(s).value == Decoded(AddAssetQuantity(x.value), x.rest);
    AssetIsi.AddAssetQuantityCanonical(body);
    Untag(4, body);
    AddAssetQuantityTagged(x.value, x.rest);
  }

  lemma TransferAssetVariantCanonical(s: seq<byte>)
    requires DecodeContract(s).Ok? && |s| > 0 && s[0] == 5
    ensures s == EncodeContract(DecodeContract(s).value.value) + DecodeContract(s).value.rest
    ensures s[0] as nat == Index(DecodeContract(s).value.value)
  {
    var body := s[1..];
    DecodesAssetVariant(s);
    var x := AssetIsi.DecodeTransferAsset(body).value;
    assert DecodeContract(s).value == Decoded(TransferAsset(x.value), x.rest);
    AssetIsi.TransferAssetCanonical(body);
    Untag(5, body);
    TransferAssetTagged(x.value, x.rest);
  }

  lemma CreateAssetVariantCanonical(s: seq<byte>)
    requires DecodeContract(s).Ok? && |s| > 0 && s[0] == 6
    ensures s == EncodeContract(DecodeContract(s).value.value) + DecodeContract(s).value.rest
    ensures s[0] as nat == Index(DecodeContract(s).value.value)
  {
    var body := s[1..];
    DecodesAssetVariant(s);
    var x := AssetIsi.DecodeCreateAsset(body).value;
    assert DecodeContract(s).value == Decoded(CreateAsset(x.value), x.rest);
    AssetIsi.CreateAssetCanonical(body);
    Untag(6, body);
    CreateAssetTagged(x.value, x.rest);
  }

  /** On an asset tag the decoder is its asset branch. */
  lemma DecodesAssetVariant(s: seq<byte>)
    requires |s| > 0 && (s[0] == 4 || s[0] == 5 || s[0] == 6)
    ensures DecodeContract(s) == DecodeAssetVariant(s[0], s[1..])
  {
  }

  lemma Untag(tag: byte, body: seq<byte>)
    ensures ([tag] + body)[0] == tag && ([tag] + body)[1..] == body
  {
  }

  lemma AddAssetQuantityTagged(x: AssetIsi.AddAssetQuantity, rest: seq<byte>)
    ensures [4 as byte] + (AssetIsi.EncodeAddAssetQuantity(x) + rest) == EncodeContract(AddAssetQuantity(x)) + rest
  {
  }

  lemma TransferAssetTagged(x: AssetIsi.TransferAsset, rest: seq<byte>)
    ensures [5 as byte] + (AssetIsi.EncodeTransferAsset(x) + rest) == EncodeContract(TransferAsset(x)) + rest
  {
  }

  lemma CreateAssetTagged(x: AssetIsi.CreateAsset, rest: seq<byte>)
    ensures [6 as byte] + (AssetIsi.EncodeCreateAsset(x) + rest) == EncodeContract(CreateAsset(x)) + rest
  {
  }

  lemma PrependTag(tag: byte, payload: seq<byte>, rest: seq<byte>)
    ensures [tag] + (payload + rest) == [tag] + payload + rest
  {
  }

  /** `From<Vec<u8>> for Contract`: decode from the front of the bytes; what follows is ignored. */
  function ContractFromBytes(b: seq<byte>): (r: Result<Contract>)
    ensures r.Ok? <==> DecodeContract(b).Ok?
    ensures r.Ok? ==> r.value == DecodeContract(b).value.value
    ensures r.Err? ==> r.error == DecodeError
  {
    var d :- DecodeContract(b);
    Ok(d.value)
  }

  /** Converting a contract to bytes and back yields it again, whatever bytes follow. */
  lemma ContractBytesRoundTrip(c: Contract, trailing: seq<byte>)
    ensures ContractFromBytes(EncodeContract(c)) == Ok(c)
    ensures ContractFromBytes(EncodeContract(c) + trailing) == Ok(c)
  {
    ContractRoundTrip(c, []);
    assert EncodeContract(c) + [] == EncodeContract(c);
    ContractRoundTrip(c, trailing);
  }
}
