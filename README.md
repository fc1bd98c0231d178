# Iroha Special Instructions: a Dafny model

This project models the instruction-execution layer of the Iroha ledger. Iroha
Special Instructions (ISI) are the ledger's built-in smart contracts. The model
covers:

- **Identifiers.** `Id` pairs an entity name with a domain name (module `Ids`).
- **Assets and the world state.** Each account holds a map from asset identifier
  to `Asset`. A holding is the presence of a key, not a counter (module `World`).
  The `WorldStateView` is a class whose `accounts` field the instructions update
  in place.
- **The asset instructions** AddAssetQuantity, CreateAsset and TransferAsset
  (module `AssetIsi`).
  - **Payloads and execution.** It models their payloads and the execution of
    AddAssetQuantity and TransferAsset.
  - **Encodings.** It models each payload's derived SCALE encoding, the wire
    format of the `parity_scale_codec` crate.
  - **Conversions.** It models their conversions to `Contract` and from bytes.
- **The closed union `Contract`** of nine instruction variants (module `Isi`):
  - its dispatch `invoke`;
  - its encoding: a one-byte variant index, then the payload;
  - its conversion from bytes;
  - the projections `relations` and `assets`.
- **The SCALE field encodings** the payloads use (module `Scale`): compact
  lengths, strings, `u8`, `u128`, `Id`. Little-endian layout and the machine
  types are in module `Primitives`.

**Execution.** Each execution is a method on the `WorldStateView`. It is
specified by a pure effect function from the old accounts to the new accounts,
or to a typed `Error`. The predicate `World.Applied` ties the two together:
- on success the method returns `Ok(())` and installs the new accounts;
- on failure it returns the error and leaves the accounts as they were.

The `Instruction` trait asks every instruction to keep the world consistent and
to report failure with `Err` (iroha/src/isi.rs:27-29). The model therefore
checks every lookup before it changes anything. The code instead unwraps each
lookup and panics when it fails; see "Left out".

**Codecs.** Every codec has two laws:
- **round trip:** decoding an encoding followed by any bytes yields the value and
  those bytes;
- **canonicity:** a successful decode consumed exactly the encoding of what it
  returned.

Together these make the decoders the exact inverses of the encoders, on the
inputs they accept.

## Model

| member | source | states |
|---|---|---|
| `Ids.NewId` | iroha/src/isi.rs:16-20 | `Id::new` pairs the two names exactly as given, with no validation |
| `Ids.NewIdInjective` | iroha/src/isi.rs:13-19 | two identifiers are equal if and only if both their entity names and their domain names are equal |
| `World.NewAsset` | iroha/src/asset.rs:9-13 | `Asset::new(id)` carries exactly the identifier it was given |
| `AssetIsi.AddAssetQuantityEffect` | iroha/src/asset.rs:31-38 | AddAssetQuantity fails, with EntityNotFound of the target account, exactly when that account does not exist; on success the set of accounts is unchanged |
| `AssetIsi.ExecuteAddAssetQuantity` | iroha/src/asset.rs:30-40 | executing AddAssetQuantity on the world state view installs the specified accounts and returns `Ok(())`, or returns the error and changes nothing |
| `AssetIsi.AddAssetQuantityInserts` | iroha/src/asset.rs:32-37 | on an existing account, the account maps `asset_id` to an asset whose id is `asset_id`; its key set gains exactly `asset_id`; its other holdings and every other account are unchanged |
| `AssetIsi.AddAssetQuantityIgnoresAmount` | iroha/src/asset.rs:24-37 | the outcome of AddAssetQuantity does not depend on `amount` |
| `AssetIsi.AddAssetQuantityIdempotent` | iroha/src/asset.rs:37 | executing AddAssetQuantity twice gives the same world as executing it once |
| `AssetIsi.AddAssetQuantityKeepsConsistent` | iroha/src/asset.rs:37 | if every holding was keyed by its own identifier before AddAssetQuantity, that still holds after it |
| `AssetIsi.TransferAssetEffect` | iroha/src/asset.rs:168-182 | TransferAsset fails with EntityNotFound(source) when the source is missing. It fails with AssetNotHeld(asset) when the source lacks the asset, and with EntityNotFound(destination) when the destination is missing. It succeeds exactly when none of these hold, and success keeps the set of accounts |
| `AssetIsi.ExecuteTransferAsset` | iroha/src/asset.rs:167-184 | executing TransferAsset installs the specified accounts and returns `Ok(())`, or returns the error and changes nothing |
| `AssetIsi.TransferAssetMoves` | iroha/src/asset.rs:169-181 | between distinct accounts the source no longer holds the asset, and the destination holds the very value removed from the source. The two key sets lose and gain exactly the asset; all other holdings and accounts are unchanged |
| `AssetIsi.TransferAssetToSelf` | iroha/src/asset.rs:169-181 | a transfer from an account to itself leaves the world exactly as it was |
| `AssetIsi.TransferAssetIgnoresAmount` | iroha/src/asset.rs:159-182 | the outcome of TransferAsset depends neither on `amount` nor on `description` |
| `AssetIsi.TransferAssetKeepsOtherHolders` | iroha/src/asset.rs:169-181 | for every other asset, the set of accounts holding it is unchanged |
| `AssetIsi.TransferAssetPreservesHolderCount` | iroha/src/asset.rs:169-181 | when the destination did not hold the asset, the holders become the old holders without the source and with the destination, and their number is unchanged |
| `AssetIsi.TransferAssetOntoHolder` | iroha/src/asset.rs:176-181 | when a distinct destination already held the asset, its holding is overwritten and one account fewer holds the asset |
| `AssetIsi.TransferAssetKeepsConsistent` | iroha/src/asset.rs:169-181 | if every holding was keyed by its own identifier before TransferAsset, that still holds after it |
| `AssetIsi.AddAssetQuantityRoundTrip` | iroha/src/asset.rs:250-258 | decoding the encoding of an AddAssetQuantity, followed by any bytes, yields it and those bytes |
| `AssetIsi.AddAssetQuantityCanonical` | iroha/src/asset.rs:23-28 | a successful AddAssetQuantity decode consumed exactly the encoding of `asset_id`, `account_id`, `amount` in that order |
| `AssetIsi.CreateAssetRoundTrip` | iroha/src/asset.rs:260-269 | decoding the encoding of a CreateAsset, followed by any bytes, yields it and those bytes |
| `AssetIsi.CreateAssetCanonical` | iroha/src/asset.rs:96-101 | a successful CreateAsset decode consumed exactly the encoding of `asset_name`, `domain_id`, `decimals` in that order |
| `AssetIsi.TransferAssetRoundTrip` | iroha/src/asset.rs:271-282 | decoding the encoding of a TransferAsset, followed by any bytes, yields it and those bytes |
| `AssetIsi.TransferAssetCanonical` | iroha/src/asset.rs:158-165 | a successful TransferAsset decode consumed exactly the encoding of its five fields, `description` before `amount` |
| `AssetIsi.EncodeAddAssetQuantity` | iroha/src/asset.rs:23-28 | the derived encoding of an AddAssetQuantity takes at least twenty bytes and ends with the sixteen-byte encoding of its amount |
| `AssetIsi.DecodeAddAssetQuantity` | iroha/src/asset.rs:23-28 | a successful AddAssetQuantity decode consumes at least one byte; a failed one reports DecodeError |
| `AssetIsi.EncodeCreateAsset` | iroha/src/asset.rs:96-101 | the derived encoding of a CreateAsset takes at least three bytes and its last byte is `decimals` |
| `AssetIsi.DecodeCreateAsset` | iroha/src/asset.rs:96-101 | a successful CreateAsset decode consumes at least one byte; a failed one reports DecodeError |
| `AssetIsi.EncodeTransferAsset` | iroha/src/asset.rs:158-165 | the derived encoding of a TransferAsset takes at least twenty-three bytes and ends with the sixteen-byte encoding of its amount |
| `AssetIsi.DecodeTransferAsset` | iroha/src/asset.rs:158-165 | a successful TransferAsset decode consumes at least one byte; a failed one reports DecodeError |
| `AssetIsi.AddAssetQuantityFromBytes` | iroha/src/asset.rs:87-92 | converting bytes to an AddAssetQuantity succeeds exactly when its decoder accepts their front, yields the value that decoder returns, and otherwise fails with DecodeError |
| `AssetIsi.AddAssetQuantityBytesRoundTrip` | iroha/src/asset.rs:53-92 | converting an AddAssetQuantity to bytes and back yields it |
| `AssetIsi.CreateAssetFromBytes` | iroha/src/asset.rs:149-154 | converting bytes to a CreateAsset succeeds exactly when its decoder accepts their front, yields the value that decoder returns, and otherwise fails with DecodeError |
| `AssetIsi.CreateAssetBytesRoundTrip` | iroha/src/asset.rs:114-154 | converting a CreateAsset to bytes and back yields it |
| `AssetIsi.TransferAssetFromBytes` | iroha/src/asset.rs:238-243 | converting bytes to a TransferAsset succeeds exactly when its decoder accepts their front, yields the value that decoder returns, and otherwise fails with DecodeError |
| `AssetIsi.TransferAssetBytesRoundTrip` | iroha/src/asset.rs:199-243 | converting a TransferAsset to bytes and back yields it |
| `Isi.FromAddAssetQuantity` | iroha/src/asset.rs:70-74 | the conversion yields the AddAssetQuantity variant carrying the unchanged payload |
| `Isi.FromCreateAsset` | iroha/src/asset.rs:131-135 | the conversion yields the CreateAsset variant carrying the unchanged payload |
| `Isi.FromTransferAsset` | iroha/src/asset.rs:218-222 | the conversion yields the TransferAsset variant carrying the unchanged payload |
| `Isi.Index` | iroha/src/isi.rs:34-45 | every variant has a declaration index below nine |
| `Isi.InvokeEffect` | iroha/src/isi.rs:48-57 | `invoke` returns the unsupported-instruction error on AddSignatory, AppendRole, CreateRole, CreateAsset and AddPeer |
| `Isi.ExecuteForeign` | iroha/src/isi.rs:52-53 | CreateAccount and CreateDomain run their own execution, which this model takes as a parameter, under the same success-or-unchanged discipline |
| `Isi.Invoke` | iroha/src/isi.rs:48-57 | `invoke` on the world state view has exactly the effect of `InvokeEffect`; whenever it returns an error the world is unchanged |
| `Isi.InvokeForwardsAssetInstructions` | iroha/src/isi.rs:51-54 | invoking AddAssetQuantity or TransferAsset has exactly the effect and result of executing that payload |
| `Isi.InvokeUnimplementedExactly` | iroha/src/isi.rs:50-56 | outside CreateAccount and CreateDomain, `invoke` reports the unsupported-instruction error if and only if the variant is one without execution |
| `Isi.Relations` | iroha/src/isi.rs:86-101 | the relations of a TransferAsset are exactly `[GoingTo(destination), OwnedBy(source)]` in that order; every other variant has none |
| `Isi.Assets` | iroha/src/isi.rs:107-118 | the assets of a TransferAsset are exactly `[asset_id]`; every other variant has none |
| `Isi.TransferAssetTouchesOnlyWhatItDeclares` | iroha/src/isi.rs:72-118 | invoking a TransferAsset keeps the set of accounts; changes no account outside its relations; changes no asset key outside its assets |
| `Isi.EncodeContract` | iroha/src/isi.rs:34-45 | the first byte of an encoded contract is its variant's declaration index |
| `Isi.DecodeContract` | iroha/src/isi.rs:66-70 | decoding fails on empty input and on a first byte that is no variant index (9 or more); every failure reports DecodeError |
| `Isi.DecodeOpaque` | iroha/src/isi.rs:34-45 | a failed decode of an unmodelled payload reports DecodeError |
| `Isi.DecodeAssetVariant` | iroha/src/isi.rs:34-45 | after tag 4, 5 or 6 the contract decode succeeds exactly when the AddAssetQuantity, TransferAsset or CreateAsset payload decoder, respectively, accepts the rest; a failure reports DecodeError |
| `Isi.ContractRoundTrip` | iroha/src/isi.rs:60-70 | decoding the encoding of any contract, followed by any bytes, yields the contract and those bytes |
| `Isi.ContractCanonical` | iroha/src/isi.rs:34-45 | a successful contract decode consumed exactly the encoding of what it returned, and the tag it read is that variant's declaration index |
| `Isi.ContractFromBytes` | iroha/src/isi.rs:66-70 | converting bytes to a contract succeeds exactly when the contract decoder accepts their front, yields the contract that decoder returns, and otherwise fails with DecodeError |
| `Isi.ContractBytesRoundTrip` | iroha/src/isi.rs:60-70 | converting a contract to bytes and back yields it, with or without trailing bytes |
| `Scale.EncodeCompact` | iroha/src/asset.rs:96-101 | a compact length prefix takes one to five bytes |
| `Scale.DecodeCompact` | iroha/src/asset.rs:96-101 | a decoded compact length fits in 32 bits; a failed decode reports DecodeError |
| `Scale.CompactRoundTrip` | iroha/src/asset.rs:96-101 | decoding the compact encoding of any length below 2^32, followed by any bytes, yields the length and those bytes |
| `Scale.CompactCanonical` | iroha/src/asset.rs:96-101 | a successful compact decode consumed exactly the shortest encoding of the length it returned |
| `Scale.EncodeStr` | iroha/src/asset.rs:96-101 | an encoded string is a one-to-five-byte prefix followed by exactly the string's bytes |
| `Scale.DecodeStr` | iroha/src/asset.rs:96-101 | a successful string decode consumes at least one byte; a failed one reports DecodeError |
| `Scale.StrRoundTrip` | iroha/src/asset.rs:96-101 | decoding an encoded string, followed by any bytes, yields the string and those bytes |
| `Scale.StrCanonical` | iroha/src/asset.rs:96-101 | a successful string decode consumed exactly a length prefix and that many bytes |
| `Scale.EncodeU8` | iroha/src/asset.rs:100 | a `u8` is encoded as exactly the one byte itself |
| `Scale.DecodeU8` | iroha/src/asset.rs:100 | a `u8` decode succeeds exactly when there is at least one byte and then consumes exactly one; a failure reports DecodeError |
| `Scale.U8RoundTrip` | iroha/src/asset.rs:100 | decoding an encoded `u8`, followed by any bytes, yields it and those bytes |
| `Scale.U8Canonical` | iroha/src/asset.rs:100 | a successful `u8` decode consumed exactly its one byte |
| `Scale.EncodeU128` | iroha/src/asset.rs:27 | a `u128` is encoded in exactly sixteen bytes |
| `Scale.DecodeU128` | iroha/src/asset.rs:27 | a `u128` decode succeeds exactly when there are at least sixteen bytes and then consumes exactly sixteen; a failure reports DecodeError |
| `Scale.U128RoundTrip` | iroha/src/asset.rs:27 | decoding an encoded `u128`, followed by any bytes, yields it and those bytes |
| `Scale.U128Canonical` | iroha/src/asset.rs:27 | a successful `u128` decode consumed exactly the little-endian encoding of the value |
| `Scale.EncodeId` | iroha/src/isi.rs:13-14 | an encoded `Id` takes at least two bytes more than its two names together |
| `Scale.DecodeId` | iroha/src/isi.rs:13-14 | a successful `Id` decode consumes at least one byte; a failed one reports DecodeError |
| `Scale.IdRoundTrip` | iroha/src/isi.rs:13-14 | decoding an encoded `Id`, followed by any bytes, yields it and those bytes |
| `Scale.IdCanonical` | iroha/src/isi.rs:13-14 | a successful `Id` decode consumed exactly the encodings of its two names in order |

## Left out

- **String contents.** Strings are raw byte sequences. UTF-8 validation, which
  the `String` decoder performs, is not modelled.
- **String length limit.** String lengths stay below 2^32, the range of the
  compact `u32` length prefix. The model does not bound them further.
- **The rest of the world state.** The world state is only a map from account
  identifier to the account's asset map. Other account fields, domains, peers
  and the internals of `WorldStateView` are not part of this model; account.rs,
  domain.rs, peer.rs and wsv.rs are not part of it either.
- **Execution of CreateAccount and CreateDomain.** account.rs and domain.rs are
  not part of this model. `invoke` forwards these two variants to a function
  parameter (`Isi.Foreign`). `Isi.ExecuteForeign` applies that function
  all-or-nothing: the world takes the function's result on success and stays as
  it was on error. So for these two variants, `Isi.Invoke`'s promise that an
  error leaves the world unchanged is an assumption of the model, not a fact
  proved about the code in account.rs or domain.rs.
- **Payloads of other variants.** The payloads of AddSignatory, AppendRole,
  CreateAccount, CreateRole, CreateDomain and AddPeer are not part of this model.
  Each is an opaque byte string, encoded as SCALE encodes a byte vector.
- **Panics.** The code panics in two places:
  - it unwraps account and asset lookups (iroha/src/asset.rs:35, 172, 175, 179);
  - it calls `expect` on decoding (iroha/src/asset.rs:90, 152, 241; iroha/src/isi.rs:68).
  The model returns a typed `Error` instead: EntityNotFound, AssetNotHeld or
  DecodeError.
- **Error messages.** The unsupported-instruction message string is the
  `Unimplemented` error.
- **TransferAsset order of checks.** The code removes the asset from the source
  before it looks up the destination. If the destination were missing, that
  would panic after the removal. The model checks the source, the holding and
  the destination before changing anything, as the `Instruction` contract
  (iroha/src/isi.rs:27-29) requires. When every lookup succeeds the two orders
  give the same world, because the insertion reads the destination after the
  removal.
- **Trailing bytes.** The byte conversions decode from the front of the bytes
  and ignore any bytes after the decoded value, as `decode(&mut slice)` does.
- **Purity of `relations` and `assets`.** They take only the contract.
  `Isi.Relations` and `Isi.Assets` are functions with no world parameter and no
  `reads` clause, so no separate lemma states that they never touch the world.
- **Relations of AddAssetQuantity.** The code marks `relations` and `assets` as
  unfinished. The model follows it, so AddAssetQuantity has no relations and no
  assets.
- **The `Instruction` trait as such.** There is no trait in the model. Each
  executable payload has its own `Execute…` method with the same result type.
- **Derived `Debug` and `Clone`.** They have no behaviour to model.
