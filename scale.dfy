/**
 * The SCALE encodings of the field types the instructions use: compact
 * lengths, strings, `u8`, `u128` and `Id`.  A decoder reads a prefix of its
 * input and returns the value together with the bytes it left unread, as
 * `Decode::decode(&mut &[u8])` does.  Every kind of value gets two laws:
 * decoding an encoding followed by anything yields the value and that
 * remainder, and a successful decode consumed exactly an encoding.
 */
module Scale {
  import opened Primitives
  import opened Ids
  import opened Errors

  datatype Decoded<+T> = Decoded(value: T, rest: seq<byte>)

  const SingleByteLimit: nat := 0x40       // 2^6
  const TwoByteLimit: nat := 0x4000        // 2^14
  const FourByteLimit: nat := 0x4000_0000  // 2^30

  // ---------------------------------------------------------------- Compact<u32>

  /**
   * The compact encoding of a `u32`: the two low bits of the first byte select
   * one, two or four bytes holding `n << 2`, or (`0b11`) four more bytes
   * holding `n` itself.
   */
  function EncodeCompact(n: nat): (s: seq<byte>)
    requires n < MaxLength
    ensures 1 <= |s| <= 5
  {
    Pow256Values();
    if n < SingleByteLimit then [(n * 4) as byte]
    else if n < TwoByteLimit then ToLE(n * 4 + 1, 2)
    else if n < FourByteLimit then ToLE(n * 4 + 2, 4)
    else [3] + ToLE(n, 4)
  }

  /** Decoding rejects truncated input and every encoding that is not the shortest one. */
  function DecodeCompact(s: seq<byte>): (r: Result<Decoded<nat>>)
    ensures r.Ok? ==> r.value.value < MaxLength
    ensures r.Err? ==> r.error == DecodeError
  {
    Pow256Values();
    if |s| == 0 then Err(DecodeError)
    else
      var mode := s[0] as nat % 4;
      if mode == 0 then Ok(Decoded(s[0] as nat / 4, s[1..]))
      else if mode == 1 then
        if |s| < 2 then Err(DecodeError)
        else
          var n := FromLE(s[..2]) / 4;
          if SingleByteLimit <= n then Ok(Decoded(n, s[2..])) else Err(DecodeError)
      else if mode == 2 then
        if |s| < 4 then Err(DecodeError)
        else
          var n := FromLE(s[..4]) / 4;
          if TwoByteLimit <= n then Ok(Decoded(n, s[4..])) else Err(DecodeError)
      else
        if s[0] != 3 || |s| < 5 then Err(DecodeError)
        else
          var n := FromLE(s[1..5]);
          if FourByteLimit <= n then Ok(Decoded(n, s[5..])) else Err(DecodeError)
  }

  lemma CompactRoundTrip(n: nat, rest: seq<byte>)
    requires n < MaxLength
    ensures DecodeCompact(EncodeCompact(n) + rest) == Ok(Decoded(n, rest))
  {
    if n < SingleByteLimit {
      CompactRoundTripSingle(n, rest);
    } else if n < TwoByteLimit {
      CompactRoundTripWide(n, 2, rest);
    } else if n < FourByteLimit {
      CompactRoundTripWide(n, 4, rest);
    } else {
      CompactRoundTripBig(n, rest);
    }
  }

  lemma CompactRoundTripSingle(n: nat, rest: seq<byte>)
    requires n < SingleByteLimit
    ensures DecodeCompact(EncodeCompact(n) + rest) == Ok(Decoded(n, rest))
  {
    var s := EncodeCompact(n) + rest;
    assert s[0] as nat == n * 4;
    assert s[1..] == rest;
  }

  /** The two- and four-byte modes: `width` bytes holding `n << 2` tagged `0b01` or `0b10`. */
  lemma CompactRoundTripWide(n: nat, width: nat, rest: seq<byte>)
    requires width == 2 ==> SingleByteLimit <= n < TwoByteLimit
    requires width == 4 ==> TwoByteLimit <= n < FourByteLimit
    requires width == 2 || width == 4
    ensures DecodeCompact(EncodeCompact(n) + rest) == Ok(Decoded(n, rest))
  {
    Pow256Values();
    var m := if width == 2 then 1 else 2;
    var x := n * 4 + m;
    var e := ToLE(x, width);
    assert EncodeCompact(n) == e;
    var s := e + rest;
    assert s[..width] == e && s[width..] == rest;
    assert FromLE(e) == x by { FromToLE(x, width); }
    assert s[0] as nat % 4 == m by { FromLELowBits(e); }
    assert FromLE(s[..width]) / 4 == n;
  }

  lemma CompactRoundTripBig(n: nat, rest: seq<byte>)
    requires FourByteLimit <= n < MaxLength
    ensures DecodeCompact(EncodeCompact(n) + rest) == Ok(Decoded(n, rest))
  {
    Pow256Values();
    var e := ToLE(n, 4);
    assert EncodeCompact(n) == [3] + e;
    var s := [3] + e + rest;
    assert s[0] == 3;
    assert s[1..5] == e && s[5..] == rest;
    assert FromLE(e) == n by { FromToLE(n, 4); }
  }

  lemma CompactCanonical(s: seq<byte>)
    requires DecodeCompact(s).Ok?
    ensures s == EncodeCompact(DecodeCompact(s).value.value) + DecodeCompact(s).value.rest
  {
    var mode := s[0] as nat % 4;
    if mode == 0 {
      CompactCanonicalSingle(s);
    } else if mode == 1 {
      CompactCanonicalWide(s, 2);
    } else if mode == 2 {
      CompactCanonicalWide(s, 4);
    } else {
      CompactCanonicalBig(s);
    }
  }

  lemma CompactCanonicalSingle(s: seq<byte>)
    requires DecodeCompact(s).Ok? && s[0] as nat % 4 == 0
    ensures s == EncodeCompact(DecodeCompact(s).value.value) + DecodeCompact(s).value.rest
  {
    var d := DecodeCompact(s).value;
    assert d == Decoded(s[0] as nat / 4, s[1..]);
    assert EncodeCompact(d.value) == [s[0]];
    assert s == [s[0]] + s[1..];
  }

  lemma CompactCanonicalWide(s: seq<byte>, width: nat)
    requires DecodeCompact(s).Ok?
    requires width == 2 || width == 4
    requires s[0] as nat % 4 == (if width == 2 then 1 else 2)
    ensures s == EncodeCompact(DecodeCompact(s).value.value) + DecodeCompact(s).value.rest
  {
    Pow256Values();
    var m := if width == 2 then 1 else 2;
    var d := DecodeCompact(s).value;
    var e := s[..width];
    assert d == Decoded(FromLE(e) / 4, s[width..]);
    assert FromLE(e) % 4 == m by { FromLELowBits(e); }
    assert FromLE(e) == d.value * 4 + m;
    assert ToLE(FromLE(e), width) == e by { ToFromLE(e); }
    assert EncodeCompact(d.value) == e;
    assert s == e + s[width..];
  }

  lemma CompactCanonicalBig(s: seq<byte>)
    requires DecodeCompact(s).Ok? && s[0] as nat % 4 == 3
    ensures s == EncodeCompact(DecodeCompact(s).value.value) + DecodeCompact(s).value.rest
  {
    Pow256Values();
    var d := DecodeCompact(s).value;
    var e := s[1..5];
    assert s[0] == 3;
    assert d == Decoded(FromLE(e), s[5..]);
    assert ToLE(FromLE(e), 4) == e by { ToFromLE(e); }
    assert EncodeCompact(d.value) == [3] + e;
    assert s == [s[0]] + e + s[5..];
  }

  // ---------------------------------------------------------------- String

  /** A string is its compact length followed by its bytes. */
  function EncodeStr(x: Str): (s: seq<byte>)
    ensures |x| < |s| <= |x| + 5
    ensures s[|s| - |x|..] == x
  {
    EncodeCompact(|x|) + x
  }

  function DecodeStr(s: seq<byte>): (r: Result<Decoded<Str>>)
    ensures r.Ok? ==> |r.value.rest| < |s|
    ensures r.Err? ==> r.error == DecodeError
  {
    var len :- DecodeCompact(s);
    if |len.rest| < len.value then Err(DecodeError)
    else Ok(Decoded(len.rest[..len.value], len.rest[len.value..]))
  }

  lemma StrRoundTrip(x: Str, rest: seq<byte>)
    ensures DecodeStr(EncodeStr(x) + rest) == Ok(Decoded(x, rest))
  {
    var s := EncodeStr(x) + rest;
    assert s == EncodeCompact(|x|) + (x + rest);
    CompactRoundTrip(|x|, x + rest);
    assert (x + rest)[..|x|] == x && (x + rest)[|x|..] == rest;
  }

  lemma StrCanonical(s: seq<byte>)
    requires DecodeStr(s).Ok?
    ensures s == EncodeStr(DecodeStr(s).value.value) + DecodeStr(s).value.rest
  {
    var len := DecodeCompact(s).value;
    assert DecodeStr(s).value == Decoded(len.rest[..len.value], len.rest[len.value..]);
    CompactCanonical(s);
    StrSplit(s, len.value, len.rest);
  }

  /** Bytes made of the compact length `n` and then at least `n` more bytes start with a string. */
  lemma StrSplit(s: seq<byte>, n: nat, t: seq<byte>)
    requires n < MaxLength && n <= |t| && s == EncodeCompact(n) + t
    ensures s == EncodeStr(t[..n]) + t[n..]
  {
    var c := EncodeCompact(n);
    assert t == t[..n] + t[n..];
    assert c + (t[..n] + t[n..]) == c + t[..n] + t[n..];
  }

  // ---------------------------------------------------------------- u8, u128

  function EncodeU8(x: byte): (s: seq<byte>)
    ensures |s| == 1 && s[0] == x
  {
    [x]
  }

  function DecodeU8(s: seq<byte>): (r: Result<Decoded<byte>>)
    ensures r.Ok? <==> |s| >= 1
    ensures r.Ok? ==> |r.value.rest| == |s| - 1
    ensures r.Err? ==> r.error == DecodeError
  {
    if |s| < 1 then Err(DecodeError) else Ok(Decoded(s[0], s[1..]))
  }

  lemma U8RoundTrip(x: byte, rest: seq<byte>)
    ensures DecodeU8(EncodeU8(x) + rest) == Ok(Decoded(x, rest))
  {
    assert (EncodeU8(x) + rest)[1..] == rest;
  }

  lemma U8Canonical(s: seq<byte>)
    requires DecodeU8(s).Ok?
    ensures s == EncodeU8(DecodeU8(s).value.value) + DecodeU8(s).value.rest
  {
    assert s == [s[0]] + s[1..];
  }

  /** A `u128` is its sixteen bytes, least significant first. */
  function EncodeU128(x: u128): (s: seq<byte>)
    ensures |s| == 16
  {
    Pow256Values();
    ToLE(x as nat, 16)
  }

  function DecodeU128(s: seq<byte>): (r: Result<Decoded<u128>>)
    ensures r.Ok? <==> |s| >= 16
    ensures r.Ok? ==> |r.value.rest| == |s| - 16
    ensures r.Err? ==> r.error == DecodeError
  {
    if |s| < 16 then Err(DecodeError)
    else
      Pow256Values();
      Ok(Decoded(FromLE(s[..16]) as u128, s[16..]))
  }

  lemma U128RoundTrip(x: u128, rest: seq<byte>)
    ensures DecodeU128(EncodeU128(x) + rest) == Ok(Decoded(x, rest))
  {
    Pow256Values();
    var s := EncodeU128(x) + rest;
    assert s[..16] == EncodeU128(x) && s[16..] == rest;
    FromToLE(x as nat, 16);
  }

  lemma U128Canonical(s: seq<byte>)
    requires DecodeU128(s).Ok?
    ensures s == EncodeU128(DecodeU128(s).value.value) + DecodeU128(s).value.rest
  {
    Pow256Values();
    ToFromLE(s[..16]);
    assert s == s[..16] + s[16..];
  }

  // ---------------------------------------------------------------- Id

  /** The derived encoding of `Id`: its two names in order. */
  function EncodeId(id: Id): (s: seq<byte>)
    ensures |s| >= |id.entityName| + |id.domainName| + 2
  {
    EncodeStr(id.entityName) + EncodeStr(id.domainName)
  }

  function DecodeId(s: seq<byte>): (r: Result<Decoded<Id>>)
    ensures r.Ok? ==> |r.value.rest| < |s|
    ensures r.Err? ==> r.error == DecodeError
  {
    var entity :- DecodeStr(s);
    var domain :- DecodeStr(entity.rest);
    Ok(Decoded(Id(entity.value, domain.value), domain.rest))
  }

  lemma IdRoundTrip(id: Id, rest: seq<byte>)
    ensures DecodeId(EncodeId(id) + rest) == Ok(Decoded(id, rest))
  {
    var tail := EncodeStr(id.domainName) + rest;
    assert EncodeId(id) + rest == EncodeStr(id.entityName) + tail;
    StrRoundTrip(id.entityName, tail);
    StrRoundTrip(id.domainName, rest);
  }

  lemma IdCanonical(s: seq<byte>)
    requires DecodeId(s).Ok?
    ensures s == EncodeId(DecodeId(s).value.value) + DecodeId(s).value.rest
  {
    var entity := DecodeStr(s).value;
    var domain := DecodeStr(entity.rest).value;
    assert DecodeId(s).value == Decoded(Id(entity.value, domain.value), domain.rest);
    StrCanonical(s);
    StrCanonical(entity.rest);
    IdJoin(s, entity.value, domain.value, entity.rest, domain.rest);
  }

  /** Two encoded names in a row make an encoded identifier. */
  lemma IdJoin(s: seq<byte>, entityName: Str, domainName: Str, t: seq<byte>, rest: seq<byte>)
    requires s == EncodeStr(entityName) + t && t == EncodeStr(domainName) + rest
    ensures s == EncodeId(Id(entityName, domainName)) + rest
  {
    var a, b := EncodeStr(entityName), EncodeStr(domainName);
    assert a + (b + rest) == a + b + rest;
  }
}
