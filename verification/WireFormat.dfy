/** Field elements and update public inputs on the wire. */
module WireFormat {
  import opened PrimeField
  import opened Bytes
  import opened Results

  const VERSION: byte := 2
  const SERIALIZED_LEN: nat := 73

  // -------------------------------------------------------------- field elements

  /** Big-endian, 32 bytes. */
  function FieldBytes(f: nat): (be: seq<byte>)
    ensures |be| == 32
  {
    Reverse(IntToLe(f, 32))
  }

  function FieldOf(r: Modulus, be: seq<byte>): (f: int)
    ensures InField(r, f)
  {
    Reduce(r, LeToInt(Reverse(be)))
  }

  /** Copies the library's little-endian bytes in reverse order. */
  method FieldToBytesBe(f: nat) returns (be: array<byte>)
    ensures fresh(be) && be.Length == 32 && be[..] == FieldBytes(f)
  {
    var le := IntToLe(f, 32);
    be := new byte[32](_ => 0);
    for i := 0 to 32
      invariant forall k :: 0 <= k < 32 ==> be[31 - k] == if k < i then le[k] else 0
    {
      be[31 - i] := le[i];
    }
    forall k | 0 <= k < 32 ensures be[k] == FieldBytes(f)[k] {
      assert be[31 - (31 - k)] == le[31 - k];
    }
    assert be[..] == FieldBytes(f);
  }

  method BytesBeToField(r: Modulus, bytes: seq<byte>) returns (f: int)
    requires |bytes| == 32
    ensures f == FieldOf(r, bytes)
  {
    var le := new byte[32](_ => 0);
    for i := 0 to 32
      invariant forall k :: 0 <= k < i ==> le[k] == bytes[31 - k]
    {
      le[i] := bytes[31 - i];
    }
    assert le[..] == Reverse(bytes);
    f := Reduce(r, LeToInt(le[..]));
  }

  datatype FieldError = NonCanonical

  datatype WireError =
    | LengthMismatch(got: nat)
    | VersionMismatch(version: byte)
    | OldCommitment(error: FieldError)
    | NewCommitment(error: FieldError)

  method BytesBeToFieldChecked(r: Modulus, bytes: seq<byte>) returns (res: Result<int, FieldError>)
    requires |bytes| == 32
    ensures res == CheckedField(r, bytes)
  {
    var f := BytesBeToField(r, bytes);
    var back := FieldToBytesBe(f);
    if bytes != back[..] {
      return Err(NonCanonical);
    }
    res := Ok(f);
  }

  function CheckedField(r: Modulus, bytes: seq<byte>): Result<int, FieldError> {
    var f := FieldOf(r, bytes);
    if bytes == FieldBytes(f) then Ok(f) else Err(NonCanonical)
  }

  lemma FieldRoundTrip(r: Modulus, f: int)
    requires r <= Pow256(32) && InField(r, f)
    ensures FieldOf(r, FieldBytes(f)) == f
  {
    ReverseTwice(IntToLe(f, 32));
    LeOfInt(f, 32);
    ModUnique(f, Pow256(32), 0, f);
    ReduceId(r, f);
  }

  /** One accepted string per element: the checked decoder takes exactly the strings whose
      value is below the modulus, and each is the encoding of what it decodes to. */
  lemma CheckedIsCanonical(r: Modulus, bytes: seq<byte>, f: int)
    requires r <= Pow256(32) && |bytes| == 32
    ensures CheckedField(r, bytes) == Ok(f) <==> InField(r, f) && bytes == FieldBytes(f)
    ensures CheckedField(r, bytes).Ok? <==> LeToInt(Reverse(bytes)) < r
  {
    if InField(r, f) {
      FieldRoundTrip(r, f);
    }
    var value := LeToInt(Reverse(bytes));
    if value < r {
      ReduceId(r, value);
      LeRoundTrip(Reverse(bytes));
      ReverseTwice(bytes);
    }
    if CheckedField(r, bytes).Ok? {
      var g := FieldOf(r, bytes);
      ReverseTwice(IntToLe(g, 32));
      LeOfInt(g, 32);
      ModUnique(g, Pow256(32), 0, g);
    }
  }

  // -------------------------------------------------------- update public inputs

  datatype UpdatePublicInputs = UpdatePublicInputs(cOld: int, epochOld: int, cNew: int)

  ghost predicate Elements(r: Modulus, x: UpdatePublicInputs) {
    InField(r, x.cOld) && InField(r, x.epochOld) && InField(r, x.cNew)
  }

  /** The low eight bytes of an element, as a u64. */
  function LowU64(f: nat): (u: nat)
    ensures u < Pow256(8)
  {
    LeBound(IntToLe(f, 32)[..8]);
    LeToInt(IntToLe(f, 32)[..8])
  }

  function Serialized(x: UpdatePublicInputs): (out: seq<byte>)
    requires x.cOld >= 0 && x.epochOld >= 0 && x.cNew >= 0
    ensures |out| == SERIALIZED_LEN
  {
    [VERSION] + FieldBytes(x.cOld) + Reverse(IntToLe(LowU64(x.epochOld), 8)) + FieldBytes(x.cNew)
  }

  method CopyInto(out: array<byte>, start: nat, src: seq<byte>)
    requires start + |src| <= out.Length
    modifies out
    ensures out[..] == old(out[..start]) + src + old(out[start + |src|..])
  {
    for i := 0 to |src|
      invariant out[..] == old(out[..start]) + src[..i] + old(out[start + i..])
    {
      out[start + i] := src[i];
    }
  }

  method Serialize(x: UpdatePublicInputs) returns (out: array<byte>)
    requires x.cOld >= 0 && x.epochOld >= 0 && x.cNew >= 0
    ensures fresh(out) && out[..] == Serialized(x)
  {
    out := new byte[SERIALIZED_LEN](_ => 0);
    out[0] := VERSION;
    assert out[..1] == [VERSION];
    var oldBytes := FieldToBytesBe(x.cOld);
    CopyInto(out, 1, oldBytes[..]);
    assert out[..33] == [VERSION] + FieldBytes(x.cOld);
    CopyInto(out, 33, Reverse(IntToLe(LowU64(x.epochOld), 8)));
    assert out[..41] == [VERSION] + FieldBytes(x.cOld) + Reverse(IntToLe(LowU64(x.epochOld), 8));
    var newBytes := FieldToBytesBe(x.cNew);
    CopyInto(out, 41, newBytes[..]);
    assert out[73..] == [];
    assert out[..] == out[..73];
  }

  function Deserialized(r: Modulus, bytes: seq<byte>): Result<UpdatePublicInputs, WireError> {
    if |bytes| != SERIALIZED_LEN then Err(LengthMismatch(|bytes|))
    else if bytes[0] != VERSION then Err(VersionMismatch(bytes[0]))
    else
      var cOld, cNew := CheckedField(r, bytes[1..33]), CheckedField(r, bytes[41..73]);
      if cOld.Err? then Err(OldCommitment(cOld.error))
      else if cNew.Err? then Err(NewCommitment(cNew.error))
      else Ok(UpdatePublicInputs(cOld.value, Reduce(r, LeToInt(Reverse(bytes[33..41]))), cNew.value))
  }

  method Deserialize(r: Modulus, bytes: seq<byte>) returns (res: Result<UpdatePublicInputs, WireError>)
    ensures res == Deserialized(r, bytes)
  {
    if |bytes| != SERIALIZED_LEN {
      return Err(LengthMismatch(|bytes|));
    }
    if bytes[0] != VERSION {
      return Err(VersionMismatch(bytes[0]));
    }
    var cOld := BytesBeToFieldChecked(r, bytes[1..33]);
    if cOld.Err? {
      return Err(OldCommitment(cOld.error));
    }
    var epochOld := Reduce(r, LeToInt(Reverse(bytes[33..41])));
    var cNew := BytesBeToFieldChecked(r, bytes[41..73]);
    if cNew.Err? {
      return Err(NewCommitment(cNew.error));
    }
    res := Ok(UpdatePublicInputs(cOld.value, epochOld, cNew.value));
  }

  lemma LowU64Is(f: nat)
    ensures LowU64(f) == f % Pow256(8)
  {
    LeTake(f, 32, 8);
    LeOfInt(f, 8);
  }

  lemma SerializedParts(x: UpdatePublicInputs)
    requires x.cOld >= 0 && x.epochOld >= 0 && x.cNew >= 0
    ensures var out := Serialized(x);
      out[0] == VERSION && out[1..33] == FieldBytes(x.cOld)
      && out[33..41] == Reverse(IntToLe(LowU64(x.epochOld), 8)) && out[41..73] == FieldBytes(x.cNew)
  {
  }

  /** Writing then reading returns the triple exactly when its epoch is a u64: a larger
      field element is cut to its low eight bytes without an error. */
  lemma WriteThenRead(r: Modulus, x: UpdatePublicInputs)
    requires Pow256(8) <= r <= Pow256(32) && Elements(r, x)
    ensures Deserialized(r, Serialized(x)) == Ok(x.(epochOld := x.epochOld % Pow256(8)))
    ensures Deserialized(r, Serialized(x)) == Ok(x) <==> x.epochOld < Pow256(8)
  {
    SerializedParts(x);
    CheckedIsCanonical(r, FieldBytes(x.cOld), x.cOld);
    CheckedIsCanonical(r, FieldBytes(x.cNew), x.cNew);
    var u := LowU64(x.epochOld);
    LowU64Is(x.epochOld);
    ReverseTwice(IntToLe(u, 8));
    LeOfInt(u, 8);
    ModUnique(u, Pow256(8), 0, u);
    ReduceId(r, u);
    if x.epochOld < Pow256(8) {
      ModUnique(x.epochOld, Pow256(8), 0, x.epochOld);
    }
  }

  lemma EpochRoundTrip(r: Modulus, be: seq<byte>)
    requires Pow256(8) <= r && |be| == 8
    ensures var epoch := Reduce(r, LeToInt(Reverse(be)));
      epoch < Pow256(8) && Reverse(IntToLe(LowU64(epoch), 8)) == be
  {
    var epoch := LeToInt(Reverse(be));
    LeBound(Reverse(be));
    ReduceId(r, epoch);
    LowU64Is(epoch);
    ModUnique(epoch, Pow256(8), 0, epoch);
    LeRoundTrip(Reverse(be));
    ReverseTwice(be);
  }

  lemma AcceptedParts(r: Modulus, bytes: seq<byte>)
    requires Pow256(8) <= r <= Pow256(32)
    requires Deserialized(r, bytes).Ok?
    ensures var x := Deserialized(r, bytes).value;
      Elements(r, x) && x.epochOld < Pow256(8) && bytes[0] == VERSION
      && FieldBytes(x.cOld) == bytes[1..33] && FieldBytes(x.cNew) == bytes[41..73]
      && Reverse(IntToLe(LowU64(x.epochOld), 8)) == bytes[33..41]
  {
    var x := Deserialized(r, bytes).value;
    CheckedIsCanonical(r, bytes[1..33], x.cOld);
    CheckedIsCanonical(r, bytes[41..73], x.cNew);
    EpochRoundTrip(r, bytes[33..41]);
  }

  lemma FourParts(bytes: seq<byte>)
    requires |bytes| == SERIALIZED_LEN
    ensures bytes == [bytes[0]] + bytes[1..33] + bytes[33..41] + bytes[41..73]
  {
  }

  /** Whatever is accepted is the encoding of what it decodes to, with a u64 epoch. */
  lemma ReadThenWrite(r: Modulus, bytes: seq<byte>)
    requires Pow256(8) <= r <= Pow256(32)
    requires Deserialized(r, bytes).Ok?
    ensures var x := Deserialized(r, bytes).value;
      Elements(r, x) && x.epochOld < Pow256(8) && Serialized(x) == bytes
  {
    AcceptedParts(r, bytes);
    FourParts(bytes);
  }

  // ------------------------------------------------------------- the layout in bytes

  /** The value of a big-endian stretch of bytes. */
  function BeValue(bytes: seq<byte>, from: nat, to: nat): nat
    requires from <= to <= |bytes|
  {
    if from == to then 0 else 256 * BeValue(bytes, from, to - 1) + bytes[to - 1]
  }

  lemma {:induction false} BeIsReversed(bytes: seq<byte>, from: nat, to: nat)
    requires from <= to <= |bytes|
    ensures BeValue(bytes, from, to) == LeToInt(Reverse(bytes[from..to]))
  {
    if from < to {
      BeIsReversed(bytes, from, to - 1);
      var rev := Reverse(bytes[from..to]);
      assert rev[1..] == Reverse(bytes[from..to - 1]);
    }
  }

  lemma TwoPow64()
    ensures Pow256(8) == 0x1_0000_0000_0000_0000
  {
    assert Pow256(4) == 0x1_0000_0000;
  }

  /** The 73 bytes: version 2, and at their places, most significant byte first, the old
      commitment, the epoch modulo 2^64 and the new commitment. */
  lemma SerializedLayout(r: Modulus, x: UpdatePublicInputs)
    requires r <= Pow256(32) && Elements(r, x)
    ensures var out := Serialized(x);
      |out| == 73 && out[0] == 2
      && BeValue(out, 1, 33) == x.cOld
      && BeValue(out, 33, 41) == x.epochOld % 0x1_0000_0000_0000_0000
      && BeValue(out, 41, 73) == x.cNew
  {
    var out := Serialized(x);
    SerializedParts(x);
    BeIsReversed(out, 1, 33);
    BeIsReversed(out, 33, 41);
    BeIsReversed(out, 41, 73);
    FieldValue(x.cOld);
    FieldValue(x.cNew);
    var u := LowU64(x.epochOld);
    LowU64Is(x.epochOld);
    TwoPow64();
    ReverseTwice(IntToLe(u, 8));
    LeOfInt(u, 8);
    ModUnique(u, Pow256(8), 0, u);
  }

  lemma FieldValue(f: nat)
    ensures f < Pow256(32) ==> LeToInt(Reverse(FieldBytes(f))) == f
  {
    ReverseTwice(IntToLe(f, 32));
    LeOfInt(f, 32);
    if f < Pow256(32) {
      ModUnique(f, Pow256(32), 0, f);
    }
  }

  /** The verdict on any bytes in terms of that layout: the length, then the version, then
      the old and the new commitment, each below the modulus. */
  lemma DeserializedMeans(r: Modulus, bytes: seq<byte>)
    requires r <= Pow256(32)
    ensures match Deserialized(r, bytes)
            case Err(LengthMismatch(got)) => got == |bytes| != 73
            case Err(VersionMismatch(version)) => |bytes| == 73 && bytes[0] == version != 2
            case Err(OldCommitment(_)) => |bytes| == 73 && bytes[0] == 2 && BeValue(bytes, 1, 33) >= r
            case Err(NewCommitment(_)) =>
              |bytes| == 73 && bytes[0] == 2 && BeValue(bytes, 1, 33) < r <= BeValue(bytes, 41, 73)
            case Ok(x) =>
              |bytes| == 73 && bytes[0] == 2
              && x.cOld == BeValue(bytes, 1, 33) < r && x.cNew == BeValue(bytes, 41, 73) < r
              && x.epochOld == BeValue(bytes, 33, 41) % r
  {
    if |bytes| == 73 {
      CheckedValue(r, bytes, 1, 33);
      CheckedValue(r, bytes, 41, 73);
      BeIsReversed(bytes, 33, 41);
    }
  }

  lemma CheckedValue(r: Modulus, bytes: seq<byte>, from: nat, to: nat)
    requires r <= Pow256(32) && to == from + 32 <= |bytes|
    ensures CheckedField(r, bytes[from..to])
         == if BeValue(bytes, from, to) < r then Ok(BeValue(bytes, from, to)) else Err(NonCanonical)
  {
    BeIsReversed(bytes, from, to);
    var part := bytes[from..to];
    CheckedIsCanonical(r, part, FieldOf(r, part));
    if LeToInt(Reverse(part)) < r {
      ReduceId(r, LeToInt(Reverse(part)));
    }
  }
}
