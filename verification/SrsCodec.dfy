/** Serialization of the SRS, and the hash that names it. */
module SrsCodec {
  import opened PrimeField
  import opened Bytes
  import opened Results
  import opened Ceremony

  /** SHA-256 and the compressed point encodings, kept abstract. */
  datatype Library = Library(
    r: Modulus,
    sha: seq<byte> -> seq<byte>,
    encG1: int -> seq<byte>, decG1: seq<byte> -> Option<int>,
    encG2: int -> seq<byte>, decG2: seq<byte> -> Option<int>)

  const G1_LEN: nat := 48
  const G2_LEN: nat := 96

  /** What is assumed of the point library: fixed lengths, and decoding undoes encoding.
      Several byte strings may decode to one point. */
  ghost predicate Sound(L: Library) {
    (forall x :: InField(L.r, x) ==> |L.encG1(x)| == G1_LEN && L.decG1(L.encG1(x)) == Some(x))
    && (forall x :: InField(L.r, x) ==> |L.encG2(x)| == G2_LEN && L.decG2(L.encG2(x)) == Some(x))
    && (forall b :: L.decG1(b).Some? ==> InField(L.r, L.decG1(b).value))
    && (forall b :: L.decG2(b).Some? ==> InField(L.r, L.decG2(b).value))
  }

  // --------------------------------------------------------------------- encoding

  /** A length fits the 64-bit prefix, as every vector length does. */
  predicate Prefixable(xs: seq<int>) {
    |xs| < Pow256(8)
  }

  predicate Encodable(srs: PowersOfTau) {
    Prefixable(srs.tauG1) && Prefixable(srs.tauG2) && Prefixable(srs.alphaTauG1) && Prefixable(srs.betaTauG1)
  }

  function Points(enc: int -> seq<byte>, xs: seq<int>): seq<byte> {
    if xs == [] then [] else Points(enc, xs[..|xs| - 1]) + enc(xs[|xs| - 1])
  }

  function Counted(enc: int -> seq<byte>, xs: seq<int>): seq<byte> {
    IntToLe(|xs|, 8) + Points(enc, xs)
  }

  function Encode(L: Library, srs: PowersOfTau): seq<byte> {
    Counted(L.encG1, srs.tauG1) + Counted(L.encG2, srs.tauG2)
    + Counted(L.encG1, srs.alphaTauG1) + Counted(L.encG1, srs.betaTauG1) + L.encG2(srs.betaG2)
  }

  /** The digest that names an SRS. */
  function HashOf(L: Library, srs: PowersOfTau): seq<byte> {
    L.sha(Encode(L, srs))
  }

  /** Two inputs of SHA-256 that collide. */
  predicate ShaCollision(L: Library, a: seq<byte>, b: seq<byte>) {
    a != b && L.sha(a) == L.sha(b)
  }

  class Hasher {
    const L: Library
    var fed: seq<byte>

    constructor (L: Library)
      ensures this.L == L && fed == []
    {
      this.L := L;
      fed := [];
    }

    method Update(bytes: seq<byte>)
      modifies this
      ensures fed == old(fed) + bytes
    {
      fed := fed + bytes;
    }

    method Finalize() returns (digest: seq<byte>)
      ensures digest == L.sha(fed)
    {
      digest := L.sha(fed);
    }
  }

  method FeedCounted(h: Hasher, enc: int -> seq<byte>, xs: seq<int>)
    modifies h
    ensures h.fed == old(h.fed) + Counted(enc, xs)
  {
    h.Update(IntToLe(|xs|, 8));
    for i := 0 to |xs|
      invariant h.fed == old(h.fed) + (IntToLe(|xs|, 8) + Points(enc, xs[..i]))
    {
      assert xs[..i + 1][..i] == xs[..i];
      h.Update(enc(xs[i]));
    }
    assert xs[..|xs|] == xs;
  }

  method HashSrs(L: Library, srs: PowersOfTau) returns (digest: seq<byte>)
    ensures digest == L.sha(Encode(L, srs))
  {
    var h := new Hasher(L);
    FeedCounted(h, L.encG1, srs.tauG1);
    FeedCounted(h, L.encG2, srs.tauG2);
    FeedCounted(h, L.encG1, srs.alphaTauG1);
    FeedCounted(h, L.encG1, srs.betaTauG1);
    h.Update(L.encG2(srs.betaG2));
    assert h.fed == Encode(L, srs);
    digest := h.Finalize();
  }

  datatype ExportedSrs = ExportedSrs(srsBytes: seq<byte>, tauG1Count: nat, tauG2Count: nat)

  method ExportSrs(L: Library, srs: PowersOfTau) returns (exported: ExportedSrs)
    ensures exported == ExportedSrs(Encode(L, srs), |srs.tauG1|, |srs.tauG2|)
  {
    var buf := AppendCounted([], L.encG1, srs.tauG1);
    buf := AppendCounted(buf, L.encG2, srs.tauG2);
    buf := AppendCounted(buf, L.encG1, srs.alphaTauG1);
    buf := AppendCounted(buf, L.encG1, srs.betaTauG1);
    buf := buf + L.encG2(srs.betaG2);
    exported := ExportedSrs(buf, |srs.tauG1|, |srs.tauG2|);
  }

  method AppendCounted(start: seq<byte>, enc: int -> seq<byte>, xs: seq<int>) returns (buf: seq<byte>)
    ensures buf == start + Counted(enc, xs)
  {
    buf := start + IntToLe(|xs|, 8);
    for i := 0 to |xs|
      invariant buf == start + (IntToLe(|xs|, 8) + Points(enc, xs[..i]))
    {
      assert xs[..i + 1][..i] == xs[..i];
      buf := buf + enc(xs[i]);
    }
    assert xs[..|xs|] == xs;
  }

  // --------------------------------------------------------------------- decoding

  datatype Field = TauG1 | TauG2 | AlphaTauG1 | BetaTauG1

  datatype ImportError = BadCount(field: Field) | BadElement(at: Field, index: nat) | BadBetaG2

  /** Reads `n` points of `len` bytes from the front; the cursor is what is left. */
  function ReadPoints(dec: seq<byte> -> Option<int>, len: nat, n: nat, cursor: seq<byte>): (out: (seq<int>, seq<byte>))
    ensures |out.0| <= n
  {
    if n == 0 then ([], cursor)
    else
      var (xs, rest) := ReadPoints(dec, len, n - 1, cursor);
      if |xs| < n - 1 || |rest| < len || dec(rest[..len]).None? then (xs, rest)
      else (xs + [dec(rest[..len]).value], rest[len..])
  }

  function ReadCounted(field: Field, dec: seq<byte> -> Option<int>, len: nat, cursor: seq<byte>)
    : Result<(seq<int>, seq<byte>), ImportError>
  {
    if |cursor| < 8 then Err(BadCount(field))
    else
      var n := LeToInt(cursor[..8]);
      var (xs, rest) := ReadPoints(dec, len, n, cursor[8..]);
      if |xs| < n then Err(BadElement(field, |xs|)) else Ok((xs, rest))
  }

  /** Bytes after the last element are ignored. */
  function Decode(L: Library, bytes: seq<byte>): Result<PowersOfTau, ImportError> {
    match ReadCounted(TauG1, L.decG1, G1_LEN, bytes)
    case Err(e) => Err(e)
    case Ok((tauG1, c1)) =>
      match ReadCounted(TauG2, L.decG2, G2_LEN, c1)
      case Err(e) => Err(e)
      case Ok((tauG2, c2)) =>
        match ReadCounted(AlphaTauG1, L.decG1, G1_LEN, c2)
        case Err(e) => Err(e)
        case Ok((alphaTauG1, c3)) =>
          match ReadCounted(BetaTauG1, L.decG1, G1_LEN, c3)
          case Err(e) => Err(e)
          case Ok((betaTauG1, c4)) =>
            if |c4| < G2_LEN || L.decG2(c4[..G2_LEN]).None? then Err(BadBetaG2)
            else Ok(PowersOfTau(tauG1, tauG2, alphaTauG1, betaTauG1, L.decG2(c4[..G2_LEN]).value))
  }

  method ImportCounted(field: Field, dec: seq<byte> -> Option<int>, len: nat, start: seq<byte>)
    returns (res: Result<(seq<int>, seq<byte>), ImportError>)
    ensures res == ReadCounted(field, dec, len, start)
  {
    if |start| < 8 {
      return Err(BadCount(field));
    }
    var count := LeToInt(start[..8]);
    var cursor := start[8..];
    var xs := [];
    for i := 0 to count
      invariant |xs| == i && ReadPoints(dec, len, i, start[8..]) == (xs, cursor)
    {
      if |cursor| < len || dec(cursor[..len]).None? {
        StuckReader(dec, len, i + 1, count, start[8..]);
        return Err(BadElement(field, i));
      }
      xs := xs + [dec(cursor[..len]).value];
      cursor := cursor[len..];
    }
    res := Ok((xs, cursor));
  }

  /** A reader that stopped short stays where it stopped. */
  lemma {:induction false} StuckReader(dec: seq<byte> -> Option<int>, len: nat, n: nat, m: nat, cursor: seq<byte>)
    requires n <= m && |ReadPoints(dec, len, n, cursor).0| < n
    ensures ReadPoints(dec, len, m, cursor) == ReadPoints(dec, len, n, cursor)
  {
    if n < m {
      StuckReader(dec, len, n, m - 1, cursor);
    }
  }

  method ImportSrs(L: Library, bytes: seq<byte>) returns (res: Result<PowersOfTau, ImportError>)
    ensures res == Decode(L, bytes)
  {
    var s1 := ImportCounted(TauG1, L.decG1, G1_LEN, bytes);
    if s1.Err? {
      return Err(s1.error);
    }
    var s2 := ImportCounted(TauG2, L.decG2, G2_LEN, s1.value.1);
    if s2.Err? {
      return Err(s2.error);
    }
    var s3 := ImportCounted(AlphaTauG1, L.decG1, G1_LEN, s2.value.1);
    if s3.Err? {
      return Err(s3.error);
    }
    var s4 := ImportCounted(BetaTauG1, L.decG1, G1_LEN, s3.value.1);
    if s4.Err? {
      return Err(s4.error);
    }
    var cursor := s4.value.1;
    if |cursor| < G2_LEN || L.decG2(cursor[..G2_LEN]).None? {
      return Err(BadBetaG2);
    }
    res := Ok(PowersOfTau(s1.value.0, s2.value.0, s3.value.0, s4.value.0, L.decG2(cursor[..G2_LEN]).value));
  }

  // ------------------------------------------------------------------- round trips

  lemma {:induction false} ReadWrittenPoints(r: Modulus, enc: int -> seq<byte>, dec: seq<byte> -> Option<int>, len: nat,
                                             xs: seq<int>, tail: seq<byte>)
    requires AllInField(r, xs)
    requires forall x :: InField(r, x) ==> |enc(x)| == len && dec(enc(x)) == Some(x)
    ensures ReadPoints(dec, len, |xs|, Points(enc, xs) + tail) == (xs, tail)
  {
    if xs == [] {
      assert Points(enc, xs) + tail == tail;
    } else {
      var n := |xs| - 1;
      var last := xs[n];
      ReadWrittenPoints(r, enc, dec, len, xs[..n], enc(last) + tail);
      assert Points(enc, xs) + tail == Points(enc, xs[..n]) + (enc(last) + tail);
      assert (enc(last) + tail)[..len] == enc(last);
      assert (enc(last) + tail)[len..] == tail;
      assert xs == xs[..n] + [last];
    }
  }

  lemma PrefixReads(n: nat)
    requires n < Pow256(8)
    ensures LeToInt(IntToLe(n, 8)) == n
  {
    LeOfInt(n, 8);
    ModUnique(n, Pow256(8), 0, n);
  }

  lemma ReadWrittenCounted(r: Modulus, field: Field, enc: int -> seq<byte>, dec: seq<byte> -> Option<int>, len: nat,
                           xs: seq<int>, tail: seq<byte>)
    requires AllInField(r, xs) && Prefixable(xs)
    requires forall x :: InField(r, x) ==> |enc(x)| == len && dec(enc(x)) == Some(x)
    ensures ReadCounted(field, dec, len, Counted(enc, xs) + tail) == Ok((xs, tail))
  {
    var cursor := Counted(enc, xs) + tail;
    assert cursor[..8] == IntToLe(|xs|, 8);
    assert cursor[8..] == Points(enc, xs) + tail;
    PrefixReads(|xs|);
    ReadWrittenPoints(r, enc, dec, len, xs, tail);
  }

  /** Importing an export gives the SRS back, whatever follows it in the file. */
  lemma ImportUndoesExport(L: Library, srs: PowersOfTau, tail: seq<byte>)
    requires Sound(L) && SrsInField(L.r, srs) && Encodable(srs)
    ensures Decode(L, Encode(L, srs) + tail) == Ok(srs)
  {
    var t5 := L.encG2(srs.betaG2) + tail;
    var t4 := Counted(L.encG1, srs.betaTauG1) + t5;
    var t3 := Counted(L.encG1, srs.alphaTauG1) + t4;
    var t2 := Counted(L.encG2, srs.tauG2) + t3;
    assert Encode(L, srs) + tail == Counted(L.encG1, srs.tauG1) + t2;
    ReadWrittenCounted(L.r, TauG1, L.encG1, L.decG1, G1_LEN, srs.tauG1, t2);
    ReadWrittenCounted(L.r, TauG2, L.encG2, L.decG2, G2_LEN, srs.tauG2, t3);
    ReadWrittenCounted(L.r, AlphaTauG1, L.encG1, L.decG1, G1_LEN, srs.alphaTauG1, t4);
    ReadWrittenCounted(L.r, BetaTauG1, L.encG1, L.decG1, G1_LEN, srs.betaTauG1, t5);
    assert t5[..G2_LEN] == L.encG2(srs.betaG2);
  }

  /** No two strings share an encoding. */
  lemma EncodeInjective(L: Library, a: PowersOfTau, b: PowersOfTau)
    requires Sound(L) && SrsInField(L.r, a) && Encodable(a) && SrsInField(L.r, b) && Encodable(b)
    requires Encode(L, a) == Encode(L, b)
    ensures a == b
  {
    ImportUndoesExport(L, a, []);
    ImportUndoesExport(L, b, []);
    assert Encode(L, a) + [] == Encode(L, a);
    assert Encode(L, b) + [] == Encode(L, b);
  }

  /** The hash names one SRS, up to a collision of the two encodings. */
  lemma HashBinding(L: Library, a: PowersOfTau, b: PowersOfTau)
    requires Sound(L) && SrsInField(L.r, a) && Encodable(a) && SrsInField(L.r, b) && Encodable(b)
    requires HashOf(L, a) == HashOf(L, b)
    ensures a == b || ShaCollision(L, Encode(L, a), Encode(L, b))
  {
    if Encode(L, a) == Encode(L, b) {
      EncodeInjective(L, a, b);
    }
  }

  /** A content-addressed blob found under an SRS hash imports to that SRS, up to a
      collision of the blob with the canonical bytes. */
  lemma BlobUnderHash(L: Library, srs: PowersOfTau, blob: seq<byte>)
    requires Sound(L) && SrsInField(L.r, srs) && Encodable(srs)
    requires L.sha(blob) == HashOf(L, srs)
    ensures Decode(L, blob) == Ok(srs) || ShaCollision(L, blob, Encode(L, srs))
  {
    ImportUndoesExport(L, srs, []);
    assert Encode(L, srs) + [] == Encode(L, srs);
  }

  lemma {:induction false} PointsInField(L: Library, dec: seq<byte> -> Option<int>, len: nat, n: nat, cursor: seq<byte>)
    requires forall b :: dec(b).Some? ==> InField(L.r, dec(b).value)
    ensures AllInField(L.r, ReadPoints(dec, len, n, cursor).0)
  {
    if n > 0 {
      PointsInField(L, dec, len, n - 1, cursor);
    }
  }

  lemma CountedInField(L: Library, field: Field, dec: seq<byte> -> Option<int>, len: nat, cursor: seq<byte>)
    requires forall b :: dec(b).Some? ==> InField(L.r, dec(b).value)
    requires ReadCounted(field, dec, len, cursor).Ok?
    ensures AllInField(L.r, ReadCounted(field, dec, len, cursor).value.0)
    ensures Prefixable(ReadCounted(field, dec, len, cursor).value.0)
  {
    var n := LeToInt(cursor[..8]);
    LeBound(cursor[..8]);
    PointsInField(L, dec, len, n, cursor[8..]);
  }

  /** Whatever imports is an SRS of field elements that can be exported again. */
  lemma ImportedIsProper(L: Library, bytes: seq<byte>)
    requires Sound(L) && Decode(L, bytes).Ok?
    ensures SrsInField(L.r, Decode(L, bytes).value) && Encodable(Decode(L, bytes).value)
  {
    var c1 := ReadCounted(TauG1, L.decG1, G1_LEN, bytes).value.1;
    var c2 := ReadCounted(TauG2, L.decG2, G2_LEN, c1).value.1;
    var c3 := ReadCounted(AlphaTauG1, L.decG1, G1_LEN, c2).value.1;
    CountedInField(L, TauG1, L.decG1, G1_LEN, bytes);
    CountedInField(L, TauG2, L.decG2, G2_LEN, c1);
    CountedInField(L, AlphaTauG1, L.decG1, G1_LEN, c2);
    CountedInField(L, BetaTauG1, L.decG1, G1_LEN, c3);
  }

  // ------------------------------------------------------------- bytes after the end

  /** A reader that found all its points does not see what follows. */
  lemma {:induction false} PointsWithTail(dec: seq<byte> -> Option<int>, len: nat, n: nat, cursor: seq<byte>, tail: seq<byte>)
    requires |ReadPoints(dec, len, n, cursor).0| == n
    ensures var (xs, rest) := ReadPoints(dec, len, n, cursor);
      ReadPoints(dec, len, n, cursor + tail) == (xs, rest + tail)
  {
    if n > 0 {
      var rest := ReadPoints(dec, len, n - 1, cursor).1;
      PointsWithTail(dec, len, n - 1, cursor, tail);
      assert (rest + tail)[..len] == rest[..len];
      assert (rest + tail)[len..] == rest[len..] + tail;
    }
  }

  lemma CountedWithTail(field: Field, dec: seq<byte> -> Option<int>, len: nat, cursor: seq<byte>, tail: seq<byte>)
    requires ReadCounted(field, dec, len, cursor).Ok?
    ensures var (xs, rest) := ReadCounted(field, dec, len, cursor).value;
      ReadCounted(field, dec, len, cursor + tail) == Ok((xs, rest + tail))
  {
    var n := LeToInt(cursor[..8]);
    assert (cursor + tail)[..8] == cursor[..8];
    assert (cursor + tail)[8..] == cursor[8..] + tail;
    PointsWithTail(dec, len, n, cursor[8..], tail);
  }

  /** Whatever imports, imports to the same string with any bytes after it. */
  lemma ImportIgnoresTail(L: Library, bytes: seq<byte>, tail: seq<byte>)
    requires Decode(L, bytes).Ok?
    ensures Decode(L, bytes + tail) == Decode(L, bytes)
  {
    var c1 := ReadCounted(TauG1, L.decG1, G1_LEN, bytes).value.1;
    var c2 := ReadCounted(TauG2, L.decG2, G2_LEN, c1).value.1;
    var c3 := ReadCounted(AlphaTauG1, L.decG1, G1_LEN, c2).value.1;
    var c4 := ReadCounted(BetaTauG1, L.decG1, G1_LEN, c3).value.1;
    CountedWithTail(TauG1, L.decG1, G1_LEN, bytes, tail);
    CountedWithTail(TauG2, L.decG2, G2_LEN, c1, tail);
    CountedWithTail(AlphaTauG1, L.decG1, G1_LEN, c2, tail);
    CountedWithTail(BetaTauG1, L.decG1, G1_LEN, c3, tail);
    assert (c4 + tail)[..G2_LEN] == c4[..G2_LEN];
  }

  // ------------------------------------------------------------- the layout in bytes

  /** The size of `n` pieces of `len` bytes. */
  function Span(len: nat, n: nat): nat {
    if n == 0 then 0 else Span(len, n - 1) + len
  }

  lemma {:induction false} SpanIs(len: nat, n: nat)
    ensures Span(len, n) == n * len
  {
    if n > 0 {
      SpanIs(len, n - 1);
    }
  }

  lemma {:induction false} PieceFits(i: nat, n: nat, len: nat)
    requires i < n
    ensures Span(len, i) + len <= Span(len, n)
  {
    if i < n - 1 {
      PieceFits(i, n - 1, len);
    }
  }

  /** The first `n` pieces are there and give these elements. */
  ghost predicate PiecesAre(piece: seq<byte> -> Option<int>, bytes: seq<byte>, at: nat, len: nat, xs: seq<int>) {
    at + Span(len, |xs|) <= |bytes| && forall i: nat :: i < |xs| ==> PieceIs(piece, bytes, at, len, xs, i)
  }

  ghost predicate PieceIs(piece: seq<byte> -> Option<int>, bytes: seq<byte>, at: nat, len: nat, xs: seq<int>, i: nat)
    requires i < |xs|
  {
    at + Span(len, i) + len <= |bytes|
    && piece(bytes[at + Span(len, i)..at + Span(len, i) + len]) == Some(xs[i])
  }

  /** A section at `at`: the number of its elements in eight bytes, least significant first,
      and then the elements. */
  ghost predicate SectionAt(dec: seq<byte> -> Option<int>, len: nat, bytes: seq<byte>, at: nat, xs: seq<int>) {
    at + 8 <= |bytes| && LeToInt(bytes[at..at + 8]) == |xs| && PiecesAre(dec, bytes, at + 8, len, xs)
  }

  /** The file in plain terms: powers of tau in G1 (48 bytes a point) and in G2 (96 bytes),
      then the alpha and the beta series, then beta in G2; anything may follow. */
  ghost predicate FileIs(L: Library, bytes: seq<byte>, srs: PowersOfTau) {
    var a2 := 8 + |srs.tauG1| * 48;
    var a3 := a2 + 8 + |srs.tauG2| * 96;
    var a4 := a3 + 8 + |srs.alphaTauG1| * 48;
    FilePlaces(L, bytes, srs, a2, a3, a4, a4 + 8 + |srs.betaTauG1| * 48)
  }

  ghost predicate FilePlaces(L: Library, bytes: seq<byte>, srs: PowersOfTau, a2: nat, a3: nat, a4: nat, a5: nat) {
    SectionAt(L.decG1, 48, bytes, 0, srs.tauG1) && SectionAt(L.decG2, 96, bytes, a2, srs.tauG2)
    && SectionAt(L.decG1, 48, bytes, a3, srs.alphaTauG1) && SectionAt(L.decG1, 48, bytes, a4, srs.betaTauG1)
    && a5 + 96 <= |bytes| && L.decG2(bytes[a5..a5 + 96]) == Some(srs.betaG2)
  }

  lemma PiecesMore(dec: seq<byte> -> Option<int>, bytes: seq<byte>, at: nat, len: nat, xs: seq<int>, x: int)
    requires PiecesAre(dec, bytes, at, len, xs) && at + Span(len, |xs|) + len <= |bytes|
    requires dec(bytes[at + Span(len, |xs|)..at + Span(len, |xs|) + len]) == Some(x)
    ensures PiecesAre(dec, bytes, at, len, xs + [x])
  {
    var all := xs + [x];
    assert Span(len, |all|) == Span(len, |xs|) + len;
    forall i: nat | i < |all| ensures PieceIs(dec, bytes, at, len, all, i) {
      if i < |xs| {
        assert PieceIs(dec, bytes, at, len, xs, i);
      }
    }
  }

  ghost predicate PointsEnd(dec: seq<byte> -> Option<int>, len: nat, n: nat, bytes: seq<byte>, at: nat,
                            read: (seq<int>, seq<byte>)) {
    PiecesAre(dec, bytes, at, len, read.0) && read.1 == bytes[at + Span(len, |read.0|)..]
    && (|read.0| < n ==> BadPiece(dec, bytes, at + Span(len, |read.0|), len))
  }

  /** A reader stops at the first piece that is missing or does not decode. */
  lemma {:induction false} PointsRead(dec: seq<byte> -> Option<int>, len: nat, n: nat, bytes: seq<byte>, at: nat)
    requires at <= |bytes|
    ensures PointsEnd(dec, len, n, bytes, at, ReadPoints(dec, len, n, bytes[at..]))
  {
    if n > 0 {
      PointsRead(dec, len, n - 1, bytes, at);
      var (xs, rest) := ReadPoints(dec, len, n - 1, bytes[at..]);
      var from := at + Span(len, |xs|);
      assert |rest| >= len ==> rest[..len] == bytes[from..from + len];
      if !(|xs| < n - 1 || |rest| < len || dec(rest[..len]).None?) {
        assert rest[len..] == bytes[from + len..];
        PiecesMore(dec, bytes, at, len, xs, dec(rest[..len]).value);
        assert |xs + [dec(rest[..len]).value]| == |xs| + 1;
      }
    }
  }

  lemma SameElements(dec: seq<byte> -> Option<int>, bytes: seq<byte>, at: nat, len: nat, xs: seq<int>, ys: seq<int>)
    requires PiecesAre(dec, bytes, at, len, xs) && PiecesAre(dec, bytes, at, len, ys) && |xs| <= |ys|
    ensures xs <= ys
  {
    forall i: nat | i < |xs| ensures xs[i] == ys[i] {
      assert PieceIs(dec, bytes, at, len, xs, i) && PieceIs(dec, bytes, at, len, ys, i);
    }
  }

  /** What reading a section from where it starts ends in: its elements, or what is wrong
      with the first piece that does not decode. */
  ghost predicate SectionEnds(field: Field, dec: seq<byte> -> Option<int>, len: nat, bytes: seq<byte>, at: nat,
                              res: Result<(seq<int>, seq<byte>), ImportError>)
    requires at <= |bytes|
  {
    match res
    case Ok(read) => SectionAt(dec, len, bytes, at, read.0) && read.1 == bytes[at + 8 + Span(len, |read.0|)..]
    case Err(BadCount(f)) => f == field && |bytes| < at + 8
    case Err(BadElement(f, i)) =>
      f == field && at + 8 <= |bytes| && i < LeToInt(bytes[at..at + 8]) && FirstBad(dec, len, bytes, at + 8, i)
    case Err(BadBetaG2) => false
  }

  /** Piece `i` is the first that is missing or does not decode. */
  ghost predicate FirstBad(dec: seq<byte> -> Option<int>, len: nat, bytes: seq<byte>, at: nat, i: nat) {
    (exists xs: seq<int> :: |xs| == i && PiecesAre(dec, bytes, at, len, xs))
    && BadPiece(dec, bytes, at + Span(len, i), len)
  }

  lemma SectionReads(field: Field, dec: seq<byte> -> Option<int>, len: nat, bytes: seq<byte>, at: nat)
    requires at <= |bytes|
    ensures SectionEnds(field, dec, len, bytes, at, ReadCounted(field, dec, len, bytes[at..]))
  {
    if at + 8 <= |bytes| {
      assert bytes[at..][..8] == bytes[at..at + 8] && bytes[at..][8..] == bytes[at + 8..];
      var n := LeToInt(bytes[at..at + 8]);
      PointsRead(dec, len, n, bytes, at + 8);
      var xs := ReadPoints(dec, len, n, bytes[at + 8..]).0;
      if |xs| < n {
        assert FirstBad(dec, len, bytes, at + 8, |xs|);
      }
    }
  }

  ghost predicate BadPiece(dec: seq<byte> -> Option<int>, bytes: seq<byte>, from: nat, len: nat) {
    |bytes| < from + len || dec(bytes[from..from + len]).None?
  }

  lemma NoBadPiece(dec: seq<byte> -> Option<int>, bytes: seq<byte>, at: nat, len: nat, xs: seq<int>, i: nat)
    requires PiecesAre(dec, bytes, at, len, xs) && i < |xs|
    ensures !BadPiece(dec, bytes, at + Span(len, i), len)
  {
    assert PieceIs(dec, bytes, at, len, xs, i);
  }

  lemma SectionFound(field: Field, dec: seq<byte> -> Option<int>, len: nat, bytes: seq<byte>, at: nat, xs: seq<int>)
    requires SectionAt(dec, len, bytes, at, xs)
    ensures ReadCounted(field, dec, len, bytes[at..]) == Ok((xs, bytes[at + 8 + Span(len, |xs|)..]))
  {
    assert bytes[at..][..8] == bytes[at..at + 8] && bytes[at..][8..] == bytes[at + 8..];
    PointsRead(dec, len, |xs|, bytes, at + 8);
    var (ys, rest) := ReadPoints(dec, len, |xs|, bytes[at + 8..]);
    SameElements(dec, bytes, at + 8, len, ys, xs);
    if |ys| < |xs| {
      NoBadPiece(dec, bytes, at + 8, len, xs, |ys|);
    }
    assert ys == xs;
  }

  /** A file imports to a string exactly if it is laid out as that string: every count right,
      every point in its place and decodable.  What fails to decode is refused. */
  lemma DecodeMeans(L: Library, bytes: seq<byte>, srs: PowersOfTau)
    ensures Decode(L, bytes) == Ok(srs) <==> FileIs(L, bytes, srs)
  {
    SpanIs(48, |srs.tauG1|);
    SpanIs(96, |srs.tauG2|);
    SpanIs(48, |srs.alphaTauG1|);
    SpanIs(48, |srs.betaTauG1|);
    var a2 := 8 + Span(48, |srs.tauG1|);
    var a3 := a2 + 8 + Span(96, |srs.tauG2|);
    var a4 := a3 + 8 + Span(48, |srs.alphaTauG1|);
    var a5 := a4 + 8 + Span(48, |srs.betaTauG1|);
    if FilePlaces(L, bytes, srs, a2, a3, a4, a5) {
      FoundDecodes(L, bytes, srs, a2, a3, a4, a5);
    }
    if Decode(L, bytes) == Ok(srs) {
      DecodedIs(L, bytes, srs, a2, a3, a4, a5);
    }
  }

  lemma FoundDecodes(L: Library, bytes: seq<byte>, srs: PowersOfTau, a2: nat, a3: nat, a4: nat, a5: nat)
    requires a2 == 8 + Span(48, |srs.tauG1|) && a3 == a2 + 8 + Span(96, |srs.tauG2|)
    requires a4 == a3 + 8 + Span(48, |srs.alphaTauG1|) && a5 == a4 + 8 + Span(48, |srs.betaTauG1|)
    requires FilePlaces(L, bytes, srs, a2, a3, a4, a5)
    ensures Decode(L, bytes) == Ok(srs)
  {
    assert bytes[0..] == bytes;
    SectionFound(TauG1, L.decG1, 48, bytes, 0, srs.tauG1);
    SectionFound(TauG2, L.decG2, 96, bytes, a2, srs.tauG2);
    SectionFound(AlphaTauG1, L.decG1, 48, bytes, a3, srs.alphaTauG1);
    SectionFound(BetaTauG1, L.decG1, 48, bytes, a4, srs.betaTauG1);
    assert bytes[a5..][..96] == bytes[a5..a5 + 96];
  }

  lemma DecodedIs(L: Library, bytes: seq<byte>, srs: PowersOfTau, a2: nat, a3: nat, a4: nat, a5: nat)
    requires a2 == 8 + Span(48, |srs.tauG1|) && a3 == a2 + 8 + Span(96, |srs.tauG2|)
    requires a4 == a3 + 8 + Span(48, |srs.alphaTauG1|) && a5 == a4 + 8 + Span(48, |srs.betaTauG1|)
    requires Decode(L, bytes) == Ok(srs)
    ensures FilePlaces(L, bytes, srs, a2, a3, a4, a5)
  {
    assert bytes[0..] == bytes;
    SectionRead(TauG1, L.decG1, 48, bytes, 0, srs.tauG1, a2);
    SectionRead(TauG2, L.decG2, 96, bytes, a2, srs.tauG2, a3);
    SectionRead(AlphaTauG1, L.decG1, 48, bytes, a3, srs.alphaTauG1, a4);
    SectionRead(BetaTauG1, L.decG1, 48, bytes, a4, srs.betaTauG1, a5);
    assert bytes[a5..][..96] == bytes[a5..a5 + 96];
  }

  lemma SectionRead(field: Field, dec: seq<byte> -> Option<int>, len: nat, bytes: seq<byte>, at: nat, xs: seq<int>, next: nat)
    requires at <= |bytes| && next == at + 8 + Span(len, |xs|)
    requires ReadCounted(field, dec, len, bytes[at..]).Ok? && ReadCounted(field, dec, len, bytes[at..]).value.0 == xs
    ensures SectionAt(dec, len, bytes, at, xs) && next <= |bytes|
    ensures ReadCounted(field, dec, len, bytes[at..]).value.1 == bytes[next..]
  {
    SectionReads(field, dec, len, bytes, at);
  }

  /** What a string encodes to has that layout and nothing after it. */
  lemma EncodeLayout(L: Library, srs: PowersOfTau)
    requires Sound(L) && SrsInField(L.r, srs) && Encodable(srs)
    ensures FileIs(L, Encode(L, srs), srs)
    ensures |Encode(L, srs)| ==
      (8 + |srs.tauG1| * 48) + (8 + |srs.tauG2| * 96) + (8 + |srs.alphaTauG1| * 48) + (8 + |srs.betaTauG1| * 48) + 96
  {
    ImportUndoesExport(L, srs, []);
    assert Encode(L, srs) + [] == Encode(L, srs);
    DecodeMeans(L, Encode(L, srs), srs);
    PointsSize(L.r, L.encG1, 48, srs.tauG1);
    PointsSize(L.r, L.encG2, 96, srs.tauG2);
    PointsSize(L.r, L.encG1, 48, srs.alphaTauG1);
    PointsSize(L.r, L.encG1, 48, srs.betaTauG1);
    SpanIs(48, |srs.tauG1|);
    SpanIs(96, |srs.tauG2|);
    SpanIs(48, |srs.alphaTauG1|);
    SpanIs(48, |srs.betaTauG1|);
  }

  lemma {:induction false} PointsSize(r: Modulus, enc: int -> seq<byte>, len: nat, xs: seq<int>)
    requires AllInField(r, xs) && forall x :: InField(r, x) ==> |enc(x)| == len
    ensures |Points(enc, xs)| == Span(len, |xs|)
  {
    if xs != [] {
      PointsSize(r, enc, len, xs[..|xs| - 1]);
      assert Span(len, |xs|) == Span(len, |xs| - 1) + len;
    }
  }

  /** The points of a section are the library's encodings, one after the other. */
  lemma {:induction false} PointsAt(r: Modulus, enc: int -> seq<byte>, len: nat, xs: seq<int>, i: nat)
    requires AllInField(r, xs) && i < |xs| && forall x :: InField(r, x) ==> |enc(x)| == len
    ensures |Points(enc, xs)| == Span(len, |xs|) && Span(len, i) + len <= Span(len, |xs|)
    ensures Points(enc, xs)[Span(len, i)..Span(len, i) + len] == enc(xs[i])
  {
    PointsSize(r, enc, len, xs);
    PieceFits(i, |xs|, len);
    var n := |xs| - 1;
    PointsSize(r, enc, len, xs[..n]);
    if i < n {
      PointsAt(r, enc, len, xs[..n], i);
      assert Points(enc, xs)[Span(len, i)..Span(len, i) + len] == Points(enc, xs[..n])[Span(len, i)..Span(len, i) + len];
    } else {
      assert Span(len, |xs|) == Span(len, n) + len;
    }
  }
}
