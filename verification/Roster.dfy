/** Canonical ordering of member records. */
module Roster {
  import opened Bytes
  import opened Results
  import opened MerkleTree

  type Key = seq<byte>

  datatype Member = Member(publicKey: Key, leafHash: int)

  /** Lexicographic order of byte strings. */
  predicate KeyLe(a: Key, b: Key) {
    a == [] || (b != [] && (a[0] < b[0] || (a[0] == b[0] && KeyLe(a[1..], b[1..]))))
  }

  lemma {:induction false} KeyTotal(a: Key, b: Key)
    ensures KeyLe(a, b) || KeyLe(b, a)
  {
    if a != [] && b != [] {
      KeyTotal(a[1..], b[1..]);
    }
  }

  lemma {:induction false} KeyAntisym(a: Key, b: Key)
    requires KeyLe(a, b) && KeyLe(b, a)
    ensures a == b
  {
    if a != [] && b != [] {
      KeyAntisym(a[1..], b[1..]);
      assert a == [a[0]] + a[1..] && b == [b[0]] + b[1..];
    }
  }

  lemma {:induction false} KeyTrans(a: Key, b: Key, c: Key)
    requires KeyLe(a, b) && KeyLe(b, c)
    ensures KeyLe(a, c)
  {
    if a != [] && b != [] && c != [] && a[0] == b[0] && b[0] == c[0] {
      KeyTrans(a[1..], b[1..], c[1..]);
    }
  }

  /** The order in plain terms: both agree before place `k`, and there `a` ends or has the
      smaller byte. */
  ghost predicate DiffersAt(a: Key, b: Key, k: nat) {
    k <= |a| && k < |b| && (forall i :: 0 <= i < k ==> a[i] == b[i]) && (k == |a| || a[k] < b[k])
  }

  ghost predicate Below(a: Key, b: Key) {
    exists k: nat :: DiffersAt(a, b, k)
  }

  lemma DiffersShift(a: Key, b: Key, k: nat, next: nat)
    requires a != [] && b != [] && a[0] == b[0] && next == k + 1
    ensures DiffersAt(a[1..], b[1..], k) <==> DiffersAt(a, b, next)
  {
    if DiffersAt(a[1..], b[1..], k) {
      forall i | 0 <= i < next ensures a[i] == b[i] {
        if i > 0 {
          assert a[1..][i - 1] == b[1..][i - 1];
        }
      }
    }
    if DiffersAt(a, b, next) {
      forall i | 0 <= i < k ensures a[1..][i] == b[1..][i] {
        assert a[i + 1] == b[i + 1];
      }
    }
  }

  /** The recursive order is that order. */
  lemma {:induction false} KeyLeMeans(a: Key, b: Key)
    ensures KeyLe(a, b) && a != b <==> Below(a, b)
  {
    if a != [] && b != [] && a[0] == b[0] {
      KeyLeMeans(a[1..], b[1..]);
      assert a == [a[0]] + a[1..] && b == [b[0]] + b[1..];
      if Below(a[1..], b[1..]) {
        var k: nat :| DiffersAt(a[1..], b[1..], k);
        DiffersShift(a, b, k, k + 1);
      }
      if Below(a, b) {
        var k: nat :| DiffersAt(a, b, k);
        DiffersShift(a, b, k - 1, k);
      }
    } else {
      assert DiffersAt(a, b, 0) <==> b != [] && (a == [] || a[0] < b[0]);
    }
  }

  /** Strictly ascending keys, byte by byte. */
  ghost predicate Ascends(ms: seq<Member>) {
    forall i, j :: 0 <= i < j < |ms| ==> Below(ms[i].publicKey, ms[j].publicKey)
  }

  lemma SortedAscends(ms: seq<Member>)
    ensures Sorted(ms) && DistinctKeys(ms) <==> Ascends(ms)
  {
    forall i, j | 0 <= i < j < |ms|
      ensures KeyLe(ms[i].publicKey, ms[j].publicKey) && ms[i].publicKey != ms[j].publicKey
        <==> Below(ms[i].publicKey, ms[j].publicKey)
    {
      KeyLeMeans(ms[i].publicKey, ms[j].publicKey);
    }
  }

  // ----------------------------------------------------------------------- sort

  function InsertMember(m: Member, sorted: seq<Member>): (out: seq<Member>)
    ensures multiset(out) == multiset([m]) + multiset(sorted)
  {
    if sorted == [] then [m]
    else if KeyLe(m.publicKey, sorted[0].publicKey) then [m] + sorted
    else
      assert sorted == [sorted[0]] + sorted[1..];
      [sorted[0]] + InsertMember(m, sorted[1..])
  }

  /** The standard library's stable sort by public key. */
  function SortByKey(members: seq<Member>): (out: seq<Member>)
    ensures multiset(out) == multiset(members)
  {
    if members == [] then []
    else
      assert members == [members[0]] + members[1..];
      InsertMember(members[0], SortByKey(members[1..]))
  }

  ghost predicate Sorted(ms: seq<Member>) {
    forall i, j :: 0 <= i < j < |ms| ==> KeyLe(ms[i].publicKey, ms[j].publicKey)
  }

  ghost predicate DistinctKeys(ms: seq<Member>) {
    forall i, j :: 0 <= i < j < |ms| ==> ms[i].publicKey != ms[j].publicKey
  }

  lemma {:induction false} InsertSorted(m: Member, sorted: seq<Member>)
    requires Sorted(sorted)
    ensures Sorted(InsertMember(m, sorted))
  {
    if sorted == [] {
    } else if KeyLe(m.publicKey, sorted[0].publicKey) {
      forall j | 0 <= j < |sorted| ensures KeyLe(m.publicKey, sorted[j].publicKey) {
        if j > 0 {
          KeyTrans(m.publicKey, sorted[0].publicKey, sorted[j].publicKey);
        }
      }
    } else {
      KeyTotal(m.publicKey, sorted[0].publicKey);
      var rest := InsertMember(m, sorted[1..]);
      InsertSorted(m, sorted[1..]);
      forall j | 0 <= j < |rest| ensures KeyLe(sorted[0].publicKey, rest[j].publicKey) {
        assert rest[j] in multiset(rest);
        assert rest[j] == m || rest[j] in sorted[1..];
      }
    }
  }

  lemma {:induction false} SortSorts(members: seq<Member>)
    ensures Sorted(SortByKey(members))
  {
    if members != [] {
      SortSorts(members[1..]);
      InsertSorted(members[0], SortByKey(members[1..]));
    }
  }

  // ------------------------------------------------------------ canonicalization

  /** The first key that stands twice in a row, if any. */
  function FirstTwin(ms: seq<Member>): Option<Key> {
    if |ms| < 2 then None
    else if ms[0].publicKey == ms[1].publicKey then Some(ms[0].publicKey)
    else FirstTwin(ms[1..])
  }

  function Canonical(members: seq<Member>): Result<seq<Member>, MerkleError> {
    var ordered := SortByKey(members);
    match FirstTwin(ordered)
    case None => Ok(ordered)
    case Some(key) => Err(DuplicatePublicKey(key))
  }

  method CanonicalizeMembers(members: seq<Member>) returns (res: Result<seq<Member>, MerkleError>)
    ensures res == Canonical(members)
    ensures res.Ok? ==> multiset(res.value) == multiset(members) && Ascends(res.value)
    ensures res.Err? ==> res.error.DuplicatePublicKey? && IsLeastTwin(members, res.error.key)
  {
    CanonicalMeans(members);
    var ordered := SortByKey(members);
    var i := 0;
    while i + 1 < |ordered|
      invariant 0 <= i && (i <= |ordered|)
      invariant FirstTwin(ordered[i..]) == FirstTwin(ordered)
    {
      if ordered[i].publicKey == ordered[i + 1].publicKey {
        return Err(DuplicatePublicKey(ordered[i].publicKey));
      }
      assert ordered[i..][1..] == ordered[i + 1..];
      i := i + 1;
    }
    res := Ok(ordered);
  }

  /** In a sorted list a repeated key stands next to its twin. */
  lemma {:induction false} TwinFound(ms: seq<Member>)
    requires Sorted(ms)
    ensures FirstTwin(ms).None? <==> DistinctKeys(ms)
  {
    if |ms| >= 2 {
      var rest := ms[1..];
      TwinFound(rest);
      if DistinctKeys(rest) && ms[0].publicKey != ms[1].publicKey {
        forall j | 1 <= j < |ms| ensures ms[0].publicKey != ms[j].publicKey {
          if ms[0].publicKey == ms[j].publicKey {
            KeyAntisym(ms[0].publicKey, ms[1].publicKey);
          }
        }
        forall i, j | 0 <= i < j < |ms| ensures ms[i].publicKey != ms[j].publicKey {
          if i > 0 {
            assert rest[i - 1].publicKey != rest[j - 1].publicKey;
          }
        }
      }
      if DistinctKeys(ms) {
        assert forall i, j :: 0 <= i < j < |rest| ==> rest[i] == ms[i + 1] && rest[j] == ms[j + 1];
      }
    }
  }

  // ------------------------------------------------- independence of the order

  /** Two sorted lists of the same keys have the same least key. */
  lemma SameFirstKey(a: seq<Member>, b: seq<Member>)
    requires Sorted(a) && Sorted(b) && KeyBag(a) == KeyBag(b) && a != [] && b != []
    ensures a[0].publicKey == b[0].publicKey
  {
    InKeyBag(a, b[0].publicKey);
    InKeyBag(b, a[0].publicKey);
    var i :| 0 <= i < |a| && a[i].publicKey == b[0].publicKey;
    var j :| 0 <= j < |b| && b[j].publicKey == a[0].publicKey;
    KeyLeRefl(a[0].publicKey);
    KeyLeRefl(b[0].publicKey);
    KeyAntisym(a[0].publicKey, b[0].publicKey);
  }

  lemma BagOfTail(a: seq<Member>)
    requires a != []
    ensures KeyBag(a[1..]) == KeyBag(a) - multiset{a[0].publicKey}
  {
  }

  ghost predicate SameKeys(a: seq<Member>, b: seq<Member>) {
    |a| == |b| && forall i :: 0 <= i < |a| ==> a[i].publicKey == b[i].publicKey
  }

  lemma SameKeysCons(a: seq<Member>, b: seq<Member>)
    requires a != [] && b != [] && a[0].publicKey == b[0].publicKey && SameKeys(a[1..], b[1..])
    ensures SameKeys(a, b)
  {
    forall k | 0 <= k < |a| ensures a[k].publicKey == b[k].publicKey {
      if k > 0 {
        assert a[k] == a[1..][k - 1] && b[k] == b[1..][k - 1];
      }
    }
  }

  /** Two sorted lists of the same keys carry the same key at every place. */
  lemma {:induction false} SortedKeysAgree(a: seq<Member>, b: seq<Member>)
    requires Sorted(a) && Sorted(b) && KeyBag(a) == KeyBag(b)
    ensures SameKeys(a, b)
  {
    KeyBagSize(a);
    KeyBagSize(b);
    if a != [] {
      SameFirstKey(a, b);
      BagOfTail(a);
      BagOfTail(b);
      SortedKeysAgree(a[1..], b[1..]);
      SameKeysCons(a, b);
    }
  }

  lemma {:induction false} KeyLeRefl(a: Key)
    ensures KeyLe(a, a)
  {
    if a != [] {
      KeyLeRefl(a[1..]);
    }
  }

  ghost function KeyBag(ms: seq<Member>): multiset<Key> {
    if ms == [] then multiset{} else multiset{ms[0].publicKey} + KeyBag(ms[1..])
  }

  lemma {:induction false} KeyBagSize(ms: seq<Member>)
    ensures |KeyBag(ms)| == |ms|
  {
    if ms != [] {
      KeyBagSize(ms[1..]);
    }
  }

  lemma {:induction false} InKeyBag(ms: seq<Member>, key: Key)
    ensures key in KeyBag(ms) <==> exists i :: 0 <= i < |ms| && ms[i].publicKey == key
  {
    if ms != [] {
      InKeyBag(ms[1..], key);
      if exists i :: 0 <= i < |ms| && ms[i].publicKey == key {
        var i :| 0 <= i < |ms| && ms[i].publicKey == key;
        if i > 0 {
          assert ms[1..][i - 1].publicKey == key;
        }
      }
      if key in KeyBag(ms[1..]) {
        var i :| 0 <= i < |ms[1..]| && ms[1..][i].publicKey == key;
        assert ms[i + 1].publicKey == key;
      }
    }
  }

  lemma {:induction false} KeyBagSplit(ms: seq<Member>, i: nat)
    requires i < |ms|
    ensures KeyBag(ms) == multiset{ms[i].publicKey} + KeyBag(ms[..i] + ms[i + 1..])
  {
    if i == 0 {
      assert ms[..0] + ms[1..] == ms[1..];
    } else {
      KeyBagSplit(ms[1..], i - 1);
      var without := ms[..i] + ms[i + 1..];
      assert without[1..] == ms[1..][..i - 1] + ms[1..][i..];
      assert ms[1..][i - 1 + 1..] == ms[1..][i..];
    }
  }

  lemma {:induction false} SameMembersSameKeys(a: seq<Member>, b: seq<Member>)
    requires multiset(a) == multiset(b)
    ensures KeyBag(a) == KeyBag(b)
  {
    if a == [] {
      assert |multiset(b)| == 0;
    } else {
      assert a[0] in multiset(b);
      var i :| 0 <= i < |b| && b[i] == a[0];
      var without := b[..i] + b[i + 1..];
      assert b == b[..i] + [b[i]] + b[i + 1..];
      assert a == [a[0]] + a[1..];
      assert multiset(b) == multiset(without) + multiset{b[i]};
      assert multiset(a) == multiset(a[1..]) + multiset{a[0]};
      assert multiset(a[1..]) == multiset(a) - multiset{a[0]};
      assert multiset(without) == multiset(b) - multiset{b[i]};
      SameMembersSameKeys(a[1..], without);
      KeyBagSplit(b, i);
    }
  }

  /** The outcome does not depend on the order of the input, error key included. */
  lemma CanonicalIgnoresOrder(a: seq<Member>, b: seq<Member>)
    requires multiset(a) == multiset(b)
    ensures Canonical(a) == Canonical(b)
  {
    var x, y := SortByKey(a), SortByKey(b);
    SortSorts(a);
    SortSorts(b);
    SameMembersSameKeys(x, y);
    SortedKeysAgree(x, y);
    TwinOfKeys(x, y);
    TwinFound(x);
    if FirstTwin(x).None? {
      SameKeysSameMembers(x, y);
    }
  }

  /** With distinct keys, the same keys and the same members are the same list. */
  lemma SameKeysSameMembers(x: seq<Member>, y: seq<Member>)
    requires DistinctKeys(x) && SameKeys(x, y) && multiset(x) == multiset(y)
    ensures x == y
  {
    forall i | 0 <= i < |x| ensures x[i] == y[i] {
      assert x[i] in multiset(y);
      var j :| 0 <= j < |y| && y[j] == x[i];
      assert x[j].publicKey == x[i].publicKey;
    }
  }

  lemma {:induction false} TwinOfKeys(a: seq<Member>, b: seq<Member>)
    requires SameKeys(a, b)
    ensures FirstTwin(a) == FirstTwin(b)
  {
    if |a| >= 2 {
      TwinOfKeys(a[1..], b[1..]);
    }
  }

  /** Two members carry the key, and no two a lower one. */
  ghost predicate IsLeastTwin(members: seq<Member>, key: Key) {
    KeyBag(members)[key] >= 2 && forall lower :: Below(lower, key) ==> KeyBag(members)[lower] <= 1
  }

  lemma {:induction false} FirstTwinIsLeast(ms: seq<Member>)
    requires Sorted(ms) && FirstTwin(ms).Some?
    ensures IsLeastTwin(ms, FirstTwin(ms).value)
  {
    var head, rest := ms[0].publicKey, ms[1..];
    var key := FirstTwin(ms).value;
    assert rest == [rest[0]] + rest[1..];
    if head != rest[0].publicKey {
      FirstTwinIsLeast(rest);
      HeadIsLower(ms, key);
      forall lower | Below(lower, key) ensures KeyBag(ms)[lower] <= 1 {
        NotAgain(ms);
      }
    } else {
      assert KeyBag(rest)[head] >= 1;
      forall lower | Below(lower, key) ensures KeyBag(ms)[lower] <= 1 {
        NoneLower(ms, lower);
      }
    }
  }

  /** A sorted list that starts with two different keys does not repeat the first. */
  lemma NotAgain(ms: seq<Member>)
    requires Sorted(ms) && |ms| >= 2 && ms[0].publicKey != ms[1].publicKey
    ensures ms[0].publicKey !in KeyBag(ms[1..])
  {
    InKeyBag(ms[1..], ms[0].publicKey);
    if i :| 0 <= i < |ms[1..]| && ms[1..][i].publicKey == ms[0].publicKey {
      KeyAntisym(ms[0].publicKey, ms[1].publicKey);
    }
  }

  lemma HeadIsLower(ms: seq<Member>, key: Key)
    requires ms != [] && key in KeyBag(ms[1..])
    ensures KeyBag(ms)[key] >= KeyBag(ms[1..])[key]
  {
  }

  /** No key below the first one occurs in a sorted list. */
  lemma NoneLower(ms: seq<Member>, lower: Key)
    requires Sorted(ms) && ms != [] && Below(lower, ms[0].publicKey)
    ensures KeyBag(ms)[lower] == 0
  {
    InKeyBag(ms, lower);
    KeyLeMeans(lower, ms[0].publicKey);
    if i :| 0 <= i < |ms| && ms[i].publicKey == lower {
      if i > 0 {
        KeyAntisym(lower, ms[0].publicKey);
      }
    }
  }

  /** Canonicalizing keeps exactly the members, in strictly ascending order of their keys'
      bytes, and fails exactly when two members share a key, with the least such key. */
  lemma CanonicalMeans(members: seq<Member>)
    ensures Canonical(members).Ok? ==>
      multiset(Canonical(members).value) == multiset(members) && Ascends(Canonical(members).value)
    ensures Canonical(members).Ok? <==> DistinctKeys(members)
    ensures Canonical(members).Err? ==>
      Canonical(members).error.DuplicatePublicKey? && IsLeastTwin(members, Canonical(members).error.key)
  {
    var ordered := SortByKey(members);
    SortSorts(members);
    TwinFound(ordered);
    DistinctByBag(ordered);
    DistinctByBag(members);
    SameMembersSameKeys(ordered, members);
    SortedAscends(ordered);
    if FirstTwin(ordered).Some? {
      FirstTwinIsLeast(ordered);
    }
  }

  lemma {:induction false} DistinctByBag(ms: seq<Member>)
    ensures DistinctKeys(ms) <==> forall key :: key in KeyBag(ms) ==> KeyBag(ms)[key] == 1
  {
    if ms != [] {
      var head, rest := ms[0].publicKey, ms[1..];
      DistinctByBag(rest);
      InKeyBag(rest, head);
      assert DistinctKeys(ms) <==> DistinctKeys(rest) && head !in KeyBag(rest) by {
        assert forall i :: 0 <= i < |rest| ==> rest[i] == ms[i + 1];
        assert forall i :: 1 <= i < |ms| ==> ms[i] == rest[i - 1];
      }
      if forall key :: key in KeyBag(ms) ==> KeyBag(ms)[key] == 1 {
        assert head in KeyBag(ms) && KeyBag(ms)[head] == 1;
        forall key | key in KeyBag(rest) ensures KeyBag(rest)[key] == 1 {
          assert key in KeyBag(ms);
        }
      }
    }
  }

  /** A canonical roster is its own canonical form. */
  lemma CanonicalIdempotent(members: seq<Member>)
    requires Canonical(members).Ok?
    ensures Canonical(Canonical(members).value) == Canonical(members)
  {
    CanonicalIgnoresOrder(SortByKey(members), members);
  }
}
