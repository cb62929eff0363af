/** The Poseidon hash, kept abstract: two arbitrary functions whose results are reduced
    into the field.  Nothing is assumed about them.  Since the two-input hash maps r^2
    pairs to r values, collisions exist; results about binding therefore name the
    colliding pairs instead of assuming there are none. */
module PoseidonHash {
  import opened PrimeField

  datatype Poseidon = Poseidon(r: Modulus, one: int -> int, two: (int, int) -> int) {

    /** Hash of one element: the leaf of a secret key. */
    function HashOne(x: int): (h: int)
      ensures InField(r, h)
    {
      Reduce(r, one(x))
    }

    /** Hash of two elements: an internal node, or one step of a commitment. */
    function HashTwo(a: int, b: int): (h: int)
      ensures InField(r, h)
    {
      Reduce(r, two(a, b))
    }
  }

  /** Two inputs of the two-input hash. */
  datatype HashPair = HashPair(a: int, b: int, c: int, d: int)

  /** The pair of inputs is a collision: different inputs, equal hash. */
  predicate IsCollision(P: Poseidon, p: HashPair) {
    (p.a, p.b) != (p.c, p.d) && P.HashTwo(p.a, p.b) == P.HashTwo(p.c, p.d)
  }

  /** `Poseidon(Poseidon(root, epoch), salt)`. */
  function Commit(P: Poseidon, root: int, epoch: int, salt: int): (c: int)
    ensures InField(P.r, c)
  {
    P.HashTwo(P.HashTwo(root, epoch), salt)
  }

  /** The hash inputs to compare when two openings give one commitment. */
  function CommitClash(P: Poseidon, root: int, epoch: int, salt: int,
                       root': int, epoch': int, salt': int): HashPair
  {
    var outer := HashPair(P.HashTwo(root, epoch), salt, P.HashTwo(root', epoch'), salt');
    if (outer.a, outer.b) != (outer.c, outer.d) then outer
    else HashPair(root, epoch, root', epoch')
  }

  /** Binding: one commitment has one opening, or the named pair collides. */
  lemma CommitBinding(P: Poseidon, root: int, epoch: int, salt: int,
                      root': int, epoch': int, salt': int)
    requires P.HashTwo(P.HashTwo(root, epoch), salt) == P.HashTwo(P.HashTwo(root', epoch'), salt')
    ensures (root == root' && epoch == epoch' && salt == salt')
         || IsCollision(P, CommitClash(P, root, epoch, salt, root', epoch', salt'))
  {
  }
}
