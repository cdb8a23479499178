/**
 The audit hash chain of src/db/audit.rs.  The digest is an arbitrary function into 64 hex characters:
 it cannot be injective, so what is proved is that a forged chain exhibits a collision.
 */
module HashChain {
  import opened Machine

  predicate IsHex(c: char) {
    '0' <= c <= '9' || 'a' <= c <= 'f'
  }

  predicate IsDigest(d: string) {
    |d| == 64 && forall i | 0 <= i < |d| :: IsHex(d[i])
  }

  ghost predicate IsHash(hash: string -> string) {
    forall x: string :: IsDigest(hash(x))
  }

  /** The canonical JSON text of an entry is an object, so it ends in a brace. */
  predicate IsCanonical(entry: string) {
    entry != [] && entry[|entry| - 1] == '}'
  }

  predicate AllCanonical(entries: seq<string>) {
    forall i | 0 <= i < |entries| :: IsCanonical(entries[i])
  }

  /** What `compute_chain_hash` feeds the hasher. */
  function HashInput(entry: string, previous: Option<string>): string {
    match previous
    case None => entry
    case Some(p) => entry + p
  }

  function ChainHash(hash: string -> string, entry: string, previous: Option<string>): string {
    hash(HashInput(entry, previous))
  }

  /** The head of a chain: the hash of its last entry over all before it. */
  function Head(hash: string -> string, entries: seq<string>): Option<string> {
    if entries == [] then None
    else Some(ChainHash(hash, entries[|entries| - 1], Head(hash, entries[..|entries| - 1])))
  }

  /** Computing the head entry by entry, each over the hash before it. */
  method ComputeHead(hash: string -> string, entries: seq<string>) returns (head: Option<string>)
    ensures head == Head(hash, entries)
  {
    head := None;
    for i := 0 to |entries|
      invariant head == Head(hash, entries[..i])
    {
      assert entries[..i + 1][..i] == entries[..i];
      head := Some(ChainHash(hash, entries[i], head));
    }
    assert entries[..|entries|] == entries;
  }

  lemma {:induction false} HeadIsDigest(hash: string -> string, entries: seq<string>)
    requires IsHash(hash) && entries != []
    ensures Head(hash, entries).Some? && IsDigest(Head(hash, entries).value)
  {
  }

  /** The hash input determines both the entry and the previous hash, though nothing separates them. */
  lemma InputInjective(e1: string, p1: Option<string>, e2: string, p2: Option<string>)
    requires IsCanonical(e1) && IsCanonical(e2)
    requires p1.Some? ==> IsDigest(p1.value)
    requires p2.Some? ==> IsDigest(p2.value)
    requires HashInput(e1, p1) == HashInput(e2, p2)
    ensures e1 == e2 && p1 == p2
  {
    var x := HashInput(e1, p1);
    assert x[|x| - 1] == '}' <==> p1.None?;
    assert x[|x| - 1] == '}' <==> p2.None?;
    if p1.Some? {
      assert e1 == x[..|x| - 64] == e2;
      assert p1.value == x[|x| - 64..] == p2.value;
    }
  }

  /** Some entry of the chain is hashed from `x`. */
  predicate Hashes(hash: string -> string, entries: seq<string>, x: string) {
    entries != [] &&
    var init := entries[..|entries| - 1];
    x == HashInput(entries[|entries| - 1], Head(hash, init)) || Hashes(hash, init, x)
  }

  /**
   Binding: two different chains of canonical entries, of whatever lengths, that end in the same head
   contain two different hash inputs with equal digests, one from each chain.
   */
  lemma {:induction false} ChainBinds(hash: string -> string, a: seq<string>, b: seq<string>) returns (x: string, y: string)
    requires IsHash(hash) && AllCanonical(a) && AllCanonical(b)
    requires a != b && Head(hash, a) == Head(hash, b)
    ensures x != y && hash(x) == hash(y)
    ensures Hashes(hash, a, x) && Hashes(hash, b, y)
  {
    assert a != [] && b != [];
    var i, j := |a| - 1, |b| - 1;
    var p, q := Head(hash, a[..i]), Head(hash, b[..j]);
    x, y := HashInput(a[i], p), HashInput(b[j], q);
    if x == y {
      if i > 0 {
        HeadIsDigest(hash, a[..i]);
      }
      if j > 0 {
        HeadIsDigest(hash, b[..j]);
      }
      InputInjective(a[i], p, b[j], q);
      assert a == a[..i] + [a[i]] && b == b[..j] + [b[j]];
      x, y := ChainBinds(hash, a[..i], b[..j]);
    }
  }

  /** So with no collision among the inputs actually hashed, the head determines the whole chain. */
  lemma NoCollisionNoForgery(hash: string -> string, a: seq<string>, b: seq<string>)
    requires IsHash(hash) && AllCanonical(a) && AllCanonical(b)
    requires forall x, y | Hashes(hash, a, x) && Hashes(hash, b, y) && hash(x) == hash(y) :: x == y
    ensures Head(hash, a) == Head(hash, b) <==> a == b
  {
    if a != b && Head(hash, a) == Head(hash, b) {
      var x, y := ChainBinds(hash, a, b);
      assert false;
    }
  }
}
