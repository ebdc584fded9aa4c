/** core/evm.go: the BLOCKHASH closure, with its growing cache of ancestor hashes. */
module GetHashFns {
  import opened Chain
  import opened Options

  /** The hash at height n, walking parent links from h through the store; zero if a
      header on the way is missing. */
  function HashAt(db: Db, h: Header, n: nat): Hash
    requires n < h.number
    decreases h.number
  {
    if n == h.number - 1 then h.parentHash
    else
      var parent := ReadHeader(db, h.parentHash, h.number - 1);
      if parent.None? then Zero else HashAt(db, parent.value, n)
  }

  /** The ancestors of h strictly between height n and h are stored. */
  ghost predicate StoredBetween(db: Db, h: Header, n: nat)
    requires Numbered(h)
  {
    forall k: nat :: n < k < h.number ==> HasHeader(db, Ancestor(h, k))
  }

  /** The walk gives the ancestor's hash exactly when nothing on the way is missing. */
  lemma {:induction false} HashAtIsAncestor(db: Db, h: Header, n: nat)
    requires Numbered(h) && n < h.number
    ensures HashAt(db, h, n) == if StoredBetween(db, h, n) then HashOf(Ancestor(h, n)) else Zero
    decreases h.number
  {
    var p := h.parentHash.header;
    if n < h.number - 1 {
      assert Ancestor(h, h.number - 1) == p;
      if HasHeader(db, p) {
        HashAtIsAncestor(db, p, n);
        assert forall k: nat :: n < k < p.number ==> Ancestor(h, k) == Ancestor(p, k);
        assert StoredBetween(db, p, n) ==> StoredBetween(db, h, n);
      }
    }
  }

  /** The hashes of the first m ancestors of ref, nearest first. */
  ghost function AncestorHashes(ref: Header, m: nat): (hs: seq<Hash>)
    requires Numbered(ref) && m <= ref.number
    ensures |hs| == m
  {
    if m == 0 then [] else AncestorHashes(ref, m - 1) + [HashOf(Ancestor(ref, ref.number - m))]
  }

  lemma {:induction false} AncestorHashesAt(ref: Header, m: nat, i: nat)
    requires Numbered(ref) && i < m <= ref.number
    ensures AncestorHashes(ref, m)[i] == HashOf(Ancestor(ref, ref.number - 1 - i))
  {
    if i < m - 1 {
      AncestorHashesAt(ref, m - 1, i);
    }
  }

  /** The cache holds successive ancestor hashes of ref, never below genesis, and
      every one but the last belongs to a stored header. */
  ghost predicate CacheOk(db: Db, ref: Header, cache: seq<Hash>) {
    && Numbered(ref) && |cache| <= ref.number
    && cache == AncestorHashes(ref, |cache|) && StoredBetween(db, ref, ref.number - |cache|)
  }

  /** One header further: it is stored, and its parent's hash is appended. */
  lemma CacheStep(db: Db, ref: Header, cache: seq<Hash>)
    requires CacheOk(db, ref, cache) && 0 < |cache| < ref.number
    requires HasHeader(db, Ancestor(ref, ref.number - |cache|))
    ensures CacheOk(db, ref, cache + [Ancestor(ref, ref.number - |cache|).parentHash])
  {
    var m := |cache|;
    AncestorParent(ref, ref.number - m);
    var more := cache + [Ancestor(ref, ref.number - m).parentHash];
    assert more == AncestorHashes(ref, m + 1) && |more| == m + 1;
    StoredStep(db, ref, m);
  }

  lemma StoredStep(db: Db, ref: Header, m: nat)
    requires Numbered(ref) && 0 < m < ref.number && StoredBetween(db, ref, ref.number - m)
    requires HasHeader(db, Ancestor(ref, ref.number - m))
    ensures StoredBetween(db, ref, ref.number - (m + 1))
  {
  }

  class GetHashFn {
    const ref: Header
    const db: Db
    var cache: seq<Hash>

    constructor (ref: Header, db: Db)
      requires Numbered(ref)
      ensures this.ref == ref && this.db == db && Valid()
    {
      this.ref, this.db, cache := ref, db, [];
    }

    ghost predicate Valid()
      reads this
    {
      CacheOk(db, ref, cache)
    }

    /** A query answers as a fresh walk would, whatever was asked before. */
    method Query(n: nat) returns (r: Hash)
      requires Valid()
      modifies this`cache
      ensures Valid() && old(cache) <= cache
      ensures r == if n < ref.number then HashAt(db, ref, n) else Zero
    {
      if ref.number <= n {
        return Zero;
      }
      HashAtIsAncestor(db, ref, n);
      if |cache| == 0 {
        AncestorParent(ref, ref.number);
        assert AncestorHashes(ref, 1) == [] + [ref.parentHash];
        cache := cache + [ref.parentHash];
      }
      var idx := ref.number - n - 1;
      if idx < |cache| {
        AncestorHashesAt(ref, |cache|, idx);
        return cache[idx];
      }
      r := WalkTo(n);
    }

    /** Walk on from the last known ancestor, extending the cache, down to height n. */
    method WalkTo(n: nat) returns (r: Hash)
      requires Valid() && 0 < |cache| && n < ref.number - |cache|
      modifies this`cache
      ensures Valid() && old(cache) <= cache
      ensures r == if StoredBetween(db, ref, n) then HashOf(Ancestor(ref, n)) else Zero
    {
      AncestorHashesAt(ref, |cache|, |cache| - 1);
      var lastKnownHash := cache[|cache| - 1];
      var lastKnownNumber: nat := ref.number - |cache|;
      while true
        invariant Valid() && old(cache) <= cache
        invariant 0 < |cache| && lastKnownNumber == ref.number - |cache| && n < lastKnownNumber
        invariant lastKnownHash == HashOf(Ancestor(ref, lastKnownNumber))
        decreases lastKnownNumber
      {
        var header := ReadHeader(db, lastKnownHash, lastKnownNumber);
        if header.None? {
          break;
        }
        AncestorParent(ref, lastKnownNumber);
        CacheStep(db, ref, cache);
        cache := cache + [header.value.parentHash];
        lastKnownHash := header.value.parentHash;
        lastKnownNumber := header.value.number - 1;
        if n == lastKnownNumber {
          return lastKnownHash;
        }
      }
      return Zero;
    }
  }
}
