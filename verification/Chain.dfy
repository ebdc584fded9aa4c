/** The chain database shared by the chain modules: headers, the number-to-hash
    index, total difficulties, transaction lookups, head markers and the freezer.

    Hashing is idealised: a hash is a free term over the header it was taken of.
    It is therefore collision free and never the zero hash. A header's
    transaction root commits to its transactions, so they are part of the header. */
module Chain {
  import opened Options

  type Tx = nat

  // A state root; 0 stands for the empty hash.
  type Root = nat

  datatype Header = Header(
    parentHash: Hash, number: nat, difficulty: nat, time: nat, coinbase: nat, root: Root, txs: seq<Tx>)

  datatype Hash = Zero | HashOf(header: Header)

  /** Heights count parent links up from genesis, as the consensus engine checks. */
  ghost predicate Numbered(h: Header)
    decreases h.number
  {
    h.number == 0 ||
    (h.parentHash.HashOf? && h.parentHash.header.number == h.number - 1 && Numbered(h.parentHash.header))
  }

  ghost predicate NumberFollowsParent(h: Header) {
    h.parentHash.HashOf? ==> h.number == h.parentHash.header.number + 1
  }

  /** The ancestor-or-self of h at height n: the meaning of "the path of h". */
  ghost function Ancestor(h: Header, n: nat): (a: Header)
    requires Numbered(h) && n <= h.number
    ensures Numbered(a) && a.number == n
    decreases h.number
  {
    if n == h.number then h else Ancestor(h.parentHash.header, n)
  }

  lemma {:induction false} AncestorTrans(h: Header, k: nat, n: nat)
    requires Numbered(h) && n <= k <= h.number
    ensures Ancestor(Ancestor(h, k), n) == Ancestor(h, n)
    decreases h.number
  {
    if k < h.number {
      AncestorTrans(h.parentHash.header, k, n);
    }
  }

  lemma {:induction false} AncestorParent(h: Header, n: nat)
    requires Numbered(h) && 0 < n <= h.number
    ensures Ancestor(h, n).parentHash == HashOf(Ancestor(h, n - 1))
    decreases h.number
  {
    if n < h.number {
      AncestorParent(h.parentHash.header, n);
    }
  }

  // ---------------------------------------------------------------- database

  // One item of the freezer, which keeps canonical blocks only.
  datatype Frozen = Frozen(header: Header, td: nat)

  /** Key-value part (stored, bodies, td, canon, txLookup and the head markers)
      and freezer (ancient, indexed by height). */
  datatype Db = Db(
    stored: set<Header>, bodies: set<Header>, td: map<Header, nat>,
    canon: map<nat, Hash>, txLookup: map<Tx, nat>, ancient: seq<Frozen>,
    headHeader: Hash, headBlock: Hash, headFast: Hash)

  predicate InAncient(db: Db, h: Header) {
    h.number < |db.ancient| && db.ancient[h.number].header == h
  }

  predicate HasHeader(db: Db, h: Header) {
    InAncient(db, h) || h in db.stored
  }

  predicate HasBlock(db: Db, h: Header) {
    InAncient(db, h) || (h in db.stored && h in db.bodies)
  }

  /** Headers are keyed by (number, hash). Height -1 stands for the wrapped
      uint64 of "0 - 1", at which nothing is ever stored. */
  function ReadHeader(db: Db, hash: Hash, number: int): Option<Header> {
    if hash.HashOf? && hash.header.number == number && HasHeader(db, hash.header)
    then Some(hash.header) else None
  }

  function ReadBlock(db: Db, hash: Hash, number: int): Option<Header> {
    if hash.HashOf? && hash.header.number == number && HasBlock(db, hash.header)
    then Some(hash.header) else None
  }

  function ReadTd(db: Db, hash: Hash, number: int): Option<nat> {
    if hash.Zero? || hash.header.number != number then None
    else if InAncient(db, hash.header) then Some(db.ancient[number].td)
    else if hash.header in db.td then Some(db.td[hash.header])
    else None
  }

  /** The freezer is read first, the key-value store only if it has no entry. */
  function CanonHash(db: Db, n: nat): Hash {
    if n < |db.ancient| then HashOf(db.ancient[n].header)
    else Entry(db.canon, n)
  }

  // The entry of the key-value index alone.
  function Entry(canon: map<nat, Hash>, n: nat): Hash {
    if n in canon then canon[n] else Zero
  }

  lemma EntryDel(canon: map<nat, Hash>, i: nat)
    ensures forall n: nat :: Entry(canon - {i}, n) == if n == i then Zero else Entry(canon, n)
  {
  }

  lemma EntryPut(canon: map<nat, Hash>, i: nat, x: Hash)
    ensures forall n: nat :: Entry(canon[i := x], n) == if n == i then x else Entry(canon, n)
  {
    forall n: nat
      ensures Entry(canon[i := x], n) == if n == i then x else Entry(canon, n)
    {
      assert n in canon[i := x] <==> n == i || n in canon;
    }
  }

  // ---------------------------------------------------------------- batches

  datatype Op =
    | PutHeader(header: Header)
    | PutTd(header: Header, td: nat)
    | PutCanon(number: nat, hash: Hash)
    | DelCanon(number: nat)
    | DelHeader(header: Header)
    | DelTd(header: Header)
    | DelBody(header: Header)
    | PutTx(tx: Tx, number: nat)
    | DelTx(tx: Tx)
    | PutHeadHeader(hash: Hash)
    | PutHeadBlock(hash: Hash)
    | PutHeadFast(hash: Hash)

  function Apply(db: Db, op: Op): Db {
    match op
    case PutHeader(h) => db.(stored := db.stored + {h})
    case PutTd(h, t) => db.(td := db.td[h := t])
    case PutCanon(n, x) => db.(canon := db.canon[n := x])
    case DelCanon(n) => db.(canon := db.canon - {n})
    case DelHeader(h) => db.(stored := db.stored - {h})
    case DelTd(h) => db.(td := db.td - {h})
    case DelBody(h) => db.(bodies := db.bodies - {h})
    case PutTx(t, n) => db.(txLookup := db.txLookup[t := n])
    case DelTx(t) => db.(txLookup := db.txLookup - {t})
    case PutHeadHeader(x) => db.(headHeader := x)
    case PutHeadBlock(x) => db.(headBlock := x)
    case PutHeadFast(x) => db.(headFast := x)
  }

  /** The database after a batch is flushed. Until then reads do not see it. */
  function Flush(db: Db, batch: seq<Op>): Db {
    if batch == [] then db
    else Apply(Flush(db, batch[..|batch| - 1]), batch[|batch| - 1])
  }

  lemma FlushAppend(db: Db, batch: seq<Op>, op: Op)
    ensures Flush(db, batch + [op]) == Apply(Flush(db, batch), op)
  {
    assert (batch + [op])[..|batch|] == batch;
  }

  lemma FlushOne(db: Db, op: Op)
    ensures Flush(db, [op]) == Apply(db, op)
  {
    assert [op][..0] == [];
  }

  // ---------------------------------------------------------------- the canonical index

  /** The index is the path of head at every height from lo up, with nothing above. */
  ghost predicate ExactFrom(db: Db, head: Header, lo: nat)
    requires Numbered(head)
  {
    forall n: nat :: lo <= n ==>
      CanonHash(db, n) == if n <= head.number then HashOf(Ancestor(head, n)) else Zero
  }

  /** The number-to-hash index is exactly the parent-link path from head to genesis. */
  ghost predicate Exact(db: Db, head: Header) {
    Numbered(head) && ExactFrom(db, head, 0)
  }

  /** Every frozen block lies on the path of head. */
  ghost predicate FrozenOnPath(db: Db, head: Header) {
    Numbered(head) &&
    |db.ancient| <= head.number + 1 &&
    forall n: nat :: n < |db.ancient| ==> db.ancient[n].header == Ancestor(head, n)
  }

  /** An index rewritten above the freezer is exact if and only if the freezer
      already held a prefix of the new path: writes below it never take effect. */
  lemma ExactIffFrozenOnPath(db: Db, head: Header)
    requires Numbered(head) && ExactFrom(db, head, |db.ancient|)
    ensures Exact(db, head) <==> FrozenOnPath(db, head)
  {
    if Exact(db, head) {
      forall n: nat | n < |db.ancient|
        ensures n <= head.number && db.ancient[n].header == Ancestor(head, n)
      {
        assert CanonHash(db, n) == HashOf(db.ancient[n].header);
      }
      assert CanonHash(db, head.number + 1) == Zero;
    }
  }

  /** Two blocks frozen, and a sibling of the second as the new head: an exact index
      that no write can make exact for the sibling. */
  lemma FrozenOffPathExample()
    ensures var genesis := Header(Zero, 0, 0, 0, 0, 1, []);
            var a := Header(HashOf(genesis), 1, 0, 0, 0, 2, []);
            var b := Header(HashOf(genesis), 1, 0, 0, 0, 3, []);
            var frozen := [Frozen(genesis, 0), Frozen(a, 0)];
            forall canon :: var db := Db({}, {}, map[], canon, map[], frozen, Zero, Zero, Zero);
              (canon == map[] ==> Exact(db, a)) && !Exact(db, b)
  {
    var genesis := Header(Zero, 0, 0, 0, 0, 1, []);
    var a := Header(HashOf(genesis), 1, 0, 0, 0, 2, []);
    var b := Header(HashOf(genesis), 1, 0, 0, 0, 3, []);
    var frozen := [Frozen(genesis, 0), Frozen(a, 0)];
    forall canon: map<nat, Hash>
      ensures var db := Db({}, {}, map[], canon, map[], frozen, Zero, Zero, Zero);
              (canon == map[] ==> Exact(db, a)) && !Exact(db, b)
    {
      var db := Db({}, {}, map[], canon, map[], frozen, Zero, Zero, Zero);
      assert CanonHash(db, 1) == HashOf(a) && Ancestor(b, 1) == b;
      assert Ancestor(a, 0) == genesis && Ancestor(a, 1) == a;
    }
  }

  /** Two paths that meet at a height agree at every height below. */
  lemma PathsAgreeBelow(a: Header, b: Header, k: nat, n: nat)
    requires Numbered(a) && Numbered(b) && n <= k <= a.number && k <= b.number
    requires Ancestor(a, k) == Ancestor(b, k)
    ensures Ancestor(a, n) == Ancestor(b, n)
  {
    AncestorTrans(a, k, n);
    AncestorTrans(b, k, n);
  }

  /** A header found in an exact index has its whole path there. */
  lemma CanonicalPath(db: Db, head: Header, h: Header, n: nat)
    requires Exact(db, head) && Numbered(h) && n <= h.number
    requires CanonHash(db, h.number) == HashOf(h)
    ensures h.number <= head.number && Ancestor(head, n) == Ancestor(h, n)
    ensures CanonHash(db, n) == HashOf(Ancestor(h, n))
  {
    AncestorTrans(head, h.number, n);
  }

  // ---------------------------------------------------------------- total difficulty

  /** The sum of difficulties along the path, defined without the database. */
  ghost function TotalDifficulty(h: Header): nat
    requires Numbered(h)
    decreases h.number
  {
    h.difficulty + if h.number == 0 then 0 else TotalDifficulty(h.parentHash.header)
  }

  /** A stored header is well numbered, carries its total difficulty, and has a
      stored parent. */
  ghost predicate RecordOk(db: Db, h: Header) {
    && Numbered(h)
    && ReadTd(db, HashOf(h), h.number) == Some(TotalDifficulty(h))
    && (h.number > 0 ==> HasHeader(db, h.parentHash.header))
  }

  /** All stored headers are sound; no total difficulty is kept without its header. */
  ghost predicate StoreOk(db: Db) {
    (forall h :: h in db.td ==> HasHeader(db, h)) &&
    (forall h {:trigger RecordOk(db, h)} :: HasHeader(db, h) ==> RecordOk(db, h))
  }

  ghost function WithHeader(d: Db, h: Header): Db
    requires Numbered(h)
  {
    d.(stored := d.stored + {h}, td := d.td[h := TotalDifficulty(h)])
  }

  lemma StoreOneMore(d: Db, h: Header)
    requires StoreOk(d) && Numbered(h)
    requires h.number > 0 ==> HasHeader(d, h.parentHash.header)
    ensures StoreOk(WithHeader(d, h))
  {
    var e := WithHeader(d, h);
    forall x: Header | HasHeader(e, x)
      ensures RecordOk(e, x)
    {
      if x != h || InAncient(d, h) {
        assert RecordOk(d, x);
      }
    }
  }

  /** All ancestors of h, and h itself, are stored. */
  ghost predicate Ungapped(db: Db, h: Header) {
    Numbered(h) && forall n: nat :: n <= h.number ==> HasHeader(db, Ancestor(h, n))
  }

  // ---------------------------------------------------------------- deleting a run of index entries

  /** Both reorganisations delete index entries upwards from a height until the
      database (not the pending batch) has none; `top` bounds the index. */
  method DeleteCanonRun(db: Db, batch: seq<Op>, start: nat, ghost top: nat)
    returns (more: seq<Op>, ghost stop: nat)
    requires forall n: nat :: n > top ==> CanonHash(db, n) == Zero
    ensures start <= stop && CanonHash(db, stop) == Zero
    ensures forall n: nat :: start <= n < stop ==> CanonHash(db, n) != Zero
    ensures Flush(db, more) == Flush(db, batch).(canon := Flush(db, more).canon)
    ensures forall n: nat :: Entry(Flush(db, more).canon, n) ==
                             if start <= n < stop then Zero else Entry(Flush(db, batch).canon, n)
  {
    more := batch;
    var i := start;
    ghost var u, v := Flush(db, batch), Flush(db, batch);
    while true
      invariant start <= i && v == Flush(db, more) == u.(canon := v.canon)
      invariant forall n: nat :: start <= n < i ==> CanonHash(db, n) != Zero
      invariant forall n: nat :: Entry(v.canon, n) == if start <= n < i then Zero else Entry(u.canon, n)
      decreases top + 1 - i
    {
      if CanonHash(db, i) == Zero {
        break;
      }
      FlushAppend(db, more, DelCanon(i));
      EntryDel(v.canon, i);
      more := more + [DelCanon(i)];
      v := Flush(db, more);
      i := i + 1;
    }
    stop := i;
  }
}
