/** core/blockchain.go: moving the canonical chain from one block to another,
    with its number-to-hash index and its transaction lookup. */
module BlockReorgs {
  import opened Chain
  import opened Options

  datatype Error = HeadMissing | InvalidOldChain | InvalidNewChain

  datatype Result<+T> = Ok(value: T) | Err(error: Error)

  // ---------------------------------------------------------------- transaction lookups

  function TxSet(h: Header): set<Tx> {
    set t | t in h.txs
  }

  ghost function TxMap(h: Header): map<Tx, nat> {
    map t | t in TxSet(h) :: h.number
  }

  /** Lookups of the blocks of h's path at heights above c, later blocks winning. */
  ghost function TxSpan(h: Header, c: int): map<Tx, nat>
    requires Numbered(h) && -1 <= c <= h.number
    decreases h.number
  {
    if c == h.number then map[]
    else (if h.number == 0 then map[] else TxSpan(h.parentHash.header, c)) + TxMap(h)
  }

  /** The reference lookup: every transaction of the path, at its block's height. */
  ghost function TxIndex(h: Header): map<Tx, nat>
    requires Numbered(h)
  {
    TxSpan(h, -1)
  }

  /** No transaction occurs in two blocks of the path. */
  ghost predicate UniqueTxs(h: Header)
    requires Numbered(h)
    decreases h.number
  {
    h.number == 0 || (UniqueTxs(h.parentHash.header) && TxIndex(h.parentHash.header).Keys !! TxSet(h))
  }

  lemma PlusAssoc(a: map<Tx, nat>, b: map<Tx, nat>, c: map<Tx, nat>)
    ensures (a + b) + c == a + (b + c)
  {
  }

  lemma {:induction false} SpanSplit(h: Header, c: nat)
    requires Numbered(h) && c <= h.number
    ensures TxIndex(h) == TxIndex(Ancestor(h, c)) + TxSpan(h, c)
    decreases h.number
  {
    if c < h.number {
      var p := h.parentHash.header;
      SpanSplit(p, c);
      PlusAssoc(TxIndex(Ancestor(p, c)), TxSpan(p, c), TxMap(h));
    } else {
      assert TxIndex(h) + map[] == TxIndex(h);
    }
  }

  lemma {:induction false} SpanDown(h: Header, c: nat)
    requires Numbered(h) && c <= h.number
    ensures TxSpan(h, c - 1).Keys == TxSpan(h, c).Keys + TxSet(Ancestor(h, c))
    decreases h.number
  {
    if c < h.number {
      SpanDown(h.parentHash.header, c);
    }
  }

  lemma {:induction false} UniqueSplit(h: Header, c: nat)
    requires Numbered(h) && c <= h.number && UniqueTxs(h)
    ensures TxIndex(Ancestor(h, c)).Keys !! TxSpan(h, c).Keys
    decreases h.number
  {
    if c < h.number {
      UniqueSplit(h.parentHash.header, c);
      SpanSplit(h.parentHash.header, c);
    }
  }

  /** Adding the new blocks' lookups and deleting those of dropped blocks that the
      new blocks below the head did not re-add, then adding the head's, gives the
      lookup of the new path if and only if no dropped transaction of the common
      part is left unmined by the new branch. */
  lemma LookupIff(common: map<Tx, nat>, dropped: map<Tx, nat>, added: map<Tx, nat>, head: map<Tx, nat>)
    ensures ((common + dropped + added) - (dropped.Keys - added.Keys)) + head == common + added + head <==>
            dropped.Keys * common.Keys <= added.Keys + head.Keys
  {
    var l, r := ((common + dropped + added) - (dropped.Keys - added.Keys)) + head, common + added + head;
    if dropped.Keys * common.Keys <= added.Keys + head.Keys {
      forall t
        ensures t in l <==> t in r
      {
        assert t in dropped && t in common ==> t in dropped.Keys * common.Keys;
      }
    } else {
      var t :| t in dropped.Keys * common.Keys && t !in added.Keys + head.Keys;
      assert t in r && t !in l;
    }
  }

  // ---------------------------------------------------------------- the fork point

  ghost predicate AgreeAt(a: Header, b: Header, n: int)
    requires Numbered(a) && Numbered(b)
  {
    0 <= n <= a.number && n <= b.number && Ancestor(a, n) == Ancestor(b, n)
  }

  ghost predicate BlocksFrom(db: Db, h: Header, lo: nat, hi: int)
    requires Numbered(h) && hi <= h.number
  {
    forall n: nat :: lo <= n <= hi ==> HasBlock(db, Ancestor(h, n))
  }

  /** c is the highest common height, and every block reorg walks over is stored. */
  ghost predicate Meets(db: Db, a: Header, b: Header, c: nat)
    requires Numbered(a) && Numbered(b)
  {
    && AgreeAt(a, b, c) && (forall n: int :: n > c ==> !AgreeAt(a, b, n))
    && BlocksFrom(db, a, c, a.number) && BlocksFrom(db, b, c, b.number - 1)
  }

  ghost predicate PathDown(chain: seq<Header>, h: Header)
    requires Numbered(h)
  {
    |chain| <= h.number + 1 && forall j :: 0 <= j < |chain| ==> chain[j] == Ancestor(h, h.number - j)
  }

  function SetOf(txs: seq<Tx>): set<Tx> {
    set t | t in txs
  }

  datatype Fork = Fork(commonBlock: Header, newChain: seq<Header>, deletedTxs: seq<Tx>)

  lemma SetOfAppend(txs: seq<Tx>, h: Header)
    ensures SetOf(txs + h.txs) == SetOf(txs) + TxSet(h)
  {
  }

  /** Walk the old branch down to height `target`, gathering its transactions. */
  method ReduceOld(db: Db, oldHead: Header, target: nat)
    returns (oldBlock: Option<Header>, deletedTxs: seq<Tx>, ghost gap: nat)
    requires Numbered(oldHead) && target <= oldHead.number && HasBlock(db, oldHead)
    ensures oldBlock.None? ==> target <= gap <= oldHead.number && !HasBlock(db, Ancestor(oldHead, gap))
    ensures oldBlock.Some? ==> oldBlock.value == Ancestor(oldHead, target)
    ensures oldBlock.Some? ==> BlocksFrom(db, oldHead, target, oldHead.number)
    ensures oldBlock.Some? ==> SetOf(deletedTxs) == TxSpan(oldHead, target).Keys
  {
    oldBlock, deletedTxs, gap := Some(oldHead), [], oldHead.number;
    while oldBlock.Some? && oldBlock.value.number != target
      invariant target <= gap <= oldHead.number
      invariant oldBlock == if HasBlock(db, Ancestor(oldHead, gap)) then Some(Ancestor(oldHead, gap)) else None
      invariant BlocksFrom(db, oldHead, gap + 1, oldHead.number)
      invariant SetOf(deletedTxs) == TxSpan(oldHead, gap).Keys
      decreases gap, oldBlock.Some?
    {
      SpanDown(oldHead, gap);
      SetOfAppend(deletedTxs, oldBlock.value);
      deletedTxs := deletedTxs + oldBlock.value.txs;
      AncestorParent(oldHead, gap);
      oldBlock := ReadBlock(db, oldBlock.value.parentHash, oldBlock.value.number - 1);
      gap := gap - 1;
    }
  }

  /** Walk the new branch down to height `target`, stashing its blocks. */
  method ReduceNew(db: Db, newHead: Header, target: nat)
    returns (newBlock: Option<Header>, newChain: seq<Header>, ghost gap: nat)
    requires Numbered(newHead) && target <= newHead.number
    ensures newBlock.None? ==> target <= gap < newHead.number && !HasBlock(db, Ancestor(newHead, gap))
    ensures newBlock.Some? ==> newBlock.value == Ancestor(newHead, target)
    ensures newBlock.Some? ==> BlocksFrom(db, newHead, target, newHead.number - 1)
    ensures newBlock.Some? ==> PathDown(newChain, newHead) && |newChain| == newHead.number - target
  {
    newBlock, newChain, gap := Some(newHead), [], newHead.number;
    while newBlock.Some? && newBlock.value.number != target
      invariant target <= gap <= newHead.number
      invariant newBlock == if gap == newHead.number || HasBlock(db, Ancestor(newHead, gap))
                            then Some(Ancestor(newHead, gap)) else None
      invariant BlocksFrom(db, newHead, gap + 1, newHead.number - 1)
      invariant PathDown(newChain, newHead) && |newChain| == newHead.number - gap
      decreases gap, newBlock.Some?
    {
      newChain := newChain + [newBlock.value];
      AncestorParent(newHead, gap);
      newBlock := ReadBlock(db, newBlock.value.parentHash, newBlock.value.number - 1);
      gap := gap - 1;
    }
  }

  /** The search of reorg for the common ancestor. It succeeds exactly when the two
      branches meet over stored blocks, and then at the highest common block. */
  method FindFork(db: Db, oldHead: Header, newHead: Header) returns (r: Result<Fork>)
    requires Numbered(oldHead) && Numbered(newHead)
    ensures r.Err? ==> forall c: nat :: !Meets(db, oldHead, newHead, c)
    ensures r == Err(HeadMissing) <==> !HasBlock(db, oldHead)
    ensures r.Ok? ==> Meets(db, oldHead, newHead, r.value.commonBlock.number)
    ensures r.Ok? ==> var c := r.value.commonBlock.number;
            && r.value.commonBlock == Ancestor(newHead, c)
            && PathDown(r.value.newChain, newHead) && |r.value.newChain| == newHead.number - c
            && SetOf(r.value.deletedTxs) == TxSpan(oldHead, c).Keys
  {
    var oldBlock := ReadBlock(db, HashOf(oldHead), oldHead.number);
    if oldBlock.None? {
      assert !HasBlock(db, Ancestor(oldHead, oldHead.number));
      return Err(HeadMissing);
    }
    var newBlock := Some(newHead);
    var deletedTxs: seq<Tx>, newChain: seq<Header> := [], [];
    ghost var gap;
    if oldHead.number > newHead.number {
      oldBlock, deletedTxs, gap := ReduceOld(db, oldHead, newHead.number);
    } else {
      newBlock, newChain, gap := ReduceNew(db, newHead, oldHead.number);
    }
    if oldBlock.None? {
      return Err(InvalidOldChain);
    }
    if newBlock.None? {
      return Err(InvalidNewChain);
    }
    r := ReduceBoth(db, oldHead, newHead, oldBlock.value, newBlock.value, newChain, deletedTxs);
  }

  /** Both branches have been reduced to height k: the blocks above it are stored,
      differ from each other, and have been gathered. */
  ghost predicate ReducedTo(
    db: Db, oldHead: Header, newHead: Header, k: nat, newChain: seq<Header>, deletedTxs: seq<Tx>)
    requires Numbered(oldHead) && Numbered(newHead)
  {
    && k <= oldHead.number && k <= newHead.number
    && (forall n: int :: n > k ==> !AgreeAt(oldHead, newHead, n))
    && BlocksFrom(db, oldHead, k, oldHead.number) && BlocksFrom(db, newHead, k, newHead.number - 1)
    && PathDown(newChain, newHead) && |newChain| == newHead.number - k
    && SetOf(deletedTxs) == TxSpan(oldHead, k).Keys
  }

  lemma ReducedStep(
    db: Db, oldHead: Header, newHead: Header, k: nat, newChain: seq<Header>, deletedTxs: seq<Tx>)
    requires Numbered(oldHead) && Numbered(newHead) && ReducedTo(db, oldHead, newHead, k, newChain, deletedTxs)
    requires Ancestor(oldHead, k) != Ancestor(newHead, k)
    requires k > 0 && HasBlock(db, Ancestor(oldHead, k - 1)) && HasBlock(db, Ancestor(newHead, k - 1))
    ensures ReducedTo(db, oldHead, newHead, k - 1, newChain + [Ancestor(newHead, k)],
                      deletedTxs + Ancestor(oldHead, k).txs)
  {
    SpanDown(oldHead, k);
    SetOfAppend(deletedTxs, Ancestor(oldHead, k));
  }

  lemma ReducedEnds(
    db: Db, oldHead: Header, newHead: Header, k: nat, newChain: seq<Header>, deletedTxs: seq<Tx>)
    requires Numbered(oldHead) && Numbered(newHead) && ReducedTo(db, oldHead, newHead, k, newChain, deletedTxs)
    requires Ancestor(oldHead, k) != Ancestor(newHead, k)
    requires k == 0 || !HasBlock(db, Ancestor(oldHead, k - 1)) || !HasBlock(db, Ancestor(newHead, k - 1))
    ensures forall c: nat :: !Meets(db, oldHead, newHead, c)
  {
    forall c: nat
      ensures !Meets(db, oldHead, newHead, c)
    {
      assert c >= k ==> !AgreeAt(oldHead, newHead, c);
    }
  }

  method ReduceBoth(
    db: Db, oldHead: Header, newHead: Header, o: Header, n: Header, stashed: seq<Header>, gathered: seq<Tx>)
    returns (r: Result<Fork>)
    requires Numbered(oldHead) && Numbered(newHead) && o.number == n.number
    requires ReducedTo(db, oldHead, newHead, o.number, stashed, gathered)
    requires o == Ancestor(oldHead, o.number) && n == Ancestor(newHead, n.number)
    ensures r.Err? ==> r.error != HeadMissing && forall c: nat :: !Meets(db, oldHead, newHead, c)
    ensures r.Ok? ==> var c := r.value.commonBlock.number;
            && ReducedTo(db, oldHead, newHead, c, r.value.newChain, r.value.deletedTxs)
            && r.value.commonBlock == Ancestor(oldHead, c) == Ancestor(newHead, c)
  {
    var oldBlock, newBlock, newChain, deletedTxs := o, n, stashed, gathered;
    while HashOf(oldBlock) != HashOf(newBlock)
      invariant oldBlock.number == newBlock.number
      invariant ReducedTo(db, oldHead, newHead, oldBlock.number, newChain, deletedTxs)
      invariant oldBlock == Ancestor(oldHead, oldBlock.number) && newBlock == Ancestor(newHead, newBlock.number)
      decreases oldBlock.number
    {
      ghost var k, chain, txs := oldBlock.number, newChain, deletedTxs;
      deletedTxs := deletedTxs + oldBlock.txs;
      newChain := newChain + [newBlock];
      if k > 0 {
        AncestorParent(oldHead, k);
        AncestorParent(newHead, k);
      }
      var oldParent := ReadBlock(db, oldBlock.parentHash, oldBlock.number - 1);
      if oldParent.None? {
        ReducedEnds(db, oldHead, newHead, k, chain, txs);
        return Err(InvalidOldChain);
      }
      var newParent := ReadBlock(db, newBlock.parentHash, newBlock.number - 1);
      if newParent.None? {
        ReducedEnds(db, oldHead, newHead, k, chain, txs);
        return Err(InvalidNewChain);
      }
      ReducedStep(db, oldHead, newHead, k, chain, txs);
      oldBlock, newBlock := oldParent.value, newParent.value;
    }
    return Ok(Fork(oldBlock, newChain, deletedTxs));
  }

  lemma SetOfTake(txs: seq<Tx>, i: nat)
    requires i < |txs|
    ensures SetOf(txs[..i + 1]) == SetOf(txs[..i]) + {txs[i]}
  {
    assert txs[..i + 1] == txs[..i] + [txs[i]];
  }

  /** types.HashDifference: the elements of a that are not in b. */
  method HashDifference(a: seq<Tx>, b: seq<Tx>) returns (keep: seq<Tx>)
    ensures SetOf(keep) == SetOf(a) - SetOf(b)
  {
    keep := [];
    for i := 0 to |a|
      invariant SetOf(keep) == SetOf(a[..i]) - SetOf(b)
    {
      SetOfTake(a, i);
      if a[i] !in b {
        keep := keep + [a[i]];
        SetOfTake(keep, |keep| - 1);
        assert keep[..|keep| - 1] + [a[i]] == keep == keep[..|keep|];
      }
    }
    assert a[..|a|] == a;
  }

  method DeleteLookups(db: Db, txs: seq<Tx>) returns (batch: seq<Op>)
    ensures Flush(db, batch) == db.(txLookup := db.txLookup - SetOf(txs))
  {
    batch := [];
    ghost var v := db;
    for i := 0 to |txs|
      invariant v == Flush(db, batch) == db.(txLookup := db.txLookup - SetOf(txs[..i]))
    {
      SetOfTake(txs, i);
      FlushAppend(db, batch, DelTx(txs[i]));
      batch := batch + [DelTx(txs[i])];
      v := Flush(db, batch);
      assert v.txLookup == db.txLookup - SetOf(txs[..i + 1]);
    }
    assert txs[..|txs|] == txs;
  }

  lemma PlusPut(a: map<Tx, nat>, b: map<Tx, nat>, t: Tx, n: nat)
    ensures (a + b)[t := n] == a + b[t := n]
  {
  }

  method WriteLookups(db: Db, block: Header) returns (batch: seq<Op>)
    ensures Flush(db, batch) == db.(txLookup := db.txLookup + TxMap(block))
  {
    batch := [];
    ghost var v := db;
    ghost var m: map<Tx, nat> := map[];
    for i := 0 to |block.txs|
      invariant m.Keys == SetOf(block.txs[..i]) && forall t :: t in m ==> m[t] == block.number
      invariant v == Flush(db, batch) == db.(txLookup := db.txLookup + m)
    {
      SetOfTake(block.txs, i);
      FlushAppend(db, batch, PutTx(block.txs[i], block.number));
      PlusPut(db.txLookup, m, block.txs[i], block.number);
      batch := batch + [PutTx(block.txs[i], block.number)];
      m := m[block.txs[i] := block.number];
      v := Flush(db, batch);
    }
    assert block.txs[..|block.txs|] == block.txs;
    assert m == TxMap(block);
  }

  /** The database after writeHeadBlock. */
  ghost function HeadWritten(db: Db, h: Header): Db {
    db.(canon := db.canon[h.number := HashOf(h)], txLookup := db.txLookup + TxMap(h),
        headHeader := HashOf(h), headBlock := HashOf(h), headFast := HashOf(h))
  }

  /** The batch of writeHeadBlock that marks the block as the head. */
  method MarkHead(db: Db, h: Header) returns (batch: seq<Op>)
    ensures Flush(db, batch) == db.(canon := db.canon[h.number := HashOf(h)],
                                    headHeader := HashOf(h), headBlock := HashOf(h), headFast := HashOf(h))
  {
    var x := HashOf(h);
    batch := [PutCanon(h.number, x)];
    FlushOne(db, PutCanon(h.number, x));
    ghost var v := db.(canon := db.canon[h.number := x]);
    assert Flush(db, batch) == v;
    FlushAppend(db, batch, PutHeadHeader(x));
    batch := batch + [PutHeadHeader(x)];
    v := v.(headHeader := x);
    assert Flush(db, batch) == v;
    FlushAppend(db, batch, PutHeadBlock(x));
    batch := batch + [PutHeadBlock(x)];
    v := v.(headBlock := x);
    assert Flush(db, batch) == v;
    FlushAppend(db, batch, PutHeadFast(x));
    batch := batch + [PutHeadFast(x)];
  }

  /** e differs from d in index, lookup and head markers only. */
  ghost predicate SameStore(d: Db, e: Db) {
    e == d.(canon := e.canon, txLookup := e.txLookup,
            headHeader := e.headHeader, headBlock := e.headBlock, headFast := e.headFast)
  }

  /** The blocks of newHead's path at heights above c and up to m have been written. */
  ghost predicate Written(d: Db, e: Db, newHead: Header, c: nat, m: nat)
    requires Numbered(newHead)
  {
    && c <= m <= newHead.number && SameStore(d, e)
    && e.txLookup == d.txLookup + TxSpan(Ancestor(newHead, m), c)
    && forall n: nat ::
         Entry(e.canon, n) == if c < n <= m then HashOf(Ancestor(newHead, n)) else Entry(d.canon, n)
  }

  lemma WrittenNothing(d: Db, newHead: Header, c: nat)
    requires Numbered(newHead) && c <= newHead.number
    ensures Written(d, d, newHead, c, c)
  {
    assert d.txLookup + map[] == d.txLookup;
  }

  lemma WrittenStep(d: Db, e: Db, newHead: Header, c: nat, m: nat)
    requires Numbered(newHead) && m < newHead.number && Written(d, e, newHead, c, m)
    ensures TxSpan(Ancestor(newHead, m + 1), c) ==
            TxSpan(Ancestor(newHead, m), c) + TxMap(Ancestor(newHead, m + 1))
    ensures Written(d, HeadWritten(e, Ancestor(newHead, m + 1)), newHead, c, m + 1)
  {
    var h := Ancestor(newHead, m + 1);
    AncestorParent(newHead, m + 1);
    EntryPut(e.canon, h.number, HashOf(h));
    PlusAssoc(d.txLookup, TxSpan(Ancestor(newHead, m), c), TxMap(h));
    assert HeadWritten(e, h).canon == e.canon[h.number := HashOf(h)];
  }

  /** Written, and the transactions of those blocks collected. */
  ghost predicate Progress(d: Db, e: Db, newHead: Header, c: nat, m: nat, addedTxs: seq<Tx>)
    requires Numbered(newHead)
  {
    Written(d, e, newHead, c, m) && SetOf(addedTxs) == TxSpan(Ancestor(newHead, m), c).Keys
  }

  lemma ProgressStep(d: Db, e: Db, newHead: Header, c: nat, m: nat, addedTxs: seq<Tx>)
    requires Numbered(newHead) && m < newHead.number && Progress(d, e, newHead, c, m, addedTxs)
    ensures var h := Ancestor(newHead, m + 1);
            Progress(d, HeadWritten(e, h), newHead, c, m + 1, addedTxs + h.txs)
  {
    WrittenStep(d, e, newHead, c, m);
    SetOfAppend(addedTxs, Ancestor(newHead, m + 1));
  }

  // The height reorg fills the index up to.
  ghost function Below(newHead: Header, c: nat): nat {
    if c < newHead.number then newHead.number - 1 else c
  }

  /** Where the index ends after the new blocks were written. */
  ghost function Top(d: Db, e: Db, oldHead: Header, newHead: Header, c: nat, m: nat): (top: nat)
    requires Exact(d, oldHead) && Numbered(newHead) && Written(d, e, newHead, c, m)
    ensures forall n: nat :: n > top ==> CanonHash(e, n) == Zero
  {
    var top := if m > oldHead.number then m else oldHead.number;
    assert forall n: nat :: n > top ==> CanonHash(e, n) == CanonHash(d, n);
    top
  }

  /** The state reorg leaves: above the freezer the index is the path of newHead
      below newHead, and the lookup has lost what only the old branch had mined. */
  ghost predicate Reorged(d: Db, e: Db, oldHead: Header, newHead: Header, c: nat)
    requires Numbered(oldHead) && Numbered(newHead)
  {
    && AgreeAt(oldHead, newHead, c) && SameStore(d, e)
    && var m := Below(newHead, c);
    && (forall n: nat :: |d.ancient| <= n ==>
          Entry(e.canon, n) == if n <= m then HashOf(Ancestor(newHead, n)) else Zero)
    && var added := TxSpan(Ancestor(newHead, m), c);
       e.txLookup == (d.txLookup + added) - (TxSpan(oldHead, c).Keys - added.Keys)
  }

  lemma ReorgedNow(
    d: Db, e: Db, f: Db, g: Db, oldHead: Header, newHead: Header, c: nat, m: nat, stop: nat)
    requires Exact(d, oldHead) && Numbered(newHead) && AgreeAt(oldHead, newHead, c)
    requires Written(d, e, newHead, c, m) && m == Below(newHead, c)
    requires f == e.(txLookup := e.txLookup - (TxSpan(oldHead, c).Keys - TxSpan(Ancestor(newHead, m), c).Keys))
    requires g == f.(canon := g.canon)
    requires m < stop && CanonHash(f, stop) == Zero
    requires forall n: nat :: m < n < stop ==> CanonHash(f, n) != Zero
    requires forall n: nat :: Entry(g.canon, n) == if m + 1 <= n < stop then Zero else Entry(f.canon, n)
    ensures Reorged(d, g, oldHead, newHead, c)
  {
    forall n: nat | |d.ancient| <= n
      ensures Entry(g.canon, n) == if n <= m then HashOf(Ancestor(newHead, n)) else Zero
    {
      assert CanonHash(d, n) == Entry(d.canon, n);
      if n <= c {
        PathsAgreeBelow(oldHead, newHead, c, n);
      }
      if n >= stop {
        assert CanonHash(d, stop) == Zero by {
          assert CanonHash(f, stop) == CanonHash(d, stop);
        }
      }
    }
  }

  /** Writing the head after reorg completes the index exactly if the freezer holds
      a prefix of the new path. */
  lemma ReorgedIndex(d: Db, e: Db, oldHead: Header, newHead: Header, c: nat)
    requires Exact(d, oldHead) && Numbered(newHead) && Reorged(d, e, oldHead, newHead, c)
    ensures Exact(HeadWritten(e, newHead), newHead) == FrozenOnPath(d, newHead)
  {
    var g := HeadWritten(e, newHead);
    EntryPut(e.canon, newHead.number, HashOf(newHead));
    forall n: nat | |g.ancient| <= n
      ensures CanonHash(g, n) == if n <= newHead.number then HashOf(Ancestor(newHead, n)) else Zero
    {
      assert g.ancient == d.ancient && CanonHash(g, n) == Entry(g.canon, n);
      assert Entry(g.canon, n) == if n == newHead.number then HashOf(newHead) else Entry(e.canon, n);
    }
    ExactIffFrozenOnPath(g, newHead);
  }

  /** Every transaction a dropped block repeats from the common part is mined again
      by the new branch. */
  ghost predicate DropsAreSafe(oldHead: Header, newHead: Header, c: nat)
    requires Numbered(oldHead) && Numbered(newHead) && AgreeAt(oldHead, newHead, c)
  {
    TxSpan(oldHead, c).Keys * TxIndex(Ancestor(oldHead, c)).Keys <= TxSpan(newHead, c).Keys + TxSet(newHead)
  }

  /** ... and the lookup exactly if dropped blocks repeat nothing that is lost. */
  lemma ReorgedLookup(d: Db, e: Db, oldHead: Header, newHead: Header, c: nat)
    requires Exact(d, oldHead) && Numbered(newHead) && Reorged(d, e, oldHead, newHead, c)
    requires d.txLookup == TxIndex(oldHead)
    ensures HeadWritten(e, newHead).txLookup == TxIndex(newHead) <==> DropsAreSafe(oldHead, newHead, c)
  {
    var common, dropped := TxIndex(Ancestor(oldHead, c)), TxSpan(oldHead, c);
    var added, head := TxSpan(Ancestor(newHead, Below(newHead, c)), c), TxMap(newHead);
    SpanSplit(oldHead, c);
    LookupIff(common, dropped, added, head);
    NewLookup(newHead, c);
  }

  /** The new path's lookup, split where reorg and writeHeadBlock share the work. */
  lemma NewLookup(newHead: Header, c: nat)
    requires Numbered(newHead) && c <= newHead.number
    ensures var added, head := TxSpan(Ancestor(newHead, Below(newHead, c)), c), TxMap(newHead);
            && TxIndex(newHead) == TxIndex(Ancestor(newHead, c)) + added + head
            && TxSpan(newHead, c).Keys + TxSet(newHead) == added.Keys + head.Keys
  {
    var common := TxIndex(Ancestor(newHead, c));
    var added, head := TxSpan(Ancestor(newHead, Below(newHead, c)), c), TxMap(newHead);
    SpanSplit(newHead, c);
    if c < newHead.number {
      PlusAssoc(common, added, head);
    } else {
      assert common + added + head == common;
    }
  }

  /** The lookups lost are exactly those of transactions of the common part that a dropped
      block repeats and the new branch does not mine again. */
  lemma LostLookups(d: Db, e: Db, oldHead: Header, newHead: Header, c: nat, t: Tx)
    requires Exact(d, oldHead) && Numbered(newHead) && Reorged(d, e, oldHead, newHead, c)
    requires d.txLookup == TxIndex(oldHead)
    ensures t in TxIndex(newHead) && t !in HeadWritten(e, newHead).txLookup <==>
            t in TxSpan(oldHead, c) && t in TxIndex(Ancestor(oldHead, c)) &&
            t !in TxSpan(newHead, c) && t !in TxSet(newHead)
  {
    SpanSplit(oldHead, c);
    NewLookup(newHead, c);
    var added, head := TxSpan(Ancestor(newHead, Below(newHead, c)), c), TxMap(newHead);
    assert t in TxSpan(newHead, c).Keys + TxSet(newHead) <==> t in added.Keys + head.Keys;
  }

  /** A dropped block that repeats a transaction of the common block, next to a new
      head that does not: the lookup of the common block's transaction is lost. */
  lemma LookupLostExample(d: Db, e: Db)
    requires var genesis := Header(Zero, 0, 0, 0, 0, 1, [7]);
             var dropped := Header(HashOf(genesis), 1, 0, 0, 0, 2, [7]);
             var added := Header(HashOf(genesis), 1, 0, 0, 0, 3, []);
             Exact(d, dropped) && d.txLookup == TxIndex(dropped) && Reorged(d, e, dropped, added, 0)
    ensures var added := Header(HashOf(Header(Zero, 0, 0, 0, 0, 1, [7])), 1, 0, 0, 0, 3, []);
            7 in TxIndex(added) && 7 !in HeadWritten(e, added).txLookup
  {
    var genesis := Header(Zero, 0, 0, 0, 0, 1, [7]);
    var dropped := Header(HashOf(genesis), 1, 0, 0, 0, 2, [7]);
    var added := Header(HashOf(genesis), 1, 0, 0, 0, 3, []);
    assert Ancestor(dropped, 0) == genesis == Ancestor(added, 0);
    assert 7 in TxMap(genesis) && 7 in TxMap(dropped) && TxSpan(genesis, 0) == map[];
    assert TxSpan(dropped, 0) == TxSpan(genesis, 0) + TxMap(dropped);
    assert TxSpan(added, 0) == TxSpan(genesis, 0) + TxMap(added);
    LostLookups(d, e, dropped, added, 0, 7);
  }

  lemma UniqueDropsAreSafe(oldHead: Header, newHead: Header, c: nat)
    requires Numbered(oldHead) && Numbered(newHead) && AgreeAt(oldHead, newHead, c) && UniqueTxs(oldHead)
    ensures DropsAreSafe(oldHead, newHead, c)
  {
    UniqueSplit(oldHead, c);
  }

  /** Extending the head is the reorganisation that drops and adds nothing. */
  lemma ExtensionIsReorged(d: Db, oldHead: Header, newHead: Header)
    requires Exact(d, oldHead) && Numbered(newHead) && NumberFollowsParent(newHead)
    requires newHead.parentHash == HashOf(oldHead)
    ensures Reorged(d, d, oldHead, newHead, oldHead.number)
  {
    var none: map<Tx, nat> := map[];
    assert (d.txLookup + none) - (none.Keys - none.Keys) == d.txLookup;
    forall n: nat | |d.ancient| <= n
      ensures Entry(d.canon, n) == if n <= oldHead.number then HashOf(Ancestor(newHead, n)) else Zero
    {
      assert CanonHash(d, n) == Entry(d.canon, n);
    }
  }

  /** Delete the lookups in `diffs`, then every index entry above `number`. */
  method DeleteUseless(
    ghost d: Db, e: Db, ghost oldHead: Header, ghost newHead: Header, ghost c: nat, diffs: seq<Tx>, number: nat)
    returns (g: Db)
    requires Exact(d, oldHead) && Numbered(newHead) && AgreeAt(oldHead, newHead, c)
    requires number == Below(newHead, c) && Written(d, e, newHead, c, number)
    requires SetOf(diffs) == TxSpan(oldHead, c).Keys - TxSpan(Ancestor(newHead, number), c).Keys
    ensures Reorged(d, g, oldHead, newHead, c)
  {
    var indexesBatch := DeleteLookups(e, diffs);
    var f := Flush(e, indexesBatch);
    ghost var top := Top(d, e, oldHead, newHead, c, number);
    assert forall n: nat :: CanonHash(f, n) == CanonHash(e, n);
    // The scan reads the index only, which the flush above leaves alone.
    var blockBatch, stop := DeleteCanonRun(f, [], number + 1, top);
    g := Flush(f, blockBatch);
    ReorgedNow(d, e, f, g, oldHead, newHead, c, number, stop);
  }

  class BlockChain {
    var db: Db
    var currentHeader: Header
    var currentBlock: Header
    var currentSnapBlock: Header

    /** Index and lookup are exactly those of the head block's path, and every
        marker, durable or in memory, names the head block. */
    ghost predicate Valid()
      reads this
    {
      && Exact(db, currentBlock) && db.txLookup == TxIndex(currentBlock)
      && currentHeader == currentSnapBlock == currentBlock
      && db.headHeader == db.headBlock == db.headFast == HashOf(currentBlock)
    }

    /** writeHeadBlock: two batches, over disjoint parts of the database. */
    method WriteHeadBlock(block: Header)
      modifies this
      ensures db == HeadWritten(old(db), block)
      ensures currentHeader == currentSnapBlock == currentBlock == block
    {
      var lookups := WriteLookups(db, block);
      db := Flush(db, lookups);
      var batch := MarkHead(db, block);
      db := Flush(db, batch);
      currentHeader, currentSnapBlock, currentBlock := block, block, block;
    }

    /** reorg: walk both branches to their common block, write the new blocks but the
        head, drop the lookups of deleted transactions and the index above. On any
        missing block nothing, durable or in memory, has changed. */
    method Reorg(newHead: Header) returns (r: Result<()>, ghost c: nat)
      requires Valid() && Numbered(newHead)
      modifies this
      ensures r.Err? ==> db == old(db) && currentHeader == old(currentHeader)
      ensures r.Err? ==> currentBlock == old(currentBlock) && currentSnapBlock == old(currentSnapBlock)
      ensures r.Err? ==> forall k: nat :: !Meets(old(db), old(currentBlock), newHead, k)
      ensures r.Ok? ==> Meets(old(db), old(currentBlock), newHead, c)
      ensures r.Ok? ==> Reorged(old(db), db, old(currentBlock), newHead, c)
    {
      c := 0;
      var fork := FindFork(db, currentBlock, newHead);
      if fork.Err? {
        return Err(fork.error), c;
      }
      var Fork(commonBlock, newChain, deletedTxs) := fork.value;
      c := commonBlock.number;
      ghost var d, oldHead := db, currentBlock;
      var addedTxs := WriteNewChain(newHead, newChain, c);
      var diffs := HashDifference(deletedTxs, addedTxs);
      var number := commonBlock.number;
      if |newChain| > 1 {
        number := newChain[1].number;
      }
      db := DeleteUseless(d, db, oldHead, newHead, c, diffs, number);
      return Ok(()), c;
    }

    /** Make newHead the canonical head, as writeBlockAndSetHead and SetCanonical do:
        reorg unless it extends the head, then writeHeadBlock. */
    method SetHeadBlock(newHead: Header) returns (r: Result<()>, ghost c: nat)
      requires Valid() && Numbered(newHead) && NumberFollowsParent(newHead)
      modifies this
      ensures r.Err? ==> db == old(db) && Valid() && currentBlock == old(currentBlock)
      ensures r.Err? ==> forall k: nat :: !Meets(old(db), old(currentBlock), newHead, k)
      ensures r.Ok? ==> currentBlock == currentHeader == currentSnapBlock == newHead
      ensures r.Ok? ==> AgreeAt(old(currentBlock), newHead, c) && SameStore(old(db), db)
      ensures r.Ok? ==> Exact(db, newHead) == FrozenOnPath(old(db), newHead)
      ensures r.Ok? ==> (db.txLookup == TxIndex(newHead)) == DropsAreSafe(old(currentBlock), newHead, c)
      ensures r.Ok? && FrozenOnPath(old(db), newHead) && UniqueTxs(old(currentBlock)) ==> Valid()
    {
      ghost var d, oldHead := db, currentBlock;
      if newHead.parentHash != HashOf(currentBlock) {
        r, c := Reorg(newHead);
        if r.Err? {
          return;
        }
      } else {
        ExtensionIsReorged(db, currentBlock, newHead);
        r, c := Ok(()), currentBlock.number;
      }
      ReorgedIndex(d, db, oldHead, newHead, c);
      ReorgedLookup(d, db, oldHead, newHead, c);
      if UniqueTxs(oldHead) {
        UniqueDropsAreSafe(oldHead, newHead, c);
      }
      WriteHeadBlock(newHead);
    }

    /** The next block of the new chain, and its transactions. */
    method WriteNext(block: Header, txs: seq<Tx>, ghost d: Db, ghost newHead: Header, ghost c: nat, ghost m: nat)
      returns (addedTxs: seq<Tx>)
      requires Numbered(newHead) && m < newHead.number && block == Ancestor(newHead, m + 1)
      requires Progress(d, db, newHead, c, m, txs)
      modifies this
      ensures Progress(d, db, newHead, c, m + 1, addedTxs)
    {
      ProgressStep(d, db, newHead, c, m, txs);
      WriteHeadBlock(block);
      addedTxs := txs + block.txs;
    }

    /** Insert the new chain, except its head, in increasing order. */
    method WriteNewChain(newHead: Header, newChain: seq<Header>, ghost c: nat) returns (addedTxs: seq<Tx>)
      requires Numbered(newHead) && c <= newHead.number
      requires PathDown(newChain, newHead) && |newChain| == newHead.number - c
      modifies this
      ensures Written(old(db), db, newHead, c, Below(newHead, c))
      ensures SetOf(addedTxs) == TxSpan(Ancestor(newHead, Below(newHead, c)), c).Keys
    {
      ghost var d, m: nat := db, c;
      var i := |newChain| - 1;
      addedTxs := [];
      WrittenNothing(db, newHead, c);
      while i >= 1
        invariant -1 <= i && (i == -1 ==> newChain == []) && i < |newChain|
        invariant m == newHead.number - i - 1 && Progress(d, db, newHead, c, m, addedTxs)
        decreases i
      {
        assert newChain[i] == Ancestor(newHead, m + 1);
        addedTxs := WriteNext(newChain[i], addedTxs, d, newHead, c, m);
        i, m := i - 1, m + 1;
      }
    }
  }
}
