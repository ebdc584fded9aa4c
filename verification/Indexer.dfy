/** core/chain_indexer.go: sections of the canonical chain, their stored heads, and the
    indexer object. */
module Indexers {
  import opened Chain
  import opened Options

  type Pos = n: nat | n > 0 witness 1

  /** Persistent and in-memory indexer state. heads maps a section to the hash of its
      last block. */
  datatype Ix = Ix(
    size: Pos, confirms: nat, stored: nat, known: nat, cascaded: int,
    heads: map<nat, Hash>, checkpointSections: nat, checkpointHead: Hash)

  function SectionHead(heads: map<nat, Hash>, section: int): Hash {
    if section in heads then heads[section] else Zero
  }

  // ---------------------------------------------------------------- locked operations, on values

  function SetValid(x: Ix, sections: nat): Ix {
    x.(stored := sections, heads := map i | i in x.heads && !(sections <= i < x.stored) :: x.heads[i])
  }

  /** The last stored section head is the canonical block of its height. */
  predicate LastIsCanonical(x: Ix, db: Db)
    requires x.stored > 0
  {
    SectionHead(x.heads, x.stored - 1) == CanonHash(db, x.stored * x.size - 1)
  }

  function VerifyLast(x: Ix, db: Db): Ix
    decreases x.stored
  {
    if x.stored > x.checkpointSections && !LastIsCanonical(x, db) then VerifyLast(SetValid(x, x.stored - 1), db)
    else x
  }

  function Reorged(x: Ix, head: nat): Ix {
    var sections := (head + 1) / x.size;
    var known := if sections < x.checkpointSections then 0 else sections;
    var stored := if sections < x.checkpointSections then x.checkpointSections else sections;
    var y := x.(known := if known < x.known then known else x.known);
    var z := if stored < y.stored then SetValid(y, stored) else y;
    if known * x.size < z.cascaded then z.(cascaded := known * x.size) else z
  }

  function Advanced(x: Ix, db: Db, head: nat): Ix {
    if head < x.confirms then x
    else
      var complete := (head + 1 - x.confirms) / x.size;
      var sections := if complete < x.checkpointSections then 0 else complete;
      if sections <= x.known then x
      else if x.known < x.checkpointSections && CanonHash(db, x.checkpointSections * x.size - 1) != x.checkpointHead
      then x
      else x.(known := sections)
  }

  function Checkpointed(x: Ix, section: nat, head: Hash): Ix {
    if x.checkpointSections >= section + 1 || section < x.stored then x
    else
      SetValid(x.(checkpointSections := section + 1, checkpointHead := head, heads := x.heads[section := head]),
               section + 1)
  }

  /** The end of an update: store the new head if nothing moved underneath, otherwise
      fall back. */
  function Finished(x: Ix, db: Db, section: nat, oldHead: Hash, newHead: Option<Hash>): Ix {
    if newHead.Some? && (section == 0 || oldHead == SectionHead(x.heads, section - 1)) then
      var y := SetValid(x.(heads := x.heads[section := newHead.value]), section + 1);
      y.(cascaded := y.stored * y.size - 1)
    else
      var y := VerifyLast(x, db);
      y.(known := y.stored)
  }

  // ---------------------------------------------------------------- what stored heads mean

  /** Following exactly n parent links from x gives prev. */
  ghost predicate Climb(prev: Hash, x: Hash, n: nat) {
    if n == 0 then x == prev else x.HashOf? && Climb(prev, x.header.parentHash, n - 1)
  }

  /** Section i is stored and its head is exactly one section above the previous one
      (above the zero hash for section 0). */
  ghost predicate SectionOk(x: Ix, i: nat) {
    && i in x.heads
    && (i > 0 ==> i - 1 in x.heads && x.heads[i - 1].HashOf?)
    && Climb(SectionHead(x.heads, i - 1), x.heads[i], x.size)
  }

  /** The invariant of the indexer: everything from the checkpoint up is linked. */
  ghost predicate Linked(x: Ix) {
    && (forall i :: i in x.heads ==> i < x.stored)
    && (x.stored > 0 ==> x.stored - 1 in x.heads && x.heads[x.stored - 1].HashOf?)
    && (forall i: nat :: x.checkpointSections <= i < x.stored ==> SectionOk(x, i))
  }

  lemma ClimbIsHash(prev: Hash, x: Hash, n: nat)
    requires n > 0 && Climb(prev, x, n)
    ensures x.HashOf?
  {
  }

  lemma LinkedShrinks(x: Ix, n: nat)
    requires Linked(x) && n <= x.stored && (n == 0 || x.checkpointSections <= n)
    ensures Linked(SetValid(x, n))
  {
    var y := SetValid(x, n);
    forall i: nat | x.checkpointSections <= i < n
      ensures SectionOk(y, i)
    {
      assert SectionOk(x, i);
    }
    if 0 < n < x.stored {
      assert SectionOk(x, n);
    }
  }

  lemma {:induction false} LinkedVerified(x: Ix, db: Db)
    requires Linked(x)
    ensures Linked(VerifyLast(x, db))
    decreases x.stored
  {
    if x.stored > x.checkpointSections && !LastIsCanonical(x, db) {
      LinkedShrinks(x, x.stored - 1);
      LinkedVerified(SetValid(x, x.stored - 1), db);
    }
  }

  lemma LinkedReorged(x: Ix, head: nat)
    requires Linked(x)
    ensures Linked(Reorged(x, head))
  {
    var sections := (head + 1) / x.size;
    var stored := if sections < x.checkpointSections then x.checkpointSections else sections;
    if stored < x.stored {
      LinkedShrinks(x, stored);
    }
    LinkedFrame(x, x.(known := Reorged(x, head).known));
    LinkedFrame(SetValid(x, if stored < x.stored then stored else x.stored), Reorged(x, head));
  }

  /** The counters do not matter to the links. */
  lemma LinkedFrame(x: Ix, y: Ix)
    requires y == x.(known := y.known, cascaded := y.cascaded)
    ensures Linked(x) ==> Linked(y)
  {
    if Linked(x) {
      forall i: nat | y.checkpointSections <= i < y.stored
        ensures SectionOk(y, i)
      {
        assert SectionOk(x, i);
      }
    }
  }

  /** Sections are counted by division: the complete ones among the first n blocks. */
  lemma SectionsOf(n: nat, size: Pos, i: nat)
    ensures i < n / size <==> (i + 1) * size <= n
  {
    var q := n / size;
    assert n == q * size + n % size;
    if i < q {
      assert q * size == (i + 1) * size + (q - i - 1) * size;
      Product(q - i - 1, size);
    } else {
      assert (i + 1) * size == q * size + size + (i - q) * size;
      Product(i - q, size);
    }
  }

  lemma Product(a: nat, b: nat)
    ensures 0 <= a * b
  {
  }

  /** A reorganisation to height `head` drops, above the checkpoint, exactly the stored
      sections that reach beyond it, and touches no other head. */
  lemma ReorgedDrops(x: Ix, head: nat, i: nat)
    requires x.checkpointSections <= i < x.stored
    ensures var y := Reorged(x, head);
            && (i < y.stored <==> (i + 1) * x.size <= head + 1)
            && (i < y.stored ==> SectionHead(y.heads, i) == SectionHead(x.heads, i))
            && y.known <= x.known
  {
    SectionsOf(head + 1, x.size, i);
  }

  /** A new head makes known exactly the sections that are complete and confirmed, or
      nothing: never a section too many, never fewer than before. */
  lemma AdvancedKnows(x: Ix, db: Db, head: nat, i: nat)
    ensures var y := Advanced(x, db, head);
            && x.known <= y.known && y == x.(known := y.known)
            && (x.known <= i < y.known ==> (i + 1) * x.size + x.confirms <= head + 1)
            && (x.known < y.known && (i + 1) * x.size + x.confirms <= head + 1 ==> i < y.known)
            && (x.known < x.checkpointSections && x.known < y.known ==>
                  CanonHash(db, x.checkpointSections * x.size - 1) == x.checkpointHead)
  {
    if head >= x.confirms {
      SectionsOf(head + 1 - x.confirms, x.size, i);
    }
  }

  lemma LinkedCheckpointed(x: Ix, section: nat, head: Hash)
    requires Linked(x) && head.HashOf?
    ensures Linked(Checkpointed(x, section, head))
  {
  }

  /** Storing a processed section keeps the links, even if other calls shrank or
      raised the stored count in the meantime. */
  lemma LinkedFinished(x: Ix, db: Db, section: nat, oldHead: Hash, newHead: Option<Hash>)
    requires Linked(x)
    requires newHead.Some? ==> Climb(oldHead, newHead.value, x.size)
    requires if section == 0 then oldHead == Zero else oldHead.HashOf?
    ensures Linked(Finished(x, db, section, oldHead, newHead))
  {
    var z := Finished(x, db, section, oldHead, newHead);
    if newHead.Some? && (section == 0 || oldHead == SectionHead(x.heads, section - 1)) {
      ClimbIsHash(oldHead, newHead.value, x.size);
      assert section <= x.stored;
      forall i: nat | z.checkpointSections <= i < z.stored
        ensures SectionOk(z, i)
      {
        assert i < section ==> SectionOk(x, i);
      }
    } else {
      LinkedVerified(x, db);
      LinkedFrame(VerifyLast(x, db), z);
    }
  }

  lemma SizesKept(x: Ix, db: Db)
    ensures VerifyLast(x, db).size == x.size && VerifyLast(x, db).checkpointSections == x.checkpointSections
    ensures VerifyLast(x, db).stored <= x.stored
    decreases x.stored
  {
    if x.stored > x.checkpointSections && !LastIsCanonical(x, db) {
      SizesKept(SetValid(x, x.stored - 1), db);
    }
  }

  // ---------------------------------------------------------------- comparing only the last head

  /** Links below a canonical block stay canonical. */
  lemma {:induction false} ClimbStaysCanonical(db: Db, head: Header, prev: Hash, x: Hash, n: nat, k: nat)
    requires Exact(db, head) && k <= n && x.HashOf? && CanonHash(db, n) == x && Climb(prev, x, k)
    ensures CanonHash(db, n - k) == prev
    decreases k
  {
    if k > 0 {
      AncestorParent(head, n);
      ClimbStaysCanonical(db, head, prev, x.header.parentHash, n - 1, k - 1);
    }
  }

  ghost predicate HeadCanonical(x: Ix, db: Db, i: nat) {
    i in x.heads && x.heads[i] == CanonHash(db, (i + 1) * x.size - 1)
  }

  /** Every stored head from the checkpoint up to below `top` is one section above the
      previous one. Nothing is said about missing heads. */
  ghost predicate Sound(x: Ix, top: nat) {
    forall i: nat :: x.checkpointSections <= i < top && i in x.heads ==> SectionOk(x, i)
  }

  lemma {:induction false} CanonicalBelow(x: Ix, db: Db, head: Header, i: nat, j: nat)
    requires Sound(x, x.stored) && Exact(db, head) && i <= j < x.stored && x.checkpointSections <= i + 1
    requires HeadCanonical(x, db, j) && x.heads[j].HashOf?
    ensures HeadCanonical(x, db, i)
    decreases j
  {
    if i < j {
      assert SectionOk(x, j);
      assert (j + 1) * x.size - 1 - x.size == j * x.size - 1;
      ClimbStaysCanonical(db, head, x.heads[j - 1], x.heads[j], (j + 1) * x.size - 1, x.size);
      CanonicalBelow(x, db, head, i, j - 1);
    }
  }

  lemma {:induction false} VerifyStops(x: Ix, db: Db)
    ensures var y := VerifyLast(x, db); y.stored <= x.checkpointSections || LastIsCanonical(y, db)
    decreases x.stored
  {
    if x.stored > x.checkpointSections && !LastIsCanonical(x, db) {
      VerifyStops(SetValid(x, x.stored - 1), db);
    }
  }

  lemma {:induction false} VerifyDropsOnly(x: Ix, db: Db, i: nat)
    requires VerifyLast(x, db).stored <= i < x.stored
    ensures i >= x.checkpointSections && !HeadCanonical(x, db, i)
    decreases x.stored
  {
    if i < x.stored - 1 {
      VerifyDropsOnly(SetValid(x, x.stored - 1), db, i);
    }
  }

  lemma {:induction false} VerifyKeeps(x: Ix, db: Db, i: nat)
    requires i < VerifyLast(x, db).stored
    ensures SectionHead(VerifyLast(x, db).heads, i) == SectionHead(x.heads, i)
    decreases x.stored
  {
    if x.stored > x.checkpointSections && !LastIsCanonical(x, db) {
      SizesKept(SetValid(x, x.stored - 1), db);
      VerifyKeeps(SetValid(x, x.stored - 1), db, i);
    }
  }

  /** verifyLastHead looks at one head at a time from the top, yet when it stops above
      the checkpoint every stored head from the checkpoint up is canonical. */
  lemma LastHeadIsEnough(x: Ix, db: Db, head: Header, i: nat)
    requires Linked(x) && Exact(db, head)
    requires VerifyLast(x, db).stored > x.checkpointSections
    requires x.checkpointSections <= i + 1 && i < VerifyLast(x, db).stored
    ensures HeadCanonical(VerifyLast(x, db), db, i)
  {
    var y := VerifyLast(x, db);
    VerifyStops(x, db);
    SizesKept(x, db);
    LinkedVerified(x, db);
    assert Sound(y, y.stored);
    CanonicalBelow(y, db, head, i, y.stored - 1);
  }

  // ---------------------------------------------------------------- the indexer object

  class ChainIndexer {
    const sectionSize: Pos
    const confirmsReq: nat
    var storedSections: nat
    var knownSections: nat
    var cascadedHead: int
    var sectionHeads: map<nat, Hash>
    var checkpointSections: nat
    var checkpointHead: Hash

    constructor (section: Pos, confirm: nat)
      ensures Value() == Ix(section, confirm, 0, 0, 0, map[], 0, Zero) && Linked(Value())
    {
      sectionSize, confirmsReq := section, confirm;
      storedSections, knownSections, cascadedHead, sectionHeads := 0, 0, 0, map[];
      checkpointSections, checkpointHead := 0, Zero;
    }

    ghost function Value(): Ix
      reads this
    {
      Ix(sectionSize, confirmsReq, storedSections, knownSections, cascadedHead, sectionHeads,
         checkpointSections, checkpointHead)
    }

    method SetValidSections(sections: nat)
      modifies this`storedSections, this`sectionHeads
      ensures Value() == SetValid(old(Value()), sections)
    {
      ghost var n, heads := storedSections, sectionHeads;
      while storedSections > sections
        invariant storedSections <= n && (storedSections == n || sections <= storedSections)
        invariant sectionHeads == map i | i in heads && !(storedSections <= i < n) :: heads[i]
        decreases storedSections
      {
        storedSections := storedSections - 1;
        sectionHeads := sectionHeads - {storedSections};
      }
      storedSections := sections;
    }

    method VerifyLastHead(db: Db)
      modifies this`storedSections, this`sectionHeads
      ensures Value() == VerifyLast(old(Value()), db)
    {
      while storedSections > 0 && storedSections > checkpointSections
        invariant VerifyLast(Value(), db) == VerifyLast(old(Value()), db)
        decreases storedSections
      {
        if SectionHead(sectionHeads, storedSections - 1) == CanonHash(db, storedSections * sectionSize - 1) {
          return;
        }
        SetValidSections(storedSections - 1);
      }
    }

    /** AddCheckpoint: ignored if it lies below what is stored or known. */
    method AddCheckpoint(section: nat, shead: Hash)
      modifies this`storedSections, this`sectionHeads, this`checkpointSections, this`checkpointHead
      ensures Value() == Checkpointed(old(Value()), section, shead)
      ensures old(Linked(Value())) && shead.HashOf? ==> Linked(Value())
    {
      if old(Linked(Value())) && shead.HashOf? {
        LinkedCheckpointed(Value(), section, shead);
      }
      if checkpointSections >= section + 1 || section < storedSections {
        return;
      }
      checkpointSections := section + 1;
      checkpointHead := shead;
      sectionHeads := sectionHeads[section := shead];
      SetValidSections(section + 1);
    }

    method NewHead(db: Db, head: nat, reorg: bool)
      modifies this`storedSections, this`sectionHeads, this`knownSections, this`cascadedHead
      ensures Value() == if reorg then Reorged(old(Value()), head) else Advanced(old(Value()), db, head)
      ensures old(Linked(Value())) ==> Linked(Value())
    {
      if old(Linked(Value())) {
        LinkedReorged(Value(), head);
        LinkedFrame(Value(), Advanced(Value(), db, head));
      }
      if reorg {
        var known := (head + 1) / sectionSize;
        var stored := known;
        if known < checkpointSections {
          known := 0;
        }
        if stored < checkpointSections {
          stored := checkpointSections;
        }
        if known < knownSections {
          knownSections := known;
        }
        if stored < storedSections {
          SetValidSections(stored);
        }
        if known * sectionSize < cascadedHead {
          cascadedHead := known * sectionSize;
        }
        return;
      }
      if head >= confirmsReq {
        var sections := (head + 1 - confirmsReq) / sectionSize;
        if sections < checkpointSections {
          sections := 0;
        }
        if sections > knownSections {
          if knownSections < checkpointSections {
            if CanonHash(db, checkpointSections * sectionSize - 1) != checkpointHead {
              return;
            }
          }
          knownSections := sections;
        }
      }
    }

    /** processSection over a chain that stays still, for a backend of which it is known
        whether its Reset, its Process of each header, and its Commit succeed. It succeeds
        exactly when they do and the section's canonical headers are stored and linked to
        oldHead, and then returns the canonical head of the section. A failed Reset drops
        all sections; nothing else is changed. */
    method ProcessSection(db: Db, section: nat, oldHead: Hash, reset: bool, process: Header -> bool, commit: bool)
      returns (r: Option<Hash>, ghost at: nat)
      modifies this`storedSections, this`sectionHeads
      ensures Value() == if reset then old(Value()) else SetValid(old(Value()), 0)
      ensures r.Some? ==> reset && commit && Climb(oldHead, r.value, sectionSize)
      ensures r.Some? ==> r.value == CanonHash(db, (section + 1) * sectionSize - 1)
      ensures r.Some? ==> forall n: nat :: section * sectionSize <= n < (section + 1) * sectionSize ==>
                            Continues(db, section * sectionSize, n, oldHead, process)
      ensures r.None? && reset && commit ==>
              section * sectionSize <= at < (section + 1) * sectionSize &&
              !Continues(db, section * sectionSize, at, oldHead, process)
    {
      at := 0;
      if !reset {
        SetValidSections(0);
        return None, at;
      }
      var lastHead, number: nat := oldHead, section * sectionSize;
      ghost var first: nat := section * sectionSize;
      assert (section + 1) * sectionSize == first + sectionSize;
      while number < (section + 1) * sectionSize
        invariant first <= number <= first + sectionSize && Value() == old(Value())
        invariant Climb(oldHead, lastHead, number - first)
        invariant lastHead == if number == first then oldHead else CanonHash(db, number - 1)
        invariant forall n: nat :: first <= n < number ==> Continues(db, first, n, oldHead, process)
        decreases first + sectionSize - number
      {
        var hash := CanonHash(db, number);
        if hash == Zero {
          return None, number;
        }
        var header := ReadHeader(db, hash, number);
        if header.None? || header.value.parentHash != lastHead {
          return None, number;
        }
        if !process(header.value) {
          return None, number;
        }
        lastHead := HashOf(header.value);
        number := number + 1;
      }
      if !commit {
        return None, number;
      }
      return Some(lastHead), number;
    }

    /** The locked end of an update. */
    method EndUpdate(db: Db, section: nat, oldHead: Hash, newHead: Option<Hash>)
      modifies this`storedSections, this`sectionHeads, this`knownSections, this`cascadedHead
      ensures Value() == Finished(old(Value()), db, section, oldHead, newHead)
    {
      if newHead.Some? && (section == 0 || oldHead == SectionHead(sectionHeads, section - 1)) {
        sectionHeads := sectionHeads[section := newHead.value];
        SetValidSections(section + 1);
        cascadedHead := storedSections * sectionSize - 1;
      } else {
        VerifyLastHead(db);
        knownSections := storedSections;
      }
    }

    /** Sections: the answer is canonical whenever it lies above the checkpoint. */
    method Sections(db: Db, ghost head: Header) returns (count: nat, last: int, hash: Hash)
      requires Linked(Value()) && Exact(db, head)
      modifies this`storedSections, this`sectionHeads
      ensures Linked(Value()) && Value() == VerifyLast(old(Value()), db)
      ensures count == storedSections && last == count * sectionSize - 1
      ensures count > checkpointSections ==> hash == CanonHash(db, last)
      ensures count > checkpointSections ==>
              forall i: nat :: checkpointSections <= i + 1 && i < count ==> HeadCanonical(Value(), db, i)
    {
      ghost var x := Value();
      VerifyLastHead(db);
      LinkedVerified(x, db);
      VerifyStops(x, db);
      SizesKept(x, db);
      if storedSections > checkpointSections {
        forall i: nat | checkpointSections <= i + 1 && i < storedSections
          ensures HeadCanonical(Value(), db, i)
        {
          LastHeadIsEnough(x, db, head, i);
        }
      }
      return storedSections, storedSections * sectionSize - 1, SectionHead(sectionHeads, storedSections - 1);
    }
  }

  /** The canonical block at height n is stored, links to the canonical block below it, or
      to `head` at the first height, and is processed. */
  predicate Continues(db: Db, first: nat, n: nat, head: Hash, process: Header -> bool)
    requires first <= n
  {
    var header := ReadHeader(db, CanonHash(db, n), n);
    && header.Some? && header.value.parentHash == (if n == first then head else CanonHash(db, n - 1))
    && process(header.value)
  }
}
