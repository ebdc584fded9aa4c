/** core/headerchain.go setHead with the callbacks of core/blockchain.go
    setHeadBeyondRoot: rewinding the chain, its markers, its freezer and its store.

    Durable writes are recorded in a ghost trace, so that a crash between any two
    of them can be talked about. */
module SetHeads {
  import opened Chain
  import opened HeaderChains
  import opened Options
  import opened Rewinds

  /** The header marker names a stored header, the two block markers name whole blocks. */
  ghost predicate MarkersReadable(d: Db) {
    && d.headHeader.HashOf? && HasHeader(d, d.headHeader.header)
    && d.headBlock.HashOf? && HasBlock(d, d.headBlock.header)
    && d.headFast.HashOf? && HasBlock(d, d.headFast.header)
  }

  /** Up to height n every stored header has its body. */
  ghost predicate Bodied(d: Db, n: nat) {
    forall x :: x in d.stored && x.number <= n ==> x in d.bodies
  }

  predicate Done(h: Header, headBlock: nat, headTime: nat) {
    if headTime > 0 then h.time <= headTime else h.number <= headBlock
  }

  // ---------------------------------------------------------------- deletion batches

  predicate IsDelete(op: Op) {
    op.DelHeader? || op.DelTd? || op.DelBody? || op.DelCanon?
  }

  function HeightOf(op: Op): nat
    requires IsDelete(op)
  {
    if op.DelCanon? then op.number else op.header.number
  }

  /** All operations delete, and only at heights above n. */
  ghost predicate DeletesAbove(batch: seq<Op>, n: nat) {
    forall op :: op in batch ==> IsDelete(op) && HeightOf(op) > n
  }

  /** Everything at the given height is scheduled for deletion; at a height within
      the freezer, which had `frozen` items, bodies are not. */
  ghost predicate Scheduled(stored: set<Header>, frozen: nat, batch: seq<Op>, n: nat) {
    && DelCanon(n) in batch
    && forall h :: h in HashesAt(stored, n) ==>
         DelHeader(h) in batch && DelTd(h) in batch && (frozen <= n ==> DelBody(h) in batch)
  }

  /** A deletion batch removes what it names and nothing else. */
  lemma {:induction false} FlushDeletes(d: Db, batch: seq<Op>, n: nat)
    requires DeletesAbove(batch, n)
    ensures var e := Flush(d, batch);
            && e == d.(stored := e.stored, td := e.td, bodies := e.bodies, canon := e.canon)
            && (forall h :: h in e.stored <==> h in d.stored && DelHeader(h) !in batch)
            && (forall h :: h in e.bodies <==> h in d.bodies && DelBody(h) !in batch)
            && (forall k: nat :: Entry(e.canon, k) == if DelCanon(k) in batch then Zero else Entry(d.canon, k))
  {
    if batch != [] {
      var rest, op := batch[..|batch| - 1], batch[|batch| - 1];
      assert forall x :: x in rest ==> x in batch;
      assert op in batch;
      FlushDeletes(d, rest, n);
      assert batch == rest + [op];
      assert forall x :: x in batch <==> x in rest || x == op;
      var f := Flush(d, rest);
      if op.DelCanon? {
        EntryDel(f.canon, op.number);
      }
    }
  }

  lemma {:induction false} FlushDeletesTds(d: Db, batch: seq<Op>, n: nat)
    requires DeletesAbove(batch, n)
    ensures var e := Flush(d, batch);
            && (forall h :: h in e.td <==> h in d.td && DelTd(h) !in batch)
            && (forall h :: h in e.td ==> e.td[h] == d.td[h])
  {
    if batch != [] {
      var rest, op := batch[..|batch| - 1], batch[|batch| - 1];
      assert op in batch && forall x :: x in rest ==> x in batch;
      FlushDeletesTds(d, rest, n);
      assert batch == rest + [op];
      assert forall x :: x in batch <==> x in rest || x == op;
    }
  }

  // ---------------------------------------------------------------- markers

  /** The markers can be read and lie below height n. */
  ghost predicate MarkersBelow(d: Db, n: nat) {
    && MarkersReadable(d)
    && d.headHeader.header.number < n && d.headBlock.header.number < n && d.headFast.header.number < n
  }

  ghost function WithMarkers(d: Db, header: Header, block: Header, snap: Header): Db {
    d.(headHeader := HashOf(header), headBlock := HashOf(block), headFast := HashOf(snap))
  }

  /** Markers in memory and on disk agree and can be read; so can genesis; and the blocks
      up to the head block are complete. */
  ghost predicate Consistent(genesis: Header, d: Db, header: Header, block: Header, snap: Header) {
    && genesis.number == 0 && HasBlock(d, genesis) && MarkersReadable(d) && Bodied(d, block.number)
    && d.headHeader == HashOf(header) && d.headBlock == HashOf(block) && d.headFast == HashOf(snap)
  }

  lemma MarkersMoved(genesis: Header, d: Db, header: Header, block: Header, snap: Header)
    requires genesis.number == 0 && HasBlock(d, genesis) && Bodied(d, block.number)
    requires HasHeader(d, header) && HasBlock(d, block) && HasBlock(d, snap)
    requires block.number <= header.number && snap.number <= header.number
    ensures var e := WithMarkers(d, header, block, snap);
            Consistent(genesis, e, header, block, snap) && MarkersBelow(e, header.number + 1)
  {
  }

  lemma MarkersFlushed(d: Db, batch: seq<Op>, header: Header, block: Header, snap: Header)
    requires Flush(d, batch) == d.(headBlock := HashOf(block), headFast := HashOf(snap))
    ensures Flush(d, batch + [PutHeadHeader(HashOf(header))]) == WithMarkers(d, header, block, snap)
  {
    FlushAppend(d, batch, PutHeadHeader(HashOf(header)));
  }

  function Truncated(d: Db, n: nat): Db {
    if n < |d.ancient| then d.(ancient := d.ancient[..n]) else d
  }

  lemma ReadableTruncated(d: Db, n: nat, x: Header)
    requires x.number < n
    ensures HasHeader(d, x) ==> HasHeader(Truncated(d, n), x)
    ensures HasBlock(d, x) ==> HasBlock(Truncated(d, n), x)
  {
  }

  lemma MarkersTruncated(d: Db, n: nat)
    requires MarkersBelow(d, n)
    ensures MarkersBelow(Truncated(d, n), n)
  {
    ReadableTruncated(d, n, d.headHeader.header);
    ReadableTruncated(d, n, d.headBlock.header);
    ReadableTruncated(d, n, d.headFast.header);
  }

  lemma ConsistentTruncated(genesis: Header, d: Db, header: Header, block: Header, snap: Header, n: nat)
    requires Consistent(genesis, d, header, block, snap) && MarkersBelow(d, n)
    ensures Consistent(genesis, Truncated(d, n), header, block, snap)
  {
    MarkersTruncated(d, n);
    ReadableTruncated(d, n, genesis);
  }

  ghost predicate AllReadable(trace: seq<Db>) {
    forall d :: d in trace ==> MarkersReadable(d)
  }

  /** rawdb.ReadAllHashes: the headers of every fork stored at height n. */
  function HashesAt(stored: set<Header>, n: nat): set<Header> {
    set h | h in stored && h.number == n
  }

  ghost function HeadersFrom(stored: set<Header>, n: nat): set<Header> {
    set h | h in stored && h.number >= n
  }

  /** The heights above num, without a break, at which headers are stored, highest
      first, followed by num. */
  method Heights(stored: set<Header>, num: nat, origin: bool) returns (nums: seq<nat>, top: nat)
    ensures top >= num && |nums| == top - num + 1 && forall i :: 0 <= i < |nums| ==> nums[i] == top - i
    ensures forall n: nat :: num < n <= top ==> HashesAt(stored, n) != {}
    ensures !origin ==> top == num
    ensures origin ==> HashesAt(stored, top + 1) == {}
  {
    nums, top := [], num;
    if origin {
      var n := num + 1;
      while HashesAt(stored, n) != {}
        invariant n > num && top == n - 1 && |nums| == n - num - 1
        invariant forall i :: 0 <= i < |nums| ==> nums[i] == n - 1 - i
        invariant forall k: nat :: num < k < n ==> HashesAt(stored, k) != {}
        decreases HeadersFrom(stored, n)
      {
        ghost var h :| h in HashesAt(stored, n);
        assert h in HeadersFrom(stored, n) && h !in HeadersFrom(stored, n + 1);
        assert HeadersFrom(stored, n + 1) <= HeadersFrom(stored, n);
        nums := [n] + nums;
        n, top := n + 1, n;
      }
    }
    nums := nums + [num];
  }

  /** The head block has its state, unless it is genesis or nothing has moved. */
  ghost predicate Stateful(block: Header, states: set<Root>, was: Header, had: set<Root>) {
    block.number == 0 || block.root in states || (block == was && states == had)
  }

  class BlockChain {
    const genesis: Header
    const pathScheme: bool
    const root: Root
    const pivot: Option<nat>
    var hasState: set<Root>
    var recoverable: set<Root>
    var db: Db
    var currentHeader: Header
    var currentBlock: Header
    var currentSnapBlock: Header
    var headerCache: map<Hash, Header>
    var tdCache: map<Hash, nat>
    var numberCache: map<Hash, nat>
    ghost var trace: seq<Db>

    constructor (genesis: Header, pathScheme: bool, root: Root, pivot: Option<nat>, hasState: set<Root>,
                 recoverable: set<Root>, db: Db, header: Header, block: Header, snapBlock: Header)
      ensures this.genesis == genesis && this.pathScheme == pathScheme && this.root == root && this.pivot == pivot
      ensures this.hasState == hasState && this.recoverable == recoverable && this.db == db && trace == []
      ensures currentHeader == header && currentBlock == block && currentSnapBlock == snapBlock
      ensures headerCache == map[] && tdCache == map[] && numberCache == map[]
    {
      this.genesis, this.pathScheme, this.root, this.pivot := genesis, pathScheme, root, pivot;
      this.hasState, this.recoverable, this.db := hasState, recoverable, db;
      currentHeader, currentBlock, currentSnapBlock := header, block, snapBlock;
      headerCache, tdCache, numberCache := map[], map[], map[];
      trace := [];
    }

    ghost predicate Valid()
      reads this
    {
      Consistent(genesis, db, currentHeader, currentBlock, currentSnapBlock)
    }

    /** The parent of the head header, read through the cache, or genesis. */
    method Parent() returns (parent: Header)
      requires Numbered(currentHeader) && currentHeader.number > 0
      requires CacheBelow(headerCache, db, currentHeader.number)
      modifies this`headerCache
      ensures parent == Below(db, currentHeader, genesis)
      ensures CacheBelow(headerCache, db, currentHeader.number)
    {
      var hash := currentHeader.parentHash;
      if hash in headerCache {
        return headerCache[hash];
      }
      var read := ReadHeader(db, hash, currentHeader.number - 1);
      if read.None? {
        return genesis;
      }
      headerCache := headerCache[hash := read.value];
      return read.value;
    }

    /** What becomes of the head block when the header head moves to `header`. */
    ghost function NewBlock(header: Header): Outcome
      reads this
    {
      if header.number <= currentBlock.number
      then Sought(pathScheme, db, header, root, pivot, hasState, recoverable, genesis)
      else Rewound(currentBlock, 0)
    }

    /** And of the snap block. */
    ghost function NewSnap(header: Header): Header
      reads this
    {
      if header.number >= currentSnapBlock.number then currentSnapBlock
      else if HasBlock(db, header) then header
      else genesis
    }

    /** First part of updateFn: rewind the head block to the header or below. The fatal
        exit for a stateless head block is never taken. */
    method DegradeBlock(header: Header) returns (batch: seq<Op>, died: bool)
      requires Valid() && Numbered(header) && HasHeader(db, header)
      modifies this`currentBlock, this`hasState, this`recoverable
      ensures !died ==> HasBlock(db, currentBlock) && currentBlock.number <= header.number
      ensures !died ==> Bodied(db, currentBlock.number)
      ensures !died ==> Stateful(currentBlock, hasState, old(currentBlock), old(hasState))
      ensures !died ==> old(NewBlock(header)).Rewound? && currentBlock == old(NewBlock(header)).head
      ensures !died ==> Flush(db, batch) == db.(headBlock := HashOf(currentBlock))
      ensures !pathScheme && Ungapped(db, header) ==> !died
    {
      batch, died := [], false;
      if header.number <= currentBlock.number {
        var r, after := RewindHead(pathScheme, db, header, root, pivot, hasState, recoverable, genesis);
        if !r.Rewound? {
          died := true;
          return;
        }
        hasState := after;
        recoverable := *;
        FlushAppend(db, batch, PutHeadBlock(HashOf(r.head)));
        batch := batch + [PutHeadBlock(HashOf(r.head))];
        currentBlock := r.head;
        if r.head.root !in hasState {
          assert r.head.number == 0;  // so log.Crit is not reached
        }
      }
    }

    /** Second part: the snap block goes to the header itself, or to genesis. */
    method DegradeSnap(header: Header, batch: seq<Op>) returns (more: seq<Op>)
      requires genesis.number == 0 && HasBlock(db, genesis) && HasBlock(db, currentSnapBlock)
      requires db.headFast == HashOf(currentSnapBlock) && Flush(db, batch).headFast == db.headFast
      modifies this`currentSnapBlock
      ensures HasBlock(db, currentSnapBlock) && currentSnapBlock.number <= header.number
      ensures currentSnapBlock == old(NewSnap(header))
      ensures Flush(db, more) == Flush(db, batch).(headFast := HashOf(currentSnapBlock))
    {
      more := batch;
      if header.number < currentSnapBlock.number {
        var snap := ReadBlock(db, HashOf(header), header.number);
        var newSnap := if snap.None? then genesis else snap.value;
        FlushAppend(db, more, PutHeadFast(HashOf(newSnap)));
        more := more + [PutHeadFast(HashOf(newSnap))];
        currentSnapBlock := newSnap;
      }
    }

    /** Both parts of updateFn. */
    method Degrade(parent: Header) returns (batch: seq<Op>, died: bool)
      requires Valid() && Numbered(parent) && HasHeader(db, parent)
      modifies this`hasState, this`recoverable, this`currentBlock, this`currentSnapBlock
      ensures !died ==> old(NewBlock(parent)).Rewound? && currentBlock == old(NewBlock(parent)).head
      ensures !died ==> currentSnapBlock == old(NewSnap(parent))
      ensures !died ==> Stateful(currentBlock, hasState, old(currentBlock), old(hasState))
      ensures !died ==> HasBlock(db, currentBlock) && HasBlock(db, currentSnapBlock) && Bodied(db, currentBlock.number)
      ensures !died ==> currentBlock.number <= parent.number && currentSnapBlock.number <= parent.number
      ensures !died ==>
              Flush(db, batch) == db.(headBlock := HashOf(currentBlock), headFast := HashOf(currentSnapBlock))
      ensures !pathScheme && Ungapped(db, parent) ==> !died
    {
      batch, died := DegradeBlock(parent);
      if !died {
        batch := DegradeSnap(parent, batch);
      }
    }

    /** updateFn, and the flush of the markers it wrote together with the head header. */
    method MoveMarkers(parent: Header) returns (newHead: Header, force: bool, died: bool)
      requires Valid() && AllReadable(trace) && Numbered(parent) && HasHeader(db, parent)
      modifies this`db, this`trace, this`hasState, this`recoverable
      modifies this`currentHeader, this`currentBlock, this`currentSnapBlock
      ensures AllReadable(trace)
      ensures died ==> db == old(db)
      ensures !died ==> Valid() && MarkersBelow(db, parent.number + 1) && trace == old(trace) + [db]
      ensures !died ==> currentHeader == parent && newHead == currentBlock
      ensures !died ==> old(NewBlock(parent)).Rewound? && currentBlock == old(NewBlock(parent)).head
      ensures !died ==> currentSnapBlock == old(NewSnap(parent))
      ensures !died ==> Stateful(currentBlock, hasState, old(currentBlock), old(hasState))
      ensures !died ==> SameKeyValues(old(db), db) && db.ancient == old(db).ancient
      ensures !died ==> (force <==> currentBlock.number + 1 < |db.ancient| &&
                                    (pivot.None? || pivot.value <= currentBlock.number))
      ensures !pathScheme && Ungapped(old(db), parent) ==> !died
    {
      force, newHead := false, currentBlock;
      var batch;
      batch, died := Degrade(parent);
      if died {
        return;
      }
      newHead := currentBlock;
      if newHead.number + 1 < |db.ancient| {
        force := pivot.None? || newHead.number >= pivot.value;
      }
      MarkersFlushed(db, batch, parent, currentBlock, currentSnapBlock);
      MarkersMoved(genesis, db, parent, currentBlock, currentSnapBlock);
      db := Flush(db, batch + [PutHeadHeader(HashOf(parent))]);
      trace := trace + [db];
      currentHeader := parent;
    }

    /** Remove the data at one height, on all forks: freezer at once, the rest in the
        pending batch. */
    method WipeHeight(num: nat, hdr: Header, batch: seq<Op>) returns (more: seq<Op>)
      requires MarkersBelow(db, num) && AllReadable(trace)
      requires hdr.number == num || HashesAt(db.stored, num) != {}
      modifies this`db, this`trace
      ensures db == Truncated(old(db), num) && MarkersBelow(db, num) && AllReadable(trace) && old(trace) <= trace
      ensures forall op :: op in batch ==> op in more
      ensures forall op :: op in more ==> op in batch || (IsDelete(op) && HeightOf(op) == num)
      ensures Scheduled(old(db).stored, |old(db).ancient|, more, num)
    {
      more := batch;
      var hashes := HashesAt(db.stored, num);
      if hashes == {} {
        hashes := {hdr};
      }
      ghost var all := hashes;
      while hashes != {}
        invariant hashes <= all && forall h :: h in all ==> h.number == num
        invariant db == (if hashes == all then old(db) else Truncated(old(db), num)) && MarkersBelow(db, num)
        invariant AllReadable(trace) && old(trace) <= trace
        invariant forall op :: op in batch ==> op in more
        invariant forall op :: op in more ==> op in batch || (IsDelete(op) && HeightOf(op) == num)
        invariant forall h :: h in all - hashes ==>
                    DelHeader(h) in more && DelTd(h) in more && (|old(db).ancient| <= num ==> DelBody(h) in more)
        decreases hashes
      {
        var hash :| hash in hashes;
        if num + 1 <= |db.ancient| {
          MarkersTruncated(db, num);
          db := db.(ancient := db.ancient[..num]);
          trace := trace + [db];
        } else {
          more := more + [DelBody(hash)];
        }
        more := more + [DelHeader(hash)] + [DelTd(hash)];
        hashes := hashes - {hash};
      }
      more := more + [DelCanon(num)];
    }

    /** The same for a run of heights, from the highest down to that of hdr. */
    method WipeHeights(nums: seq<nat>, ghost top: nat, hdr: Header, batch: seq<Op>) returns (more: seq<Op>)
      requires MarkersBelow(db, hdr.number) && AllReadable(trace)
      requires top >= hdr.number && |nums| == top - hdr.number + 1
      requires forall i :: 0 <= i < |nums| ==> nums[i] == top - i
      requires forall n: nat :: hdr.number < n <= top ==> HashesAt(db.stored, n) != {}
      modifies this`db, this`trace
      ensures db == Truncated(old(db), hdr.number) && MarkersBelow(db, hdr.number)
      ensures AllReadable(trace) && old(trace) <= trace
      ensures Wiped(old(db).stored, |old(db).ancient|, batch, more, hdr.number, top)
    {
      more := batch;
      for i := 0 to |nums|
        invariant AllReadable(trace) && old(trace) <= trace && MarkersBelow(db, hdr.number)
        invariant db == if i == 0 then old(db) else Truncated(old(db), top - i + 1)
        invariant Wiped(old(db).stored, |old(db).ancient|, batch, more, top - i + 1, top)
      {
        ghost var last, frozen := more, |db.ancient|;
        more := WipeHeight(nums[i], hdr, more);
        WipedStep(old(db).stored, |old(db).ancient|, frozen, batch, last, more, top - i, top);
      }
    }

    /** One turn of setHead's loop: move the markers one header down, durably, and only
        then remove the data of the header left behind. */
    method RewindOne(parent: Header, batch: seq<Op>, origin: bool, headBlock: nat, headTime: nat)
      returns (more: seq<Op>, hb: nat, ht: nat, died: bool, ghost top: nat)
      requires Valid() && AllReadable(trace) && DeletesAbove(batch, currentHeader.number)
      requires Numbered(currentHeader) && Ancestor(currentHeader, 0) == genesis && currentHeader.number > 0
      requires parent == Below(db, currentHeader, genesis)
      modifies this`db, this`trace, this`hasState, this`recoverable
      modifies this`currentHeader, this`currentBlock, this`currentSnapBlock
      ensures AllReadable(trace)
      ensures died ==> db == old(db)
      ensures !died ==> Valid() && MarkersBelow(db, currentHeader.number + 1)
      ensures !died ==> DeletesAbove(more, currentHeader.number)
      ensures !died ==> SameKeyValues(old(db), db)
      ensures !died ==> db.ancient == Truncated(old(db), old(currentHeader).number).ancient
      ensures !died ==> currentHeader == parent
      ensures !died ==> Stateful(currentBlock, hasState, old(currentBlock), old(hasState))
      ensures !died ==> old(trace) < trace && trace[|old(trace)|].headBlock == HashOf(currentBlock)
      ensures !died ==> Tops(old(db).stored, old(currentHeader).number, top, origin)
      ensures !died ==> Wiped(old(db).stored, |old(db).ancient|, batch, more, old(currentHeader).number, top)
      ensures !died ==> Forced(|old(db).ancient|, pivot, headBlock, headTime, hb, ht, currentBlock)
      ensures !died ==> Covers(|old(db).ancient|, pivot, hb, ht, currentBlock)
      ensures !pathScheme && Ungapped(old(db), old(currentHeader)) ==> !died
    {
      var hdr := currentHeader;
      more, hb, ht, top := batch, headBlock, headTime, hdr.number;
      BelowFacts(db, hdr, genesis);
      var newHead, force;
      newHead, force, died := MoveMarkers(parent);
      if died {
        return;
      }
      if force && (if headTime > 0 then newHead.time < headTime else newHead.number < headBlock) {
        hb, ht := newHead.number, 0;
      }
      assert Forced(|db.ancient|, pivot, headBlock, headTime, hb, ht, currentBlock);
      assert Covers(|db.ancient|, pivot, hb, ht, currentBlock);
      var nums;
      nums, top := Heights(db.stored, hdr.number, origin);
      ConsistentTruncated(genesis, db, currentHeader, currentBlock, currentSnapBlock, hdr.number);
      more := WipeHeights(nums, top, hdr, more);
      WipedDeletes(old(db).stored, |old(db).ancient|, batch, more, hdr.number, top);
    }

    /** setHead's loop: d and h are the database and the head it began with, which may be
        known to be ungapped. */
    ghost predicate Turning(
      d: Db, h: Header, ungapped: bool, batch: seq<Op>, origin: bool, top: nat, targetBlock: nat, targetTime: nat)
      reads this
    {
      && Valid() && AllReadable(trace) && (origin || MarkersBelow(db, currentHeader.number + 1))
      && Numbered(h) && Numbered(currentHeader) && Ancestor(currentHeader, 0) == genesis
      && (targetTime > 0 ==> genesis.time <= targetTime) && CacheBelow(headerCache, db, currentHeader.number)
      && DeletesAbove(batch, currentHeader.number) && (origin ==> batch == [] && db == d && currentHeader == h)
      && (ungapped ==>
            Ungapped(d, h) && Rewinding(d, h, db, currentHeader, batch, origin, top, targetBlock, targetTime))
    }

    method Turn(
      ghost d: Db, ghost h: Header, ghost ungapped: bool, batch: seq<Op>, origin: bool, ghost top: nat,
      targetBlock: nat, targetTime: nat)
      returns (more: seq<Op>, hb: nat, ht: nat, died: bool, ghost newTop: nat)
      requires Turning(d, h, ungapped, batch, origin, top, targetBlock, targetTime)
      requires !Done(currentHeader, targetBlock, targetTime)
      modifies this`db, this`trace, this`hasState, this`recoverable
      modifies this`currentHeader, this`currentBlock, this`currentSnapBlock, this`headerCache
      ensures AllReadable(trace)
      ensures !died ==> Turning(d, h, ungapped, more, false, newTop, hb, ht)
      ensures !died ==> currentHeader.number < old(currentHeader).number
      ensures !died ==> Stateful(currentBlock, hasState, old(currentBlock), old(hasState))
      ensures !died ==> Covers(|db.ancient|, pivot, hb, ht, currentBlock)
      ensures !died ==> old(trace) < trace && trace[|old(trace)|].headBlock == HashOf(currentBlock)
      ensures !died ==> Forced(|old(db).ancient|, pivot, targetBlock, targetTime, hb, ht, currentBlock)
      ensures !died ==> |db.ancient| <= |old(db).ancient|
      ensures !pathScheme && ungapped ==> !died
    {
      ghost var e, hdr := db, currentHeader;
      BelowFacts(e, hdr, genesis);
      if ungapped {
        UngappedTruncated(d, h, e, hdr);
      }
      var parent := Parent();
      more, hb, ht, died, newTop := RewindOne(parent, batch, origin, targetBlock, targetTime);
      if !died {
        CacheTruncated(headerCache, e, db, hdr.number);
        assert CacheBelow(headerCache, db, currentHeader.number);
        if ungapped {
          RewindingStep(d, h, e, hdr, batch, origin, top, targetBlock, targetTime, db, more, newTop, hb, ht,
                        currentHeader, currentBlock, pivot);
        }
        newTop := if origin then newTop else top;
      }
    }

    /** setHead. Every durable state it passes through has readable markers, whatever
        the callbacks do. On an ungapped chain the final head is the first ancestor
        meeting the target, possibly lowered to the head block by the freezer rule;
        nothing is left above it up to the top of the run of stored heights; and what
        lies below is untouched. */
    method SetHead(headBlock: nat, headTime: nat) returns (died: bool, ghost hb: nat, ghost ht: nat, ghost top: nat)
      requires Valid() && AllReadable(trace) && Numbered(currentHeader) && Ancestor(currentHeader, 0) == genesis
      requires Agree(headerCache, tdCache, numberCache, db)
      modifies this
      ensures AllReadable(trace)
      ensures headTime > 0 && genesis.time > headTime ==> died && db == old(db)
      ensures !died ==> Valid() && Agree(headerCache, tdCache, numberCache, db)
      ensures !died ==> Done(currentHeader, hb, ht)
      ensures !died ==> Stateful(currentBlock, hasState, old(currentBlock), old(hasState))
      ensures !died ==> Target(trace, |old(db).ancient|, pivot, headBlock, headTime, hb, ht)
      ensures !died && Ungapped(old(db), old(currentHeader)) ==>
              RewoundTo(old(db), db, old(currentHeader), currentHeader, top, hb, ht)
      ensures !died && Ungapped(old(db), old(currentHeader)) && currentHeader != old(currentHeader) ==>
              pivot.None? || pivot.value <= currentBlock.number ==>
                |db.ancient| <= currentBlock.number + 1 || 0 < ht <= currentBlock.time
      ensures !pathScheme && Ungapped(old(db), old(currentHeader)) && (headTime == 0 || genesis.time <= headTime) ==>
              !died
    {
      died, hb, ht, top := false, headBlock, headTime, currentHeader.number;
      if headTime > 0 && genesis.time > headTime {
        died := true;
        return;
      }
      ghost var d, h, ungapped := db, currentHeader, Ungapped(db, currentHeader);
      var batch;
      ghost var origin;
      batch, died, hb, ht, origin, top := RewindAll(d, h, ungapped, headBlock, headTime);
      if died {
        return;
      }
      ghost var frozen := |db.ancient|;
      Finish(d, h, ungapped, batch, origin, top, hb, ht);
      if ungapped && currentHeader != h {
        CoversAtEnd(d, db, h, currentHeader, top, hb, ht, frozen, pivot, currentBlock);
      }
    }

    /** The loop of setHead. */
    method RewindAll(ghost d: Db, ghost h: Header, ghost ungapped: bool, headBlock: nat, headTime: nat)
      returns (batch: seq<Op>, died: bool, ghost hb: nat, ghost ht: nat, ghost origin: bool, ghost top: nat)
      requires Turning(d, h, ungapped, [], true, currentHeader.number, headBlock, headTime)
      modifies this`db, this`trace, this`hasState, this`recoverable
      modifies this`currentHeader, this`currentBlock, this`currentSnapBlock, this`headerCache
      ensures AllReadable(trace)
      ensures !died ==> Turning(d, h, ungapped, batch, origin, top, hb, ht) && Done(currentHeader, hb, ht)
      ensures !died ==> Target(trace, |d.ancient|, pivot, headBlock, headTime, hb, ht)
      ensures !died ==> origin || Covers(|db.ancient|, pivot, hb, ht, currentBlock)
      ensures !died ==> Stateful(currentBlock, hasState, old(currentBlock), old(hasState))
      ensures !pathScheme && ungapped ==> !died
    {
      var first, targetBlock: nat, targetTime: nat := true, headBlock, headTime;
      batch, died, hb, ht, origin, top := [], false, headBlock, headTime, true, currentHeader.number;
      while !Done(currentHeader, targetBlock, targetTime)
        invariant first == origin && Turning(d, h, ungapped, batch, first, top, targetBlock, targetTime)
        invariant first || Covers(|db.ancient|, pivot, targetBlock, targetTime, currentBlock)
        invariant Stateful(currentBlock, hasState, old(currentBlock), old(hasState))
        invariant |db.ancient| <= |d.ancient|
        invariant Target(trace, |d.ancient|, pivot, headBlock, headTime, targetBlock, targetTime)
        decreases currentHeader.number
      {
        ghost var tb, tt, tr, frozen := targetBlock, targetTime, trace, |db.ancient|;
        batch, targetBlock, targetTime, died, top :=
          Turn(d, h, ungapped, batch, first, top, targetBlock, targetTime);
        if died {
          return;
        }
        first, origin := false, false;
        TargetStep(tr, trace, |d.ancient|, frozen, pivot, headBlock, headTime, tb, tt, targetBlock, targetTime,
                   currentBlock);
      }
      hb, ht := targetBlock, targetTime;
    }

    /** Flush all accumulated deletions. */
    method Finish(
      ghost d: Db, ghost h: Header, ghost ungapped: bool, batch: seq<Op>, ghost origin: bool, ghost top: nat,
      ghost hb: nat, ghost ht: nat)
      requires Turning(d, h, ungapped, batch, origin, top, hb, ht) && Done(currentHeader, hb, ht)
      modifies this`db, this`trace, this`headerCache, this`tdCache, this`numberCache
      ensures Valid() && AllReadable(trace) && db.ancient == old(db).ancient && trace == old(trace) + [db]
      ensures Agree(headerCache, tdCache, numberCache, db)
      ensures ungapped ==> RewoundTo(d, db, h, currentHeader, top, hb, ht)
    {
      FlushKeepsBelow(db, batch, currentHeader.number);
      if ungapped {
        RewindingDone(d, h, db, currentHeader, batch, origin, top, hb, ht);
      }
      db := Flush(db, batch);
      trace := trace + [db];
      headerCache, tdCache, numberCache := map[], map[], map[];
    }
  }

  /** Cached headers up to height n are stored; higher ones may be gone already, as
      the freezer is truncated at once. */
  ghost predicate CacheBelow(cache: map<Hash, Header>, d: Db, n: nat) {
    forall x :: x in cache && x.HashOf? && x.header.number <= n ==> cache[x] == x.header && HasHeader(d, x.header)
  }

  lemma CacheTruncated(cache: map<Hash, Header>, d: Db, e: Db, n: nat)
    requires n > 0 && CacheBelow(cache, d, n) && e.stored == d.stored && e.ancient == Truncated(d, n).ancient
    ensures forall k: nat {:trigger CacheBelow(cache, e, k)} :: k < n ==> CacheBelow(cache, e, k)
  {
    forall x: Header | x.number < n && HasHeader(d, x)
      ensures HasHeader(e, x)
    {
    }
  }

  /** What lies at or below the head can still be read after the deletions. */
  lemma FlushKeepsBelow(d: Db, batch: seq<Op>, n: nat)
    requires DeletesAbove(batch, n)
    ensures forall x: Header :: x.number <= n && HasHeader(d, x) ==> HasHeader(Flush(d, batch), x)
    ensures forall x: Header :: x.number <= n && HasBlock(d, x) ==> HasBlock(Flush(d, batch), x)
    ensures forall k: nat :: k <= n && Bodied(d, k) ==> Bodied(Flush(d, batch), k)
    ensures MarkersBelow(d, n + 1) ==> MarkersBelow(Flush(d, batch), n + 1)
    ensures Flush(d, batch).ancient == d.ancient
    ensures Flush(d, batch).headHeader == d.headHeader && Flush(d, batch).headBlock == d.headBlock
    ensures Flush(d, batch).headFast == d.headFast
  {
    FlushDeletes(d, batch, n);
    forall x: Header | x.number <= n
      ensures DelHeader(x) !in batch && DelBody(x) !in batch
    {
      assert HeightOf(DelHeader(x)) == HeightOf(DelBody(x)) == x.number;
    }
  }

  ghost predicate NotDone(h: Header, n: nat, hb: nat, ht: nat)
    requires Numbered(h)
  {
    forall k: nat :: n < k <= h.number ==> !Done(Ancestor(h, k), hb, ht)
  }

  /** The loop of setHead on an ungapped chain: d and h as it began, e and head now. */
  ghost predicate Rewinding(
    d: Db, h: Header, e: Db, head: Header, batch: seq<Op>, origin: bool, top: nat, hb: nat, ht: nat)
    requires Numbered(h)
  {
    && head.number <= h.number && head == Ancestor(h, head.number) && NotDone(h, head.number, hb, ht)
    && SameKeyValues(d, e)
    && (if origin then head == h && e == d && batch == []
        else
          && head.number < h.number && Tops(d.stored, h.number, top, true)
          && Wiped(d.stored, |d.ancient|, [], batch, head.number + 1, top)
          && e.ancient == Truncated(d, head.number + 1).ancient)
  }

  lemma UngappedTruncated(d: Db, h: Header, e: Db, head: Header)
    requires Ungapped(d, h) && head.number <= h.number && head == Ancestor(h, head.number)
    requires e.stored == d.stored && (e.ancient == d.ancient || e.ancient == Truncated(d, head.number + 1).ancient)
    ensures Ungapped(e, head)
  {
    forall n: nat | n <= head.number
      ensures HasHeader(e, Ancestor(head, n))
    {
      AncestorTrans(h, head.number, n);
      assert HasHeader(d, Ancestor(h, n));
    }
  }

  lemma WipedJoin(
    stored: set<Header>, frozen: nat, frozenNow: nat, batch: seq<Op>, more: seq<Op>, n: nat, top: nat)
    requires n <= top && frozenNow <= frozen
    requires Wiped(stored, frozen, [], batch, n + 1, top) && Wiped(stored, frozenNow, batch, more, n, n)
    ensures Wiped(stored, frozen, [], more, n, top)
  {
    forall k: nat | n <= k <= top
      ensures Scheduled(stored, frozen, more, k)
    {
      if k > n {
        assert Scheduled(stored, frozen, batch, k);
      } else {
        assert Scheduled(stored, frozenNow, more, k);
      }
    }
  }

  /** One turn keeps that: all of it follows from what RewindOne promises. */
  lemma RewindingStep(
    d: Db, h: Header, e: Db, hdr: Header, batch: seq<Op>, origin: bool, top: nat, hb: nat, ht: nat,
    e': Db, batch': seq<Op>, t: nat, hb': nat, ht': nat, head: Header, block: Header,
    pivot: Option<nat>)
    requires Ungapped(d, h) && Rewinding(d, h, e, hdr, batch, origin, top, hb, ht)
    requires hdr.number > 0 && !Done(hdr, hb, ht) && block.number <= head.number
    requires hdr.parentHash == HashOf(head) && head.number == hdr.number - 1
    requires SameKeyValues(e, e') && e'.ancient == Truncated(e, hdr.number).ancient
    requires Tops(e.stored, hdr.number, t, origin) && Wiped(e.stored, |e.ancient|, batch, batch', hdr.number, t)
    requires Forced(|e.ancient|, pivot, hb, ht, hb', ht', block)
    ensures Rewinding(d, h, e', head, batch', false, if origin then t else top, hb', ht')
  {
    AncestorParent(h, hdr.number);
    if !origin {
      WipedJoin(d.stored, |d.ancient|, |e.ancient|, batch, batch', hdr.number, top);
    }
    forall k: nat | head.number < k <= h.number
      ensures !Done(Ancestor(h, k), hb', ht')
    {
      assert k > hdr.number ==> !Done(Ancestor(h, k), hb, ht);
    }
  }

  /** What setHead leaves behind on an ungapped chain. */
  ghost predicate RewoundTo(d: Db, e: Db, h: Header, head: Header, top: nat, hb: nat, ht: nat)
    requires Numbered(h)
  {
    && head.number <= h.number && head == Ancestor(h, head.number) && NotDone(h, head.number, hb, ht)
    && (if head == h then e == d
        else
          && Tops(d.stored, h.number, top, true)
          && e.ancient == Truncated(d, head.number + 1).ancient && e.txLookup == d.txLookup
          && (forall x :: x in e.stored <==> x in d.stored && !(head.number < x.number <= top))
          && Left(d, e, head.number, top)
          && (forall n: nat :: Entry(e.canon, n) == if head.number < n <= top then Zero else Entry(d.canon, n)))
  }

  /** Total difficulties and bodies: untouched outside the heights from n + 1 to top,
      gone with their headers within, bodies within the freezer aside. */
  ghost predicate Left(d: Db, e: Db, n: nat, top: nat) {
    && (forall x :: x in e.td ==> x in d.td && e.td[x] == d.td[x])
    && (forall x :: x in e.bodies ==> x in d.bodies)
    && (forall x :: x in d.td && !(n < x.number <= top) ==> x in e.td)
    && (forall x :: x in d.bodies && !(n < x.number <= top) ==> x in e.bodies)
    && (forall x :: x in d.stored && n < x.number <= top ==> x !in e.td && (|d.ancient| <= x.number ==> x !in e.bodies))
  }

  lemma LeftByDeletes(d: Db, e: Db, batch: seq<Op>, n: nat, top: nat)
    requires DeletesAbove(batch, n) && Wiped(d.stored, |d.ancient|, [], batch, n + 1, top)
    requires e.td == d.td && e.bodies == d.bodies
    ensures Left(d, Flush(e, batch), n, top)
  {
    FlushDeletes(e, batch, n);
    FlushDeletesTds(e, batch, n);
    forall x: Header | !(n < x.number <= top)
      ensures DelTd(x) !in batch && DelBody(x) !in batch
    {
      WipedOp(d.stored, |d.ancient|, batch, DelTd(x), n + 1, top);
      WipedOp(d.stored, |d.ancient|, batch, DelBody(x), n + 1, top);
    }
    forall x | x in d.stored && n < x.number <= top
      ensures DelTd(x) in batch && (|d.ancient| <= x.number ==> DelBody(x) in batch)
    {
      assert Scheduled(d.stored, |d.ancient|, batch, x.number) && x in HashesAt(d.stored, x.number);
    }
  }

  lemma RewindingDone(
    d: Db, h: Header, e: Db, head: Header, batch: seq<Op>, origin: bool, top: nat, hb: nat, ht: nat)
    requires Numbered(h) && Rewinding(d, h, e, head, batch, origin, top, hb, ht)
    requires DeletesAbove(batch, head.number)
    ensures RewoundTo(d, Flush(e, batch), h, head, top, hb, ht)
  {
    FlushDeletes(e, batch, head.number);
    if !origin {
      LeftByDeletes(d, e, batch, head.number, top);
      forall x | x in d.stored
        ensures DelHeader(x) in batch <==> head.number < x.number <= top
      {
        WipedOp(d.stored, |d.ancient|, batch, DelHeader(x), head.number + 1, top);
        if head.number < x.number <= top {
          assert Scheduled(d.stored, |d.ancient|, batch, x.number) && x in HashesAt(d.stored, x.number);
        }
      }
      forall n: nat
        ensures DelCanon(n) in batch <==> head.number < n <= top
      {
        WipedOp(d.stored, |d.ancient|, batch, DelCanon(n), head.number + 1, top);
        assert head.number < n <= top ==> Scheduled(d.stored, |d.ancient|, batch, n);
      }
    }
  }

  lemma WipedOp(stored: set<Header>, frozen: nat, batch: seq<Op>, op: Op, lo: nat, hi: nat)
    requires Wiped(stored, frozen, [], batch, lo, hi)
    ensures op in batch ==> IsDelete(op) && lo <= HeightOf(op) <= hi
  {
  }

  /** The header the head moves to: its parent, or genesis if that is missing. */
  ghost function Below(d: Db, h: Header, genesis: Header): Header
    requires Numbered(h) && h.number > 0
  {
    if HasHeader(d, h.parentHash.header) then h.parentHash.header else genesis
  }

  lemma BelowFacts(d: Db, h: Header, genesis: Header)
    requires Numbered(h) && h.number > 0 && Ancestor(h, 0) == genesis && HasHeader(d, genesis)
    ensures var p := Below(d, h, genesis);
            && Numbered(p) && p.number < h.number && Ancestor(p, 0) == genesis && HasHeader(d, p)
            && (Ungapped(d, h) ==> p == h.parentHash.header && Ungapped(d, p))
  {
    if Ungapped(d, h) {
      UngappedParent(d, h);
    }
  }

  ghost predicate SameKeyValues(d: Db, e: Db) {
    e.stored == d.stored && e.td == d.td && e.bodies == d.bodies && e.canon == d.canon && e.txLookup == d.txLookup
  }

  /** top ends the contiguous run of stored heights from n up (only looked for once). */
  ghost predicate Tops(stored: set<Header>, n: nat, top: nat, origin: bool) {
    && n <= top && (forall k: nat :: n < k <= top ==> HashesAt(stored, k) != {})
    && (if origin then HashesAt(stored, top + 1) == {} else top == n)
  }

  /** The target is kept, or lowered to the head block, which it then lies above: only
      if the freezer reaches beyond that block, and no pivot does. */
  ghost predicate Forced(
    frozen: nat, pivot: Option<nat>, headBlock: nat, headTime: nat, hb: nat, ht: nat, block: Header)
  {
    (hb == headBlock && ht == headTime) ||
    (&& ht == 0 && hb == block.number && (if headTime > 0 then block.time < headTime else hb < headBlock)
     && hb + 1 < frozen && (pivot.None? || pivot.value <= hb))
  }

  /** Unless a pivot lies beyond it, the head block covers the freezer or does not lie
      below the target. */
  ghost predicate Covers(frozen: nat, pivot: Option<nat>, hb: nat, ht: nat, block: Header) {
    pivot.None? || pivot.value <= block.number ==>
      frozen <= block.number + 1 || if ht > 0 then ht <= block.time else hb <= block.number
  }

  lemma CoversAtEnd(
    d: Db, e: Db, h: Header, head: Header, top: nat, hb: nat, ht: nat, frozen: nat, pivot: Option<nat>, block: Header)
    requires Numbered(h) && RewoundTo(d, e, h, head, top, hb, ht) && head != h && Done(head, hb, ht)
    requires Covers(frozen, pivot, hb, ht, block) && |e.ancient| <= frozen
    ensures pivot.None? || pivot.value <= block.number ==> |e.ancient| <= block.number + 1 || 0 < ht <= block.time
  {
  }

  /** The target asked for or, in its place, one lowered to a head block that was
      durably written, that lay below the freezer's end, and behind the pivot. */
  ghost predicate Target(
    trace: seq<Db>, frozen: nat, pivot: Option<nat>, headBlock: nat, headTime: nat, hb: nat, ht: nat)
  {
    (hb == headBlock && ht == headTime) ||
    (&& ht == 0 && hb + 1 < frozen && (pivot.None? || pivot.value <= hb) && (headTime == 0 ==> hb < headBlock)
     && exists d :: d in trace && d.headBlock.HashOf? && d.headBlock.header.number == hb)
  }

  lemma TargetStep(
    trace: seq<Db>, trace': seq<Db>, frozen: nat, frozen': nat, pivot: Option<nat>, headBlock: nat, headTime: nat,
    hb: nat, ht: nat, hb': nat, ht': nat, block: Header)
    requires Target(trace, frozen, pivot, headBlock, headTime, hb, ht) && frozen' <= frozen
    requires Forced(frozen', pivot, hb, ht, hb', ht', block)
    requires trace < trace' && trace'[|trace|].headBlock == HashOf(block)
    ensures Target(trace', frozen, pivot, headBlock, headTime, hb', ht')
  {
    assert trace'[|trace|] in trace';
    assert forall d :: d in trace ==> d in trace';
  }

  /** From batch to more, exactly the heights lo..hi were scheduled for deletion. */
  ghost predicate Wiped(stored: set<Header>, frozen: nat, batch: seq<Op>, more: seq<Op>, lo: int, hi: nat) {
    && (forall op :: op in batch ==> op in more)
    && (forall op :: op in more ==> op in batch || (IsDelete(op) && lo <= HeightOf(op) <= hi))
    && (forall n: nat :: lo <= n <= hi ==> Scheduled(stored, frozen, more, n))
  }

  lemma WipedDeletes(stored: set<Header>, frozen: nat, batch: seq<Op>, more: seq<Op>, n: nat, top: nat)
    requires Wiped(stored, frozen, batch, more, n, top) && DeletesAbove(batch, n)
    ensures forall k: nat :: k < n ==> DeletesAbove(more, k)
  {
  }

  lemma WipedStep(
    stored: set<Header>, frozen: nat, frozenNow: nat, batch: seq<Op>, last: seq<Op>, more: seq<Op>, lo: nat, hi: nat)
    requires lo <= hi && Wiped(stored, frozen, batch, last, lo + 1, hi) && frozenNow <= frozen
    requires forall op :: op in last ==> op in more
    requires forall op :: op in more ==> op in last || (IsDelete(op) && HeightOf(op) == lo)
    requires Scheduled(stored, frozenNow, more, lo)
    ensures Wiped(stored, frozen, batch, more, lo, hi)
  {
    forall n: nat | lo <= n <= hi
      ensures Scheduled(stored, frozen, more, n)
    {
      assert n > lo ==> Scheduled(stored, frozen, last, n);
    }
  }

  // ---------------------------------------------------------------- what a rewind means

  /** An exact index stays exact, for the new head. */
  lemma RewoundIndexExact(d: Db, e: Db, h: Header, head: Header, top: nat, hb: nat, ht: nat)
    requires Exact(d, h) && RewoundTo(d, e, h, head, top, hb, ht)
    ensures Exact(e, head)
  {
    if head != h {
      forall n: nat
        ensures CanonHash(e, n) == if n <= head.number then HashOf(Ancestor(head, n)) else Zero
      {
        assert CanonHash(d, n) == if n <= h.number then HashOf(Ancestor(h, n)) else Zero;
        if n <= head.number {
          AncestorTrans(h, head.number, n);
        }
      }
    }
  }

  lemma {:induction false} SoundStoreHasPath(d: Db, x: Header, n: nat)
    requires StoreOk(d) && HasHeader(d, x) && n <= x.number
    ensures Numbered(x) && HasHeader(d, Ancestor(x, n))
    decreases x.number
  {
    assert RecordOk(d, x);
    if n < x.number {
      SoundStoreHasPath(d, x.parentHash.header, n);
    }
  }

  /** In a sound store whose freezer does not reach above the head, no header and no
      total difficulty of any fork is left above the new head. */
  lemma RewoundLeavesNothingAbove(d: Db, e: Db, h: Header, head: Header, top: nat, hb: nat, ht: nat, x: Header)
    requires StoreOk(d) && d.td.Keys <= d.stored && |d.ancient| <= h.number + 1 && Numbered(h)
    requires RewoundTo(d, e, h, head, top, hb, ht) && head != h
    ensures HasHeader(e, x) || x in e.td ==> x.number <= head.number
  {
    if x in d.stored {
      NothingStoredAbove(d, top, x);
    }
  }

  lemma NothingStoredAbove(d: Db, top: nat, x: Header)
    requires StoreOk(d) && HashesAt(d.stored, top + 1) == {} && |d.ancient| <= top + 1 && x in d.stored
    ensures x.number <= top
  {
    assert forall a :: a in d.stored ==> a.number != top + 1 by {
      assert forall a :: a in d.stored && a.number == top + 1 ==> a in HashesAt(d.stored, top + 1);
    }
    if x.number > top {
      SoundStoreHasPath(d, x, top + 1);
    }
  }
}
