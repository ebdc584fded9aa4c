/** core/headerchain.go: header insertion, canonical reorganisation and the
    ancestor lookup, over the shared database and the in-memory caches. */
module HeaderChains {
  import opened Chain
  import ForkChoices
  import opened Options

  datatype Error = UnknownAncestor | Aborted | MissingParent(number: int, hash: Hash)

  datatype Result<+T> = Ok(value: T) | Err(error: Error)

  /** headers[i] is the parent of headers[i + 1], and heights follow. */
  ghost predicate Linked(headers: seq<Header>) {
    forall i :: 0 <= i < |headers| - 1 ==>
      headers[i + 1].parentHash == HashOf(headers[i]) && headers[i + 1].number == headers[i].number + 1
  }

  lemma {:induction false} LinkedNumbers(headers: seq<Header>, i: nat, j: nat)
    requires Linked(headers) && i <= j < |headers|
    ensures headers[j].number == headers[i].number + (j - i)
    decreases j
  {
    if i < j {
      LinkedNumbers(headers, i, j - 1);
      assert headers[j - 1 + 1].number == headers[j - 1].number + 1;
    }
  }

  lemma {:induction false} LinkedPath(headers: seq<Header>, i: nat, j: nat)
    requires Linked(headers) && i <= j < |headers| && Numbered(headers[0])
    ensures Numbered(headers[j]) && headers[i].number <= headers[j].number
    ensures Ancestor(headers[j], headers[i].number) == headers[i]
    decreases j
  {
    if j > 0 {
      assert headers[j - 1 + 1].parentHash == HashOf(headers[j - 1]);
      LinkedPath(headers, if i < j then i else j - 1, j - 1);
    }
  }

  ghost function Nth(headers: seq<Header>, i: nat): (h: Header)
    requires Linked(headers) && i < |headers| && Numbered(headers[0])
    ensures Numbered(h)
  {
    LinkedPath(headers, 0, i);
    headers[i]
  }

  /** One header further: its parent is the one before, and it was not seen yet. */
  lemma NthStep(headers: seq<Header>, i: nat)
    requires Linked(headers) && i < |headers| && Numbered(headers[0]) && headers[0].number > 0
    ensures Numbered(headers[i]) && headers[i].number > 0
    ensures i > 0 ==> headers[i].parentHash == HashOf(Nth(headers, i - 1))
    ensures headers[i] !in headers[..i]
    ensures TotalDifficulty(Nth(headers, i)) ==
            headers[i].difficulty +
            TotalDifficulty(if i == 0 then headers[0].parentHash.header else Nth(headers, i - 1))
  {
    LinkedPath(headers, 0, i);
    if i > 0 {
      assert headers[i - 1 + 1].parentHash == HashOf(headers[i - 1]);
    }
    forall k | 0 <= k < i
      ensures headers[k] != headers[i]
    {
      LinkedNumbers(headers, k, i);
    }
  }

  /** How many of the headers are not in the database. */
  ghost function CountNew(db: Db, headers: seq<Header>): nat {
    if headers == [] then 0
    else CountNew(db, headers[..|headers| - 1]) + if HasHeader(db, headers[|headers| - 1]) then 0 else 1
  }

  lemma CountNewAppend(db: Db, headers: seq<Header>, j: nat)
    requires j < |headers|
    ensures CountNew(db, headers[..j + 1]) ==
            CountNew(db, headers[..j]) + if HasHeader(db, headers[j]) then 0 else 1
  {
    assert headers[..j + 1][..j] == headers[..j];
  }

  /** Walking parents from h reaches an indexed block, or height zero, without a gap. */
  ghost predicate CrossLinked(db: Db, h: Header)
    requires Numbered(h)
    decreases h.number
  {
    CanonHash(db, h.number) == HashOf(h) || h.number == 0 ||
    (HasHeader(db, h.parentHash.header) && CrossLinked(db, h.parentHash.header))
  }

  /** The number of blocks from h down, at most `ancestor` of them, that precede
      the first indexed one. */
  ghost function NonCanonicalRun(db: Db, h: Header, ancestor: nat): nat
    requires Numbered(h) && ancestor <= h.number
    decreases ancestor
  {
    if ancestor == 0 || CanonHash(db, h.number) == HashOf(h) then 0
    else 1 + NonCanonicalRun(db, h.parentHash.header, ancestor - 1)
  }

  /** The headers of that run are all stored. */
  ghost predicate RunStored(db: Db, h: Header, ancestor: nat)
    requires Numbered(h) && ancestor <= h.number
    decreases ancestor
  {
    ancestor == 0 || CanonHash(db, h.number) == HashOf(h) ||
    (HasHeader(db, h) && RunStored(db, h.parentHash.header, ancestor - 1))
  }

  ghost predicate CachedHeaderOk(d: Db, x: Hash, h: Header) {
    x == HashOf(h) && HasHeader(d, h)
  }

  ghost predicate CachedTdOk(d: Db, x: Hash, td: nat) {
    x.HashOf? && ReadTd(d, x, x.header.number) == Some(td)
  }

  ghost predicate CachedNumberOk(d: Db, x: Hash, n: nat) {
    x.HashOf? && n == x.header.number && HasHeader(d, x.header)
  }

  ghost predicate HeadersAgree(headers: map<Hash, Header>, d: Db) {
    forall x :: x in headers ==> CachedHeaderOk(d, x, headers[x])
  }

  ghost predicate TdsAgree(tds: map<Hash, nat>, d: Db) {
    forall x :: x in tds ==> CachedTdOk(d, x, tds[x])
  }

  ghost predicate NumbersAgree(numbers: map<Hash, nat>, d: Db) {
    forall x :: x in numbers ==> CachedNumberOk(d, x, numbers[x])
  }

  /** Every cached value is what the given database would return. */
  ghost predicate Agree(headers: map<Hash, Header>, tds: map<Hash, nat>, numbers: map<Hash, nat>, d: Db) {
    HeadersAgree(headers, d) && TdsAgree(tds, d) && NumbersAgree(numbers, d)
  }

  /** A cache from which a bounded one may have dropped entries. */
  ghost predicate Within<V>(cache: map<Hash, V>, full: map<Hash, V>) {
    forall x :: x in cache ==> x in full && cache[x] == full[x]
  }

  lemma AgreeWithin(p: Work, headers: map<Hash, Header>, tds: map<Hash, nat>, numbers: map<Hash, nat>, d: Db)
    requires Agree(p.headers, p.tds, p.numbers, d)
    requires Within(headers, p.headers) && Within(tds, p.tds) && Within(numbers, p.numbers)
    ensures Agree(headers, tds, numbers, d)
  {
  }

  lemma CacheHeader(d: Db, h: Header, headers: map<Hash, Header>)
    requires Numbered(h) && HeadersAgree(headers, d)
    ensures HeadersAgree(headers[HashOf(h) := h], WithHeader(d, h))
  {
  }

  lemma CacheTd(d: Db, h: Header, tds: map<Hash, nat>)
    requires Numbered(h) && TdsAgree(tds, d) && !HasHeader(d, h)
    ensures TdsAgree(tds[HashOf(h) := TotalDifficulty(h)], WithHeader(d, h))
  {
  }

  lemma CacheNumber(d: Db, h: Header, numbers: map<Hash, nat>)
    requires Numbered(h) && NumbersAgree(numbers, d)
    ensures NumbersAgree(numbers[HashOf(h) := h.number], WithHeader(d, h))
  {
  }

  lemma CacheOneMore(d: Db, h: Header, headers: map<Hash, Header>, tds: map<Hash, nat>, numbers: map<Hash, nat>)
    requires Numbered(h) && Agree(headers, tds, numbers, d) && !HasHeader(d, h)
    ensures Agree(headers[HashOf(h) := h], tds[HashOf(h) := TotalDifficulty(h)], numbers[HashOf(h) := h.number],
                  WithHeader(d, h))
  {
    CacheHeader(d, h, headers);
    CacheTd(d, h, tds);
    CacheNumber(d, h, numbers);
  }

  lemma FlushWithHeader(d: Db, batch: seq<Op>, h: Header)
    requires Numbered(h)
    ensures Flush(d, batch + [PutTd(h, TotalDifficulty(h))] + [PutHeader(h)]) == WithHeader(Flush(d, batch), h)
  {
    FlushAppend(d, batch, PutTd(h, TotalDifficulty(h)));
    FlushAppend(d, batch + [PutTd(h, TotalDifficulty(h))], PutHeader(h));
  }

  /** The database a pending batch would give, the caches and the insert counter. */
  datatype Work = Work(
    v: Db, headers: map<Hash, Header>, tds: map<Hash, nat>, numbers: map<Hash, nat>, inserted: nat)

  /** WriteHeaders without the shortcut: every header of the list, in order, is
      looked up in the database d and recorded if it is not there. */
  ghost function Record(d: Db, w: Work, hs: seq<Header>, i: nat): Work
    requires i <= |hs| && Linked(hs) && (i > 0 ==> Numbered(hs[0]))
  {
    if i == 0 then w
    else
      var p := Record(d, w, hs, i - 1);
      var h := Nth(hs, i - 1);
      if HasHeader(d, h) then p
      else Work(WithHeader(p.v, h), p.headers[HashOf(h) := h], p.tds[HashOf(h) := TotalDifficulty(h)],
                p.numbers[HashOf(h) := h.number], p.inserted + 1)
  }

  lemma {:induction false} RecordMembers(d: Db, w: Work, hs: seq<Header>, i: nat)
    requires i <= |hs| && Linked(hs) && (i > 0 ==> Numbered(hs[0])) && w.v == d
    ensures Record(d, w, hs, i).v.ancient == d.ancient && Record(d, w, hs, i).v.canon == d.canon
    ensures forall h :: HasHeader(Record(d, w, hs, i).v, h) <==> HasHeader(d, h) || h in hs[..i]
  {
    if i > 0 {
      RecordMembers(d, w, hs, i - 1);
      assert hs[..i] == hs[..i - 1] + [hs[i - 1]];
    }
  }

  lemma {:induction false} RecordStoreOk(d: Db, w: Work, hs: seq<Header>, i: nat)
    requires i <= |hs| && Linked(hs) && (i > 0 ==> Numbered(hs[0])) && w.v == d && StoreOk(d)
    requires i > 0 ==> hs[0].number > 0 && HasHeader(d, hs[0].parentHash.header)
    ensures StoreOk(Record(d, w, hs, i).v)
  {
    if i > 0 {
      RecordStoreOk(d, w, hs, i - 1);
      RecordMembers(d, w, hs, i - 1);
      NthStep(hs, i - 1);
      assert i > 1 ==> hs[i - 2] in hs[..i - 1];
      StoreOneMore(Record(d, w, hs, i - 1).v, Nth(hs, i - 1));
    }
  }

  lemma {:induction false} RecordAgrees(d: Db, w: Work, hs: seq<Header>, i: nat)
    requires i <= |hs| && Linked(hs) && (i > 0 ==> Numbered(hs[0]) && hs[0].number > 0) && w.v == d
    requires Agree(w.headers, w.tds, w.numbers, d)
    ensures var p := Record(d, w, hs, i); Agree(p.headers, p.tds, p.numbers, p.v)
  {
    if i > 0 {
      RecordAgrees(d, w, hs, i - 1);
      RecordMembers(d, w, hs, i - 1);
      NthStep(hs, i - 1);
      var p := Record(d, w, hs, i - 1);
      if !HasHeader(d, hs[i - 1]) {
        CacheOneMore(p.v, Nth(hs, i - 1), p.headers, p.tds, p.numbers);
      }
    }
  }

  lemma {:induction false} RecordCount(d: Db, w: Work, hs: seq<Header>, i: nat)
    requires i <= |hs| && Linked(hs) && (i > 0 ==> Numbered(hs[0]))
    ensures Record(d, w, hs, i).inserted == w.inserted + CountNew(d, hs[..i])
  {
    if i > 0 {
      RecordCount(d, w, hs, i - 1);
      CountNewAppend(d, hs, i - 1);
    }
  }

  /** In a sound store what follows a missing header is missing. */
  lemma {:induction false} LastIsNew(d: Db, hs: seq<Header>, k: nat)
    requires k < |hs| && Linked(hs) && Numbered(hs[0]) && hs[0].number > 0 && StoreOk(d) && !HasHeader(d, hs[k])
    ensures !HasHeader(d, hs[|hs| - 1])
    decreases |hs| - k
  {
    if k + 1 < |hs| {
      NthStep(hs, k + 1);
      assert HasHeader(d, hs[k + 1]) ==> RecordOk(d, hs[k + 1]);
      LastIsNew(d, hs, k + 1);
    }
  }

  /** If nothing is flushed, the caches agree with the unchanged database exactly
      when no header was new; whatever they have dropped, the last one added is there. */
  lemma RecordAborted(
    d: Db, w: Work, hs: seq<Header>, headers: map<Hash, Header>, tds: map<Hash, nat>, numbers: map<Hash, nat>)
    requires hs != [] && Linked(hs) && Numbered(hs[0]) && hs[0].number > 0 && w.v == d && StoreOk(d)
    requires Agree(w.headers, w.tds, w.numbers, d)
    requires var p := Record(d, w, hs, |hs|);
             Within(headers, p.headers) && Within(tds, p.tds) && Within(numbers, p.numbers)
    requires !HasHeader(d, hs[|hs| - 1]) ==> HashOf(hs[|hs| - 1]) in headers
    ensures Agree(headers, tds, numbers, d) <==> forall h :: h in hs ==> HasHeader(d, h)
  {
    if forall h :: h in hs ==> HasHeader(d, h) {
      RecordNothing(d, w, hs, |hs|);
      AgreeWithin(w, headers, tds, numbers, d);
    } else {
      var k :| 0 <= k < |hs| && !HasHeader(d, hs[k]);
      LastIsNew(d, hs, k);
      var last := hs[|hs| - 1];
      assert !CachedHeaderOk(d, HashOf(last), headers[HashOf(last)]);
    }
  }

  lemma {:induction false} RecordNothing(d: Db, w: Work, hs: seq<Header>, i: nat)
    requires i <= |hs| && Linked(hs) && (i > 0 ==> Numbered(hs[0]))
    requires forall h :: h in hs ==> HasHeader(d, h)
    ensures Record(d, w, hs, i) == w
  {
    if i > 0 {
      RecordNothing(d, w, hs, i - 1);
    }
  }

  /** What HeaderChain.HasHeader answers for a header of the right number. */
  predicate LookedUp(d: Db, headers: map<Hash, Header>, numbers: map<Hash, nat>, h: Header) {
    HashOf(h) in numbers || HashOf(h) in headers || HasHeader(d, h)
  }

  /** The parentKnown shortcut: skipping the lookup after an unknown parent gives
      the same answer as looking the header up in the database, even though the
      caches are being filled with headers that are not stored yet, and drop others. */
  lemma ShortcutAgrees(
    d: Db, w: Work, hs: seq<Header>, i: nat, headers: map<Hash, Header>, numbers: map<Hash, nat>)
    requires i < |hs| && Linked(hs) && Numbered(hs[0]) && w.v == d && StoreOk(d)
    requires hs[0].number > 0 && HasHeader(d, hs[0].parentHash.header)
    requires Agree(w.headers, w.tds, w.numbers, d)
    requires var p := Record(d, w, hs, i); Within(headers, p.headers) && Within(numbers, p.numbers)
    ensures ((i == 0 || HasHeader(d, hs[i - 1])) && LookedUp(d, headers, numbers, hs[i])) <==> HasHeader(d, hs[i])
  {
    var p, h := Record(d, w, hs, i), hs[i];
    NthStep(hs, i);
    RecordMembers(d, w, hs, i);
    RecordAgrees(d, w, hs, i);
    assert HasHeader(d, h) ==> RecordOk(d, h);
    assert HashOf(h) in p.headers ==> CachedHeaderOk(p.v, HashOf(h), p.headers[HashOf(h)]);
    assert HashOf(h) in p.numbers ==> CachedNumberOk(p.v, HashOf(h), p.numbers[HashOf(h)]);
  }

  /** Everything the finished list of records promises. */
  lemma RecordSound(d: Db, w: Work, hs: seq<Header>)
    requires hs != [] && Linked(hs) && Numbered(hs[0]) && hs[0].number > 0 && w.v == d && w.inserted == 0
    requires StoreOk(d) && HasHeader(d, hs[0].parentHash.header) && Agree(w.headers, w.tds, w.numbers, d)
    ensures var p := Record(d, w, hs, |hs|);
            && StoreOk(p.v) && Agree(p.headers, p.tds, p.numbers, p.v)
            && p.inserted == CountNew(d, hs)
            && p.v.ancient == d.ancient && p.v.canon == d.canon
            && (forall h :: HasHeader(p.v, h) <==> HasHeader(d, h) || h in hs)
  {
    assert hs[..|hs|] == hs;
    RecordMembers(d, w, hs, |hs|);
    RecordStoreOk(d, w, hs, |hs|);
    RecordAgrees(d, w, hs, |hs|);
    RecordCount(d, w, hs, |hs|);
  }

  lemma ExactFrame(d: Db, e: Db, head: Header)
    requires Exact(d, head) && e.canon == d.canon && e.ancient == d.ancient
    ensures Exact(e, head)
  {
    forall n: nat
      ensures CanonHash(e, n) == CanonHash(d, n)
    {
    }
  }

  lemma StoreOkFrame(d: Db, e: Db)
    requires StoreOk(d) && e == d.(canon := e.canon, headHeader := e.headHeader)
    ensures StoreOk(e)
  {
    forall h | HasHeader(e, h)
      ensures RecordOk(e, h)
    {
      assert RecordOk(d, h);
    }
  }

  /** In a sound store the backward walk always finds its cross link. */
  lemma {:induction false} StoredIsCrossLinked(db: Db, h: Header)
    requires StoreOk(db) && HasHeader(db, h)
    ensures Numbered(h) && CrossLinked(db, h)
    decreases h.number
  {
    assert RecordOk(db, h);
    if h.number > 0 {
      StoredIsCrossLinked(db, h.parentHash.header);
    }
  }

  datatype Status = NonStat | Side | Canon

  function StatusOf(reorg: bool, anyNew: bool, onChain: bool): Status {
    if !reorg then if anyNew then Side else NonStat else if onChain then NonStat else Canon
  }

  /** The header is in the index, at or below the head. */
  predicate OnChain(db: Db, head: Header, h: Header) {
    CanonHash(db, h.number) == HashOf(h) && h.number <= head.number
  }

  class HeaderChain {
    var db: Db
    var currentHeader: Header
    var currentHeaderHash: Hash
    var headerCache: map<Hash, Header>
    var tdCache: map<Hash, nat>
    var numberCache: map<Hash, nat>

    ghost predicate CachesAgree()
      reads this
    {
      Agree(headerCache, tdCache, numberCache, db)
    }

    /** Least-recently-used eviction: any entries may vanish from the caches. */
    method Evict(drop: set<Hash>)
      requires CachesAgree()
      modifies this`headerCache, this`tdCache, this`numberCache
      ensures CachesAgree()
      ensures headerCache == old(headerCache) - drop
      ensures tdCache == old(tdCache) - drop && numberCache == old(numberCache) - drop
    {
      headerCache := headerCache - drop;
      tdCache := tdCache - drop;
      numberCache := numberCache - drop;
    }

    /** GetHeader: the store's answer; a cached hash answers whatever the number is. */
    method GetHeader(hash: Hash, number: int) returns (r: Option<Header>)
      requires CachesAgree()
      modifies this`headerCache
      ensures (hash.HashOf? ==> hash.header.number == number) ==> r == ReadHeader(db, hash, number)
      ensures hash !in old(headerCache) ==> r == ReadHeader(db, hash, number)
      ensures hash in old(headerCache) ==> hash.HashOf? && r == Some(hash.header)
      ensures CachesAgree()
    {
      if hash in headerCache {
        return Some(headerCache[hash]);
      }
      r := ReadHeader(db, hash, number);
      if r.Some? {
        headerCache := headerCache[hash := r.value];
      }
    }

    method GetTd(hash: Hash, number: int) returns (r: Option<nat>)
      requires CachesAgree()
      modifies this`tdCache
      ensures (hash.HashOf? ==> hash.header.number == number) ==> r == ReadTd(db, hash, number)
      ensures hash !in old(tdCache) ==> r == ReadTd(db, hash, number)
      ensures hash in old(tdCache) ==> hash.HashOf? && r == ReadTd(db, hash, hash.header.number)
      ensures CachesAgree()
    {
      if hash in tdCache {
        return Some(tdCache[hash]);
      }
      r := ReadTd(db, hash, number);
      if r.Some? {
        tdCache := tdCache[hash := r.value];
      }
    }

    predicate Known(hash: Hash, number: int)
      reads this
    {
      hash in numberCache || hash in headerCache ||
      (hash.HashOf? && hash.header.number == number && HasHeader(db, hash.header))
    }

    method RecordOne(header: Header, hash: Hash, td: nat, batch: seq<Op>) returns (more: seq<Op>)
      requires Numbered(header) && hash == HashOf(header) && td == TotalDifficulty(header)
      modifies this`headerCache, this`tdCache, this`numberCache
      ensures Flush(db, more) == WithHeader(Flush(db, batch), header)
      ensures Within(headerCache, old(headerCache)[hash := header]) && hash in headerCache
      ensures Within(tdCache, old(tdCache)[hash := td]) && hash in tdCache
      ensures Within(numberCache, old(numberCache)[hash := header.number]) && hash in numberCache
    {
      FlushWithHeader(db, batch, header);
      // what the caches drop to make room
      var tds: set<Hash>, headers: set<Hash>, numbers: set<Hash> := *, *, *;
      more := batch + [PutTd(hash.header, td)];
      tdCache := (tdCache - tds)[hash := td];
      more := more + [PutHeader(header)];
      headerCache := (headerCache - headers)[hash := header];
      numberCache := (numberCache - numbers)[hash := header.number];
    }

    /** The loop of WriteHeaders: queue what is missing, and fill the caches at once. */
    method RecordAll(headers: seq<Header>, ptd: nat) returns (batch: seq<Op>, inserted: nat)
      requires StoreOk(db) && CachesAgree() && headers != [] && Linked(headers)
      requires headers[0].parentHash.HashOf? && RecordOk(db, headers[0].parentHash.header)
      requires NumberFollowsParent(headers[0]) && ptd == TotalDifficulty(headers[0].parentHash.header)
      modifies this`headerCache, this`tdCache, this`numberCache
      ensures var p := Record(db, Work(db, old(headerCache), old(tdCache), old(numberCache), 0), headers, |headers|);
              && p.v == Flush(db, batch) && p.inserted == inserted
              && Within(headerCache, p.headers) && Within(tdCache, p.tds) && Within(numberCache, p.numbers)
      ensures !HasHeader(db, headers[|headers| - 1]) ==> HashOf(headers[|headers| - 1]) in headerCache
    {
      var newTD: nat, parentKnown := ptd, true;
      batch, inserted := [], 0;
      ghost var w := Work(db, headerCache, tdCache, numberCache, 0);
      ghost var p := w;
      for i := 0 to |headers|
        invariant db == w.v && p == Record(db, w, headers, i) && p.v == Flush(db, batch)
        invariant Within(headerCache, p.headers) && Within(tdCache, p.tds) && Within(numberCache, p.numbers)
        invariant p.inserted == inserted
        invariant i > 0 && !HasHeader(db, headers[i - 1]) ==> HashOf(headers[i - 1]) in headerCache
        invariant newTD == TotalDifficulty(if i == 0 then headers[0].parentHash.header else Nth(headers, i - 1))
        invariant parentKnown <==> i == 0 || HasHeader(db, headers[i - 1])
      {
        var header := headers[i];
        var hash := if i < |headers| - 1 then headers[i + 1].parentHash else HashOf(header);
        assert hash == HashOf(header);
        NthStep(headers, i);
        ShortcutAgrees(db, w, headers, i, headerCache, numberCache);
        newTD := newTD + header.difficulty;
        var alreadyKnown := parentKnown && Known(hash, header.number);
        if !alreadyKnown {
          batch := RecordOne(header, hash, newTD, batch);
          inserted := inserted + 1;
        }
        parentKnown := alreadyKnown;
        p := Record(db, w, headers, i + 1);
      }
    }

    /** WriteHeaders. `interrupted` is the answer of procInterrupt. */
    method WriteHeaders(headers: seq<Header>, interrupted: bool) returns (r: Result<nat>)
      requires StoreOk(db) && CachesAgree()
      requires Linked(headers) && (headers != [] ==> NumberFollowsParent(headers[0]))
      modifies this`db, this`headerCache, this`tdCache, this`numberCache
      ensures r == Err(UnknownAncestor) <==>
              headers != [] && ReadTd(old(db), headers[0].parentHash, headers[0].number - 1).None?
      ensures r == Err(Aborted) <==>
              headers != [] && interrupted && ReadTd(old(db), headers[0].parentHash, headers[0].number - 1).Some?
      ensures r.Err? ==> r.error in {UnknownAncestor, Aborted} && db == old(db)
      ensures r.Ok? ==> r.value == CountNew(old(db), headers)
      ensures r.Ok? ==> forall h :: HasHeader(db, h) <==> HasHeader(old(db), h) || h in headers
      ensures db.ancient == old(db).ancient && db.canon == old(db).canon
      ensures StoreOk(db)
      ensures CachesAgree() <==> (r == Err(Aborted) ==> forall h :: h in headers ==> HasHeader(db, h))
    {
      if headers == [] {
        return Ok(0);
      }
      var ptd := GetTd(headers[0].parentHash, headers[0].number - 1);
      if ptd.None? {
        return Err(UnknownAncestor);
      }
      ghost var w := Work(db, headerCache, tdCache, numberCache, 0);
      assert RecordOk(db, headers[0].parentHash.header);
      var batch, inserted := RecordAll(headers, ptd.value);
      RecordSound(db, w, headers);
      RecordAborted(db, w, headers, headerCache, tdCache, numberCache);
      AgreeWithin(Record(db, w, headers, |headers|), headerCache, tdCache, numberCache, Flush(db, batch));
      if interrupted {
        return Err(Aborted);
      }
      db := Flush(db, batch);
      return Ok(inserted);
    }

    /** The backward walk of Reorg: overwrite stale index entries from `first` down
        to the cross link. It reads the database, never the pending batch. */
    method OverwriteStale(first: Header, batch: seq<Op>)
      returns (more: seq<Op>, err: Option<Error>, ghost link: int)
      requires CachesAgree() && Numbered(first)
      modifies this`headerCache
      ensures CachesAgree()
      ensures err.None? <==> CrossLinked(db, first)
      ensures err.Some? ==> err.value.MissingParent?
      ensures -1 <= link <= first.number
      ensures err.None? && link >= 0 ==> CanonHash(db, link) == HashOf(Ancestor(first, link))
      ensures Flush(db, more) == Flush(db, batch).(canon := Flush(db, more).canon)
      ensures err.None? ==> Overwritten(Flush(db, batch).canon, Flush(db, more).canon, first, link)
    {
      var header, headNumber, headHash := first, first.number, HashOf(first);
      more, err, link := batch, None, first.number;
      ghost var u, v := Flush(db, batch), Flush(db, batch);
      while CanonHash(db, headNumber) != headHash
        invariant CachesAgree()
        invariant 0 <= headNumber <= first.number && header == Ancestor(first, headNumber) && headHash == HashOf(header)
        invariant CrossLinked(db, first) <==> CrossLinked(db, header)
        invariant v == Flush(db, more) == u.(canon := v.canon) && Overwritten(u.canon, v.canon, first, headNumber)
        decreases headNumber
      {
        FlushAppend(db, more, PutCanon(headNumber, headHash));
        EntryPut(v.canon, headNumber, headHash);
        more := more + [PutCanon(headNumber, headHash)];
        v := Flush(db, more);
        if headNumber == 0 {
          link := -1;
          return;
        }
        AncestorParent(first, headNumber);
        headHash, headNumber := header.parentHash, header.number - 1;
        var parent := GetHeader(headHash, headNumber);
        if parent.None? {
          err := Some(MissingParent(headNumber, headHash));
          return;
        }
        header := parent.value;
      }
      link := headNumber;
    }

    /** What Reorg does when the new headers do not extend the head. */
    method ClearStale(first: Header, top: nat)
      returns (batch: seq<Op>, err: Option<Error>, ghost link: int, ghost stop: nat)
      requires CachesAgree() && Numbered(first) && first.number <= top && Exact(db, currentHeader)
      modifies this`headerCache
      ensures CachesAgree()
      ensures err.None? <==> CrossLinked(db, first)
      ensures err.Some? ==> err.value.MissingParent?
      ensures err.None? ==> Cleared(db, Flush(db, batch), first, top, link, stop)
      ensures Flush(db, batch) == db.(canon := Flush(db, batch).canon)
    {
      batch, stop := DeleteCanonRun(db, [], top + 1, currentHeader.number);
      batch, err, link := OverwriteStale(first, batch);
    }

    /** Reorg turns an exact index for the old head into one for the last header,
        whatever the fork point, if and only if the freezer holds a prefix of the
        new path; on a missing parent nothing is written. */
    method Reorg(headers: seq<Header>) returns (r: Result<()>)
      requires CachesAgree()
      requires Exact(db, currentHeader) && currentHeaderHash == HashOf(currentHeader)
      requires Linked(headers) && (headers != [] ==> Numbered(headers[0]) && NumberFollowsParent(headers[0]))
      modifies this`db, this`headerCache, this`currentHeader, this`currentHeaderHash
      ensures r.Err? <==> headers != [] && headers[0].parentHash != old(currentHeaderHash) &&
                          !CrossLinked(old(db), headers[0])
      ensures r.Err? ==> r.error.MissingParent?
      ensures r.Err? || headers == [] ==>
              db == old(db) && currentHeader == old(currentHeader) && currentHeaderHash == old(currentHeaderHash)
      ensures r.Ok? && headers != [] ==>
              var last := headers[|headers| - 1];
              && currentHeader == last && currentHeaderHash == db.headHeader == HashOf(last)
              && db == old(db).(canon := db.canon, headHeader := db.headHeader)
              && Exact(db, last) == FrozenOnPath(old(db), last)
      ensures CachesAgree()
    {
      if headers == [] {
        return Ok(());
      }
      var first, last, batch := headers[0], headers[|headers| - 1], [];
      ghost var link: int := first.number - 1;
      ghost var stop := last.number + 1;
      LinkedNumbers(headers, 0, |headers| - 1);
      if first.parentHash != currentHeaderHash {
        var err;
        batch, err, link, stop := ClearStale(first, last.number);
        if err.Some? {
          return Err(err.value);
        }
      }
      ghost var v := Flush(db, batch);
      batch := Extend(db, batch, headers);
      ReorgExact(db, currentHeader, v, Flush(db, batch), headers, link, stop);
      db := Flush(db, batch);
      currentHeaderHash := HashOf(last);
      currentHeader := last;
      return Ok(());
    }

    ghost predicate Valid()
      reads this
    {
      && StoreOk(db) && CachesAgree() && Exact(db, currentHeader) && currentHeaderHash == HashOf(currentHeader)
      && HasHeader(db, currentHeader)
    }

    /** writeHeadersAndSetHead: a sound store with an exact index stays so, and neither the
        fork choice nor Reorg fails. */
    method WriteHeadersAndSetHead(headers: seq<Header>, interrupted: bool, rules: ForkChoices.Rules, coin: bool)
      returns (r: Result<Status>, ghost v: ForkChoices.Verdict)
      requires Valid() && headers != [] && Linked(headers) && NumberFollowsParent(headers[0])
      modifies this
      ensures r.Err? ==> r.error in {UnknownAncestor, Aborted} && db == old(db)
      ensures r == Err(UnknownAncestor) <==> ReadTd(old(db), headers[0].parentHash, headers[0].number - 1).None?
      ensures r == Err(Aborted) <==>
              interrupted && ReadTd(old(db), headers[0].parentHash, headers[0].number - 1).Some?
      ensures r != Err(Aborted) ==> StoreOk(db) && CachesAgree()
      ensures r != Err(Aborted) ==>
              (Valid() <==> (r == Ok(Canon) ==> FrozenOnPath(old(db), headers[|headers| - 1])))
      ensures r.Ok? ==> forall h :: HasHeader(db, h) <==> HasHeader(old(db), h) || h in headers
      ensures v == ForkChoices.ReorgNeededWithFastFinality(rules, db, old(currentHeader), headers[|headers| - 1], coin)
      ensures r.Ok? ==> v.Decided?
      ensures r.Ok? ==>
              var last := headers[|headers| - 1];
              && r.value == StatusOf(v.reorg, CountNew(old(db), headers) != 0,
                                     OnChain(old(db), old(currentHeader), last))
              && currentHeader == if r.value == Canon then last else old(currentHeader)
    {
      var last := headers[|headers| - 1];
      var inserted := WriteHeaders(headers, interrupted);
      v := ForkChoices.ReorgNeededWithFastFinality(rules, db, currentHeader, last, coin);
      if inserted.Err? {
        return Err(inserted.error), v;
      }
      ExactFrame(old(db), db, currentHeader);
      assert HasHeader(db, last) && HasHeader(db, headers[0]);
      ForkChoices.StoredIsDecided(rules, db, currentHeader, last, coin);
      ghost var d := db;
      var status := Choose(headers, inserted.value, rules, coin);
      ForkChoices.VerdictFrame(rules, d, db, old(currentHeader), last, coin);
      return Ok(status), v;
    }

    /** The part after the headers are written. */
    method Choose(headers: seq<Header>, inserted: nat, rules: ForkChoices.Rules, coin: bool) returns (status: Status)
      requires Valid() && headers != [] && Linked(headers) && NumberFollowsParent(headers[0])
      requires HasHeader(db, headers[0]) && HasHeader(db, headers[|headers| - 1])
      requires ForkChoices.ReorgNeededWithFastFinality(rules, db, currentHeader, headers[|headers| - 1], coin).Decided?
      modifies this
      ensures StoreOk(db) && CachesAgree() && db == old(db).(canon := db.canon, headHeader := db.headHeader)
      ensures Valid() == (status == Canon ==> FrozenOnPath(old(db), headers[|headers| - 1]))
      ensures var last := headers[|headers| - 1];
              var v := ForkChoices.ReorgNeededWithFastFinality(rules, old(db), old(currentHeader), last, coin);
              && status == StatusOf(v.reorg, inserted != 0, OnChain(old(db), old(currentHeader), last))
              && currentHeader == if status == Canon then last else old(currentHeader)
    {
      var last := headers[|headers| - 1];
      var v := ForkChoices.ReorgNeededWithFastFinality(rules, db, currentHeader, last, coin);
      // v is a decision: the source's error return after the fork choice is dead
      if !v.reorg {
        return if inserted != 0 then Side else NonStat;
      }
      if OnChain(db, currentHeader, last) {
        return NonStat;
      }
      SwitchTo(headers);
      return Canon;
    }

    /** The reorganisation to stored headers, which never misses a parent. */
    method SwitchTo(headers: seq<Header>)
      requires Valid() && headers != [] && Linked(headers) && NumberFollowsParent(headers[0])
      requires HasHeader(db, headers[0]) && HasHeader(db, headers[|headers| - 1])
      modifies this
      ensures StoreOk(db) && CachesAgree() && db == old(db).(canon := db.canon, headHeader := db.headHeader)
      ensures currentHeader == headers[|headers| - 1]
      ensures Valid() == FrozenOnPath(old(db), headers[|headers| - 1])
    {
      StoredIsCrossLinked(db, headers[0]);
      ghost var d := db;
      var e := Reorg(headers);
      assert e.Ok?;  // the source's error return after this call is dead
      StoreOkFrame(d, db);
    }

    /** GetAncestor: with the canonical-index shortcut, the same answer as following
        `ancestor` parent links; it gives up exactly when a header of the
        non-canonical run is missing or the budget is smaller than that run. */
    method GetAncestor(hash: Hash, number: nat, ancestor: nat, maxNonCanonical: nat)
      returns (rHash: Hash, rNumber: nat, budget: nat)
      requires CachesAgree() && Exact(db, currentHeader)
      requires hash.HashOf? && hash.header.number == number && Numbered(hash.header)
      modifies this`headerCache
      ensures CachesAgree()
      ensures rHash.Zero? ==> rNumber == 0
      ensures rHash.HashOf? ==>
              ancestor <= number && rNumber == number - ancestor && rHash == HashOf(Ancestor(hash.header, rNumber))
      ensures ancestor > number ==> rHash.Zero? && budget == maxNonCanonical
      ensures ancestor == 1 && number >= 1 ==>
              (rHash.HashOf? <==> HasHeader(db, hash.header)) && budget == maxNonCanonical
      ensures ancestor != 1 && ancestor <= number ==>
              var run := NonCanonicalRun(db, hash.header, ancestor);
              && (rHash.HashOf? <==> run <= maxNonCanonical && RunStored(db, hash.header, ancestor))
              && (rHash.HashOf? ==> budget == maxNonCanonical - run)
      ensures budget <= maxNonCanonical
    {
      budget := maxNonCanonical;
      if ancestor > number {
        return Zero, 0, budget;
      }
      if ancestor == 1 {
        var header := GetHeader(hash, number);
        if header.Some? {
          return header.value.parentHash, number - 1, budget;
        }
        return Zero, 0, budget;
      }
      var x, n: nat, left: nat := hash, number, ancestor;
      while left != 0
        invariant CachesAgree()
        invariant left <= n <= number && n - left == number - ancestor
        invariant x == HashOf(Ancestor(hash.header, n))
        invariant budget <= maxNonCanonical
        invariant NonCanonicalRun(db, hash.header, ancestor) ==
                  maxNonCanonical - budget + NonCanonicalRun(db, x.header, left)
        invariant RunStored(db, hash.header, ancestor) <==> RunStored(db, x.header, left)
        decreases left
      {
        if CanonHash(db, n) == x {
          var ancestorHash := CanonHash(db, n - left);
          if CanonHash(db, n) == x {
            CanonicalPath(db, currentHeader, x.header, n - left);
            AncestorTrans(hash.header, n, n - left);
            return ancestorHash, n - left, budget;
          }
        }
        if budget == 0 {
          return Zero, 0, budget;
        }
        budget := budget - 1;
        left := left - 1;
        var header := GetHeader(x, n);
        if header.None? {
          return Zero, 0, budget;
        }
        AncestorParent(hash.header, n);
        x := header.value.parentHash;
        n := n - 1;
      }
      return x, n, budget;
    }
  }

  /** What reading the index entry of h before and after its ancestor's guarantees when
      the index is replaced meanwhile: if it is replaced at most once, by an exact one,
      the ancestor read in between is h's. */
  lemma DoubleRead(first: Db, between: Db, second: Db, head: Header, h: Header, n: nat)
    requires Exact(between, head) && Numbered(h) && n <= h.number
    requires CanonHash(first, h.number) == HashOf(h) == CanonHash(second, h.number)
    requires (between.canon == first.canon && between.ancient == first.ancient) ||
             (between.canon == second.canon && between.ancient == second.ancient)
    ensures CanonHash(between, n) == HashOf(Ancestor(h, n))
  {
    CanonicalPath(between, head, h, n);
  }

  /** Replaced twice, away and back, it need not be. */
  lemma DoubleReadMissesTwoSwitches()
    ensures var g := Header(Zero, 0, 0, 0, 0, 0, []);
            var a, b := Header(HashOf(g), 1, 0, 0, 0, 1, []), Header(HashOf(g), 1, 0, 0, 0, 2, []);
            var h := Header(HashOf(a), 2, 0, 0, 0, 1, []);
            var empty := Db({}, {}, map[], map[], map[], [], Zero, Zero, Zero);
            var here := empty.(canon := map[0 := HashOf(g), 1 := HashOf(a), 2 := HashOf(h)]);
            var there := empty.(canon := map[0 := HashOf(g), 1 := HashOf(b)]);
            Exact(here, h) && Exact(there, b) && CanonHash(here, 2) == HashOf(h) &&
            CanonHash(there, 1) != HashOf(Ancestor(h, 1))
  {
    var g := Header(Zero, 0, 0, 0, 0, 0, []);
    var a, b := Header(HashOf(g), 1, 0, 0, 0, 1, []), Header(HashOf(g), 1, 0, 0, 0, 2, []);
    var h := Header(HashOf(a), 2, 0, 0, 0, 1, []);
    assert Ancestor(a, 1) == a && Ancestor(a, 0) == g && Ancestor(b, 0) == g;
    assert Ancestor(h, 2) == h && Ancestor(h, 1) == a && Ancestor(h, 0) == g;
  }

  method Extend(db: Db, batch: seq<Op>, headers: seq<Header>) returns (more: seq<Op>)
    requires headers != [] && Linked(headers)
    ensures Flush(db, more) ==
            Flush(db, batch).(canon := Flush(db, more).canon, headHeader := Flush(db, more).headHeader)
    ensures Flush(db, more).headHeader == HashOf(headers[|headers| - 1])
    ensures ExtendedBy(Flush(db, batch).canon, Flush(db, more).canon, headers, |headers|)
  {
    more := batch;
    ghost var u, v := Flush(db, batch), Flush(db, batch);
    for i := 0 to |headers| - 1
      invariant v == Flush(db, more) == u.(canon := v.canon, headHeader := v.headHeader)
      invariant ExtendedBy(u.canon, v.canon, headers, i)
    {
      var hash, num := headers[i + 1].parentHash, headers[i].number;
      ExtendedStep(u.canon, v.canon, headers, i);
      more := ExtendOne(db, more, hash, num);
      v := Flush(db, more);
    }
    var hash, num := HashOf(headers[|headers| - 1]), headers[|headers| - 1].number;
    ExtendedStep(u.canon, v.canon, headers, |headers| - 1);
    more := ExtendOne(db, more, hash, num);
  }

  method ExtendOne(db: Db, batch: seq<Op>, hash: Hash, num: nat) returns (more: seq<Op>)
    ensures Flush(db, more) == Flush(db, batch).(canon := Flush(db, batch).canon[num := hash], headHeader := hash)
  {
    ghost var u := Flush(db, batch);
    FlushAppend(db, batch, PutCanon(num, hash));
    more := batch + [PutCanon(num, hash)];
    assert Flush(db, more) == u.(canon := u.canon[num := hash]);
    FlushAppend(db, more, PutHeadHeader(hash));
    more := more + [PutHeadHeader(hash)];
  }

  /** Above the link, the index entries are now the path of `first`. */
  ghost predicate Overwritten(c: map<nat, Hash>, e: map<nat, Hash>, first: Header, link: int)
    requires Numbered(first)
  {
    forall n: nat ::
      Entry(e, n) == if link < n <= first.number then HashOf(Ancestor(first, n)) else Entry(c, n)
  }

  /** Above the link and below `first` the index is the path of `first`; above the
      height `top` it is empty up to `stop`, where it was empty before. */
  ghost predicate Cleared(db: Db, v: Db, first: Header, top: nat, link: int, stop: nat)
    requires Numbered(first)
  {
    && -1 <= link <= first.number && top < stop && CanonHash(db, stop) == Zero
    && (link >= 0 ==> CanonHash(db, link) == HashOf(Ancestor(first, link)))
    && (forall n: nat :: n < first.number ==>
          Entry(v.canon, n) == if link < n then HashOf(Ancestor(first, n)) else Entry(db.canon, n))
    && (forall n: nat :: top < n ==> Entry(v.canon, n) == if n < stop then Zero else Entry(db.canon, n))
  }

  /** Deleted run, overwritten stretch and new headers add up to the new path. */
  lemma ReorgExact(db: Db, cur: Header, v: Db, w: Db, headers: seq<Header>, link: int, stop: nat)
    requires Exact(db, cur) && headers != [] && Linked(headers) && Numbered(headers[0])
    requires var first, last := headers[0], headers[|headers| - 1];
      Cleared(db, v, first, last.number, link, stop)
    requires w.ancient == db.ancient && ExtendedBy(v.canon, w.canon, headers, |headers|)
    ensures Exact(w, headers[|headers| - 1]) == FrozenOnPath(db, headers[|headers| - 1])
  {
    var first, last := headers[0], headers[|headers| - 1];
    LinkedPath(headers, 0, |headers| - 1);
    LinkedNumbers(headers, 0, |headers| - 1);
    forall n: nat | |w.ancient| <= n
      ensures CanonHash(w, n) == if n <= last.number then HashOf(Ancestor(last, n)) else Zero
    {
      if first.number <= n <= last.number {
        LinkedNumbers(headers, 0, n - first.number);
        LinkedPath(headers, n - first.number, |headers| - 1);
      } else if n < first.number {
        AncestorTrans(last, first.number, n);
        if n <= link {
          PathsAgreeBelow(cur, first, link, n);
        }
      } else {
        assert n >= stop ==> CanonHash(db, n) == Zero;
      }
    }
    ExactIffFrozenOnPath(w, last);
  }

  /** The first i headers have their index entries; nothing else changed. */
  ghost predicate ExtendedBy(c: map<nat, Hash>, e: map<nat, Hash>, headers: seq<Header>, i: nat)
    requires i <= |headers|
  {
    forall n: nat :: Entry(e, n) ==
      if |headers| > 0 && headers[0].number <= n < headers[0].number + i
      then HashOf(headers[n - headers[0].number]) else Entry(c, n)
  }

  lemma ExtendedStep(c: map<nat, Hash>, e: map<nat, Hash>, headers: seq<Header>, i: nat)
    requires i < |headers| && Linked(headers) && ExtendedBy(c, e, headers, i)
    ensures ExtendedBy(c, e[headers[i].number := HashOf(headers[i])], headers, i + 1)
  {
    LinkedNumbers(headers, 0, i);
    var lo, e' := headers[0].number, e[headers[i].number := HashOf(headers[i])];
    EntryPut(e, headers[i].number, HashOf(headers[i]));
    forall n: nat
      ensures Entry(e', n) == if lo <= n < lo + i + 1 then HashOf(headers[n - lo]) else Entry(c, n)
    {
      assert Entry(e', n) == if n == lo + i then HashOf(headers[i]) else Entry(e, n);
    }
  }
}
