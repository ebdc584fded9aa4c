/** core/blockchain.go: the search, down from a header, for a head block whose
    state is available, in the hash scheme and in the path scheme. */
module Rewinds {
  import opened Chain
  import opened Options

  const FULL_IMMUTABILITY_THRESHOLD: nat := 90000

  /** Rewound: the header found and the height of the requested root (0 if it was
      not crossed). NilHeader: a nil header is dereferenced below height `at`.
      Crit: state recovery failed and the process exits. */
  datatype Outcome = Rewound(head: Header, rootNumber: nat) | NilHeader(at: nat) | Crit

  // ---------------------------------------------------------------- what is searched for

  /** A block of h's path, at height n or above, has its root among `hits`; `met`
      says that this was already so above h. */
  ghost predicate Met(h: Header, n: nat, hits: set<Root>, met: bool)
    requires Numbered(h) && n <= h.number
    decreases h.number
  {
    met || h.root in hits || (n < h.number && Met(h.parentHash.header, n, hits, false))
  }

  /** The block at height n has its state at hand, and the search has been released
      at or above it. */
  ghost predicate Acceptable(h: Header, n: nat, hits: set<Root>, states: set<Root>, met: bool)
    requires Numbered(h) && n <= h.number
  {
    Ancestor(h, n).root in states && Met(h, n, hits, met)
  }

  /** Between n and h no block is acceptable. */
  ghost predicate NoneAbove(h: Header, n: nat, hits: set<Root>, states: set<Root>, met: bool)
    requires Numbered(h)
  {
    forall k: nat :: n < k <= h.number ==> !Acceptable(h, k, hits, states, met)
  }

  /** One step down: the parent, with the flag updated at h, sees the same blocks. */
  lemma NoneAboveStep(h: Header, n: nat, hits: set<Root>, states: set<Root>, met: bool)
    requires Numbered(h) && n < h.number && !Acceptable(h, h.number, hits, states, met)
    requires NoneAbove(h.parentHash.header, n, hits, states, met || h.root in hits)
    ensures NoneAbove(h, n, hits, states, met)
  {
    var p := h.parentHash.header;
    forall k: nat | n < k <= h.number
      ensures !Acceptable(h, k, hits, states, met)
    {
      if k < h.number {
        assert !Acceptable(p, k, hits, states, met || h.root in hits);
      }
    }
  }

  ghost predicate HighestMatch(h: Header, root: Root, m: nat)
    requires Numbered(h)
  {
    && m <= h.number && Ancestor(h, m).root == root
    && forall k: nat :: m < k <= h.number ==> Ancestor(h, k).root != root
  }

  /** x is h or a stored ancestor of h. */
  ghost predicate OnPath(db: Db, h: Header, x: Header)
    requires Numbered(h)
  {
    x.number <= h.number && x == Ancestor(h, x.number) && (x == h || HasHeader(db, x))
  }

  // ---------------------------------------------------------------- hash scheme

  /** The oldest height the hash scheme searches. */
  function Limit(head: Header, pivot: Option<nat>): nat {
    if pivot.Some? then pivot.value
    else if head.number > FULL_IMMUTABILITY_THRESHOLD then head.number - FULL_IMMUTABILITY_THRESHOLD
    else 0
  }

  datatype Search = Search(db: Db, root: Root, limit: nat, hasState: set<Root>, genesis: Header)

  function HashSearch(s: Search, head: Header, beyondRoot: bool, rootNumber: nat): Outcome
    decreases head.number
  {
    var met := !beyondRoot && head.root == s.root;
    var beyond, number := beyondRoot || met, if met then head.number else rootNumber;
    var parent := ReadHeader(s.db, head.parentHash, head.number - 1);
    if head.number < s.limit then Rewound(s.genesis, number)
    else if head.root !in s.hasState then
      if parent.None? then Rewound(s.genesis, number)
      else if parent.value.number == 0 then Rewound(parent.value, number)
      else HashSearch(s, parent.value, beyond, number)
    else if beyond || head.number == 0 then Rewound(head, number)
    else if parent.None? then NilHeader(head.number)
    else HashSearch(s, parent.value, beyond, number)
  }

  /** rewindHashHead. */
  method RewindHashHead(db: Db, start: Header, root: Root, pivot: Option<nat>, hasState: set<Root>, genesis: Header)
    returns (r: Outcome)
    ensures r == HashSearch(Search(db, root, Limit(start, pivot), hasState, genesis), start, root == 0, 0)
  {
    var limit := Limit(start, pivot);
    var beyondRoot, rootNumber: nat, head := root == 0, 0, start;
    ghost var s := Search(db, root, limit, hasState, genesis);
    while true
      invariant HashSearch(s, start, root == 0, 0) == HashSearch(s, head, beyondRoot, rootNumber)
      decreases head.number
    {
      if !beyondRoot && head.root == root {
        beyondRoot, rootNumber := true, head.number;
      }
      if head.number < limit {
        return Rewound(genesis, rootNumber);
      }
      if head.root !in hasState {
        var parent := ReadHeader(db, head.parentHash, head.number - 1);
        if parent.None? {
          return Rewound(genesis, rootNumber);
        }
        head := parent.value;
        if head.number == 0 {
          return Rewound(head, rootNumber);
        }
        continue;
      }
      if beyondRoot || head.number == 0 {
        return Rewound(head, rootNumber);
      }
      var parent := ReadHeader(db, head.parentHash, head.number - 1);
      if parent.None? {
        return NilHeader(head.number);
      }
      head := parent.value;
    }
  }

  /** A head found above height zero is the highest acceptable block, stored, and
      not below the limit. */
  lemma {:induction false} HashFindsHighest(s: Search, h: Header, beyondRoot: bool, rootNumber: nat)
    requires Numbered(h) && s.genesis.number == 0
    ensures var r := HashSearch(s, h, beyondRoot, rootNumber);
            r.Rewound? && r.head.number > 0 ==>
              && OnPath(s.db, h, r.head) && s.limit <= r.head.number
              && Acceptable(h, r.head.number, {s.root}, s.hasState, beyondRoot)
              && NoneAbove(h, r.head.number, {s.root}, s.hasState, beyondRoot)
    decreases h.number
  {
    var r := HashSearch(s, h, beyondRoot, rootNumber);
    var met := !beyondRoot && h.root == s.root;
    if h.number > 0 {
      HashFindsHighest(s, h.parentHash.header, beyondRoot || met, if met then h.number else rootNumber);
      if r.Rewound? && 0 < r.head.number < h.number {
        NoneAboveStep(h, r.head.number, {s.root}, s.hasState, beyondRoot);
      }
    }
  }

  /** Ending at height zero means, on an ungapped chain, that no block from the limit
      up is acceptable. */
  lemma {:induction false} HashResetsOnlyIfNone(s: Search, h: Header, beyondRoot: bool, rootNumber: nat)
    requires Numbered(h) && s.genesis.number == 0 && Ungapped(s.db, h)
    ensures var r := HashSearch(s, h, beyondRoot, rootNumber);
            && r.Rewound?
            && (r.head.number == 0 ==>
                  && (r.head == s.genesis || r.head == Ancestor(h, 0))
                  && NoneAbove(h, if s.limit == 0 then 0 else s.limit - 1, {s.root}, s.hasState, beyondRoot))
    decreases h.number
  {
    var r := HashSearch(s, h, beyondRoot, rootNumber);
    var met := !beyondRoot && h.root == s.root;
    var lo: nat := if s.limit == 0 then 0 else s.limit - 1;
    if h.number > 0 {
      var p := h.parentHash.header;
      UngappedParent(s.db, h);
      if s.limit <= h.number && !Acceptable(h, h.number, {s.root}, s.hasState, beyondRoot) {
        if p.number == 0 && h.root !in s.hasState {
          NoneAboveStep(h, 0, {s.root}, s.hasState, beyondRoot);
        } else {
          HashResetsOnlyIfNone(s, p, beyondRoot || met, if met then h.number else rootNumber);
          if r.head.number == 0 && lo < h.number {
            NoneAboveStep(h, lo, {s.root}, s.hasState, beyondRoot);
          }
        }
      }
    }
  }

  lemma UngappedParent(db: Db, h: Header)
    requires Ungapped(db, h) && h.number > 0
    ensures HasHeader(db, h) && HasHeader(db, h.parentHash.header) && Ungapped(db, h.parentHash.header)
  {
    assert Ancestor(h, h.number) == h && Ancestor(h, h.number - 1) == h.parentHash.header;
    forall n: nat | n <= h.number - 1
      ensures HasHeader(db, Ancestor(h.parentHash.header, n))
    {
      assert HasHeader(db, Ancestor(h, n));
    }
  }

  // The ancestors of h from height k up, h itself aside, are stored.
  ghost predicate StoredDownTo(db: Db, h: Header, k: nat)
    requires Numbered(h)
  {
    forall j: nat :: k <= j < h.number ==> HasHeader(db, Ancestor(h, j))
  }

  lemma StoredDownToStep(db: Db, h: Header, k: nat)
    requires Numbered(h) && k < h.number
    ensures StoredDownTo(db, h, k) ==
            (HasHeader(db, h.parentHash.header) && StoredDownTo(db, h.parentHash.header, k))
  {
    var p := h.parentHash.header;
    assert Ancestor(h, p.number) == p;
    if StoredDownTo(db, h, k) {
      forall j: nat | k <= j < p.number
        ensures HasHeader(db, Ancestor(p, j))
      {
        assert HasHeader(db, Ancestor(h, j));
      }
    } else {
      var j: nat :| k <= j < h.number && !HasHeader(db, Ancestor(h, j));
      assert j < p.number ==> !HasHeader(db, Ancestor(p, j));
    }
  }

  /** A gap right below a block with state, reached before the root is crossed. */
  ghost predicate GapAtState(s: Search, h: Header, k: nat, beyondRoot: bool)
    requires Numbered(h)
  {
    && 0 < k <= h.number && s.limit <= k
    && StoredDownTo(s.db, h, k) && !HasHeader(s.db, Ancestor(h, k - 1))
    && Ancestor(h, k).root in s.hasState && !Met(h, k, {s.root}, beyondRoot)
  }

  lemma GapAtStateStep(s: Search, h: Header, k: nat, beyondRoot: bool)
    requires Numbered(h) && h.number > 0 && k != h.number
    ensures GapAtState(s, h, k, beyondRoot) ==
            (HasHeader(s.db, h.parentHash.header) &&
             GapAtState(s, h.parentHash.header, k, beyondRoot || h.root == s.root))
  {
    if k < h.number {
      StoredDownToStep(s.db, h, k);
    }
  }

  /** The nil dereference happens exactly at such a gap. */
  lemma {:induction false} HashNilIff(s: Search, h: Header, beyondRoot: bool, rootNumber: nat, k: nat)
    requires Numbered(h)
    ensures HashSearch(s, h, beyondRoot, rootNumber) == NilHeader(k) <==> GapAtState(s, h, k, beyondRoot)
    decreases h.number
  {
    var met := !beyondRoot && h.root == s.root;
    if h.number > 0 {
      var p := h.parentHash.header;
      assert Ancestor(h, h.number - 1) == p;
      HashNilIff(s, p, beyondRoot || met, if met then h.number else rootNumber, k);
      if k != h.number {
        GapAtStateStep(s, h, k, beyondRoot);
      }
    }
  }

  /** A store holding no parent of a block with state: the search runs into nil. */
  lemma HashNilExample()
    ensures var genesis := Header(Zero, 0, 0, 0, 0, 1, []);
            var child := Header(HashOf(genesis), 1, 0, 0, 0, 2, []);
            var empty := Db({}, {}, map[], map[], map[], [], Zero, Zero, Zero);
            HashSearch(Search(empty, 7, 0, {2}, genesis), child, false, 0) == NilHeader(1)
  {
  }

  /** The reported root number is the highest match on the path, or zero; once a head
      above zero is found the requested root has been crossed at or above it. */
  lemma {:induction false} HashRootNumber(s: Search, h: Header, beyondRoot: bool, rootNumber: nat)
    requires Numbered(h) && s.genesis.number == 0
    ensures var r := HashSearch(s, h, beyondRoot, rootNumber);
            r.Rewound? ==>
              && (beyondRoot ==> r.rootNumber == rootNumber)
              && (!beyondRoot && rootNumber == 0 ==>
                    && (r.rootNumber != 0 ==> HighestMatch(h, s.root, r.rootNumber))
                    && (r.head.number > 0 ==> r.rootNumber >= r.head.number))
    decreases h.number
  {
    var r := HashSearch(s, h, beyondRoot, rootNumber);
    var met := !beyondRoot && h.root == s.root;
    if h.number > 0 {
      var p := h.parentHash.header;
      HashRootNumber(s, p, beyondRoot || met, if met then h.number else rootNumber);
      HashFindsHighest(s, p, beyondRoot || met, if met then h.number else rootNumber);
      if r.Rewound? && !beyondRoot && !met && r.rootNumber != 0 && r.rootNumber < h.number {
        HighestMatchStep(h, s.root, r.rootNumber);
      }
    }
  }

  lemma HighestMatchStep(h: Header, root: Root, m: nat)
    requires Numbered(h) && h.number > 0 && h.root != root
    ensures HighestMatch(h.parentHash.header, root, m) ==> HighestMatch(h, root, m)
  {
    var p := h.parentHash.header;
    if HighestMatch(p, root, m) {
      forall k: nat | m < k <= h.number
        ensures Ancestor(h, k).root != root
      {
        assert k < h.number ==> Ancestor(h, k) == Ancestor(p, k);
      }
    }
  }

  // ---------------------------------------------------------------- path scheme

  datatype PathSearch = PathSearch(
    db: Db, root: Root, pivot: Option<nat>, hasState: set<Root>, recoverable: set<Root>, genesis: Header)
  {
    predicate NoState() {
      root !in hasState && root !in recoverable
    }

    // Roots that release the search: the requested one, or any available state
    // once the requested one is known to be unattainable.
    function Hits(): set<Root> {
      {root} + if NoState() then hasState else {}
    }

    function States(): set<Root> {
      hasState + recoverable
    }
  }

  /** The loop of rewindPathHead; `found` tells a break from an early return. */
  function SearchPath(s: PathSearch, head: Header, beyondRoot: bool, rootNumber: nat): (r: (bool, Outcome))
    ensures r.1.Rewound?
    decreases head.number
  {
    var met := !beyondRoot && head.root == s.root;
    var number := if met then head.number else rootNumber;
    var beyond := beyondRoot || met || (s.NoState() && head.root in s.hasState);
    var parent := ReadHeader(s.db, head.parentHash, head.number - 1);
    if beyond && head.root in s.States() then (true, Rewound(head, number))
    else if s.pivot.Some? && s.pivot.value >= head.number then (false, Rewound(s.genesis, number))
    else if parent.None? then (false, Rewound(s.genesis, number))
    else if parent.value.number == 0 then (false, Rewound(parent.value, number))
    else SearchPath(s, parent.value, beyond, number)
  }

  /** triedb.Recover: it may fail; if it succeeds the requested state is available.
      Which other states survive is not known. */
  method Recover(hasState: set<Root>, root: Root) returns (ok: bool, after: set<Root>)
    ensures ok ==> root in after
  {
    ok := *;
    after := if ok then {root} else hasState;
  }

  /** rewindPathHead. */
  method RewindPathHead(
    db: Db, start: Header, root: Root, pivot: Option<nat>, hasState: set<Root>, recoverable: set<Root>, genesis: Header)
    returns (r: Outcome, after: set<Root>)
    ensures var q := SearchPath(PathSearch(db, root, pivot, hasState, recoverable, genesis), start, root == 0, 0);
            if q.0 && q.1.head.root !in hasState
            then r.Crit? || (r == q.1 && r.head.root in after)
            else r == q.1 && after == hasState
  {
    var beyondRoot, rootNumber: nat, head := root == 0, 0, start;
    var noState := root !in hasState && root !in recoverable;
    ghost var s := PathSearch(db, root, pivot, hasState, recoverable, genesis);
    while true
      invariant SearchPath(s, start, root == 0, 0) == SearchPath(s, head, beyondRoot, rootNumber)
      decreases head.number
    {
      if !beyondRoot && head.root == root {
        beyondRoot, rootNumber := true, head.number;
      }
      if !beyondRoot && noState && head.root in hasState {
        beyondRoot := true;
      }
      if beyondRoot && (head.root in hasState || head.root in recoverable) {
        break;
      }
      if pivot.Some? && pivot.value >= head.number {
        return Rewound(genesis, rootNumber), hasState;
      }
      var parent := ReadHeader(db, head.parentHash, head.number - 1);
      if parent.None? {
        return Rewound(genesis, rootNumber), hasState;
      }
      head := parent.value;
      if head.number == 0 {
        return Rewound(head, rootNumber), hasState;
      }
    }
    after := hasState;
    if head.root !in hasState {
      var ok;
      ok, after := Recover(hasState, head.root);
      if !ok {
        return Crit, after;
      }
    }
    return Rewound(head, rootNumber), after;
  }

  /** A break happens at the highest acceptable block; an early return ends at zero. */
  lemma {:induction false} PathFindsHighest(s: PathSearch, h: Header, beyondRoot: bool, rootNumber: nat)
    requires Numbered(h) && s.genesis.number == 0
    ensures var (found, r) := SearchPath(s, h, beyondRoot, rootNumber);
            && (!found ==> r.head.number == 0)
            && (found ==>
                  && OnPath(s.db, h, r.head)
                  && Acceptable(h, r.head.number, s.Hits(), s.States(), beyondRoot)
                  && NoneAbove(h, r.head.number, s.Hits(), s.States(), beyondRoot))
    decreases h.number
  {
    var met := !beyondRoot && h.root == s.root;
    var beyond := beyondRoot || met || (s.NoState() && h.root in s.hasState);
    if h.number > 0 {
      var number := if met then h.number else rootNumber;
      PathFindsHighest(s, h.parentHash.header, beyond, number);
      var (found, r) := SearchPath(s, h, beyondRoot, rootNumber);
      if found && r.head.number < h.number {
        NoneAboveStep(h, r.head.number, s.Hits(), s.States(), beyondRoot);
      }
    }
  }

  /** An early return means, on an ungapped chain, that no block from the pivot up is
      acceptable; the block the search starts from is always looked at. */
  lemma {:induction false} PathResetsOnlyIfNone(s: PathSearch, h: Header, beyondRoot: bool, rootNumber: nat)
    requires Numbered(h) && s.genesis.number == 0 && Ungapped(s.db, h)
    ensures var (found, r) := SearchPath(s, h, beyondRoot, rootNumber);
            !found ==>
              && (r.head == s.genesis || r.head == Ancestor(h, 0))
              && (h.number > 0 ==> !Acceptable(h, h.number, s.Hits(), s.States(), beyondRoot))
              && NoneAbove(h, if s.pivot.Some? && s.pivot.value > 0 then s.pivot.value - 1 else 0,
                           s.Hits(), s.States(), beyondRoot)
    decreases h.number
  {
    var met := !beyondRoot && h.root == s.root;
    var beyond := beyondRoot || met || (s.NoState() && h.root in s.hasState);
    var lo: nat := if s.pivot.Some? && s.pivot.value > 0 then s.pivot.value - 1 else 0;
    if h.number > 0 && !Acceptable(h, h.number, s.Hits(), s.States(), beyondRoot) {
      var p, number := h.parentHash.header, if met then h.number else rootNumber;
      UngappedParent(s.db, h);
      PathResetsOnlyIfNone(s, p, beyond, number);
      var (found, r) := SearchPath(s, h, beyondRoot, rootNumber);
      if !found && lo < h.number {
        if lo < p.number && p.number > 0 && !(s.pivot.Some? && s.pivot.value >= h.number) {
          NoneAboveStep(h, lo, s.Hits(), s.States(), beyondRoot);
        }
      }
    }
  }

  /** As in the hash scheme, except that a search released by an available state
      reports no root. */
  lemma {:induction false} PathRootNumber(s: PathSearch, h: Header, beyondRoot: bool, rootNumber: nat)
    requires Numbered(h)
    ensures var r := SearchPath(s, h, beyondRoot, rootNumber).1;
            && (beyondRoot ==> r.rootNumber == rootNumber)
            && (!beyondRoot && rootNumber == 0 && r.rootNumber != 0 ==> HighestMatch(h, s.root, r.rootNumber))
    decreases h.number
  {
    var met := !beyondRoot && h.root == s.root;
    var beyond := beyondRoot || met || (s.NoState() && h.root in s.hasState);
    if h.number > 0 {
      PathRootNumber(s, h.parentHash.header, beyond, if met then h.number else rootNumber);
      var r := SearchPath(s, h, beyondRoot, rootNumber).1;
      if !beyondRoot && !met && r.rootNumber != 0 && r.rootNumber < h.number {
        HighestMatchStep(h, s.root, r.rootNumber);
      }
    }
  }

  // ---------------------------------------------------------------- both schemes

  /** What rewindHead searches for, in either scheme. */
  function Sought(
    pathScheme: bool, db: Db, start: Header, root: Root, pivot: Option<nat>, hasState: set<Root>,
    recoverable: set<Root>, genesis: Header): Outcome
  {
    if pathScheme
    then SearchPath(PathSearch(db, root, pivot, hasState, recoverable, genesis), start, root == 0, 0).1
    else HashSearch(Search(db, root, Limit(start, pivot), hasState, genesis), start, root == 0, 0)
  }

  lemma OnPathStep(db: Db, h: Header, x: Header)
    requires Numbered(h) && h.number > 0 && HasHeader(db, h.parentHash.header)
    ensures OnPath(db, h.parentHash.header, x) ==> OnPath(db, h, x)
  {
  }

  lemma {:induction false} HashStaysOnPath(s: Search, h: Header, beyondRoot: bool, rootNumber: nat)
    requires Numbered(h)
    ensures var r := HashSearch(s, h, beyondRoot, rootNumber);
            r.Rewound? ==> r.head == s.genesis || OnPath(s.db, h, r.head)
    decreases h.number
  {
    var met := !beyondRoot && h.root == s.root;
    if h.number > 0 {
      HashStaysOnPath(s, h.parentHash.header, beyondRoot || met, if met then h.number else rootNumber);
      var r := HashSearch(s, h, beyondRoot, rootNumber);
      if HasHeader(s.db, h.parentHash.header) && r.Rewound? {
        OnPathStep(s.db, h, r.head);
      }
    }
  }

  lemma {:induction false} PathStaysOnPath(s: PathSearch, h: Header, beyondRoot: bool, rootNumber: nat)
    requires Numbered(h)
    ensures var r := SearchPath(s, h, beyondRoot, rootNumber).1;
            r.head == s.genesis || OnPath(s.db, h, r.head)
    decreases h.number
  {
    var met := !beyondRoot && h.root == s.root;
    if h.number > 0 {
      PathStaysOnPath(s, h.parentHash.header, beyondRoot || met || (s.NoState() && h.root in s.hasState),
                      if met then h.number else rootNumber);
      if HasHeader(s.db, h.parentHash.header) {
        OnPathStep(s.db, h, SearchPath(s, h, beyondRoot, rootNumber).1.head);
      }
    }
  }

  /** rewindHead. Whatever it returns above height zero has its state available, so
      the fatal "stateless at a non-genesis block" exit is never taken. */
  method RewindHead(
    pathScheme: bool, db: Db, start: Header, root: Root, pivot: Option<nat>, hasState: set<Root>,
    recoverable: set<Root>, genesis: Header)
    returns (r: Outcome, after: set<Root>)
    requires Numbered(start) && genesis.number == 0
    ensures r == Sought(pathScheme, db, start, root, pivot, hasState, recoverable, genesis) || (pathScheme && r.Crit?)
    ensures r.Rewound? ==> r.head.number == 0 || r.head.root in after
    ensures r.Rewound? ==> r.head == genesis || OnPath(db, start, r.head)
    ensures pathScheme ==> !r.NilHeader?
    ensures !pathScheme && Ungapped(db, start) ==> r.Rewound?
  {
    if pathScheme {
      r, after := RewindPathHead(db, start, root, pivot, hasState, recoverable, genesis);
      ghost var s := PathSearch(db, root, pivot, hasState, recoverable, genesis);
      PathFindsHighest(s, start, root == 0, 0);
      PathStaysOnPath(s, start, root == 0, 0);
    } else {
      r := RewindHashHead(db, start, root, pivot, hasState, genesis);
      after := hasState;
      ghost var s := Search(db, root, Limit(start, pivot), hasState, genesis);
      HashFindsHighest(s, start, root == 0, 0);
      HashStaysOnPath(s, start, root == 0, 0);
      if Ungapped(db, start) {
        HashResetsOnlyIfNone(s, start, root == 0, 0);
      }
    }
  }
}
