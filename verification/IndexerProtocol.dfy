/** core/chain_indexer.go as a concurrent protocol: the update loop, which processes a
    section without the lock; the calls that take the lock; and the unlocked
    setValidSections(0) of a failed backend Reset. Every read and every write of the
    section count or of a section head that the unlocked call may overlap is a step. */
module IndexerProtocols {
  import opened Chain
  import opened Indexers
  import opened Options

  // The largest section count: 64 bits.
  const MAX_COUNT: nat := 0xFFFF_FFFF_FFFF_FFFF

  /** Where a setValidSections is: before the test of its loop; before the read and
      before the write of the decrement; before reading which head to remove and before
      removing it; before the final assignment; at the end. */
  datatype Phase = Test | Load | Store(value: nat) | Pick | Delete(section: nat) | Assign | Done

  /** Where a verifyLastHead is: before each half of its loop condition, before reading
      which section head to look at and before reading it, before comparing it with the
      chain, and before reading the count to lower. */
  datatype Check = Positive | Above | Look | Fetch(section: nat) | Compare(head: Hash) | Lower

  // What follows verifyLastHead: the answer of Sections, the start of an update, or
  // the fall back after a failed one.
  datatype Then = Answer | Start | FallBack

  // What follows a locked setValidSections.
  datatype Next = Return | Cascade(head: nat) | Stored | Reverify(after: Then)

  /** What the holder of the lock is doing: nothing, storing the head of a checkpoint it
      has accepted, setValidSections(target), whose target was decided before, or
      verifyLastHead. */
  datatype Call =
    | Free
    | Placing(section: nat, hash: Hash)
    | Shrinking(target: nat, phase: Phase, next: Next)
    | Verifying(check: Check, after: Then)

  /** Where the update loop is: outside an update, reading the headers of a section
      without the lock, in the unlocked setValidSections(0), or back with a result and
      waiting for the lock. */
  datatype Pc =
    | Idle
    | Reading(section: nat, oldHead: Hash, number: nat, lastHead: Hash)
    | Resetting(section: nat, oldHead: Hash, phase: Phase)
    | Returned(section: nat, oldHead: Hash, newHead: Option<Hash>)

  datatype State = State(ix: Ix, db: Db, pc: Pc, call: Call)

  datatype Action =
    // the chain database changes, in any way
    | ChainChanges(db: Db)
    // calls that take the lock
    | ReorgTo(head: nat) | HeadAt(head: nat) | AddCheckpoint(section: nat, hash: Hash) | QuerySections
    // the next step of whoever holds the lock
    | LockedStep
    // the update loop: start; without the lock, the backend's Reset fails and its next
    // step, the next header is read and processed, something fails, or the section is
    // complete; end
    | Begin | ResetFails | ResetStep | ReadNext | Fail | Complete | End

  /** Above genesis every canonical header has a parent, as the engine checks. */
  ghost predicate Rooted(db: Db) {
    forall n: nat :: n > 0 && CanonHash(db, n).HashOf? ==> CanonHash(db, n).header.parentHash.HashOf?
  }

  // ---------------------------------------------------------------- steps

  /** The count is unsigned: one less than zero is the largest. */
  function Minus(n: nat): nat {
    if n == 0 then MAX_COUNT else n - 1
  }

  /** The next step of setValidSections(target). */
  function Shrink(x: Ix, target: nat, p: Phase): (Ix, Phase) {
    match p
    case Test => (x, if x.stored > target then Load else Assign)
    case Load => (x, Store(x.stored))
    case Store(value) => (x.(stored := Minus(value)), Pick)
    case Pick => (x, Delete(x.stored))
    case Delete(section) => (x.(heads := x.heads - {section}), Test)
    case Assign => (x.(stored := target), Done)
    case Done => (x, Done)
  }

  function Continue(s: State, next: Next): State {
    match next
    case Return => s.(call := Free)
    case Cascade(head) => s.(call := Free, ix := if head < s.ix.cascaded then s.ix.(cascaded := head) else s.ix)
    case Stored => s.(call := Free, ix := s.ix.(cascaded := s.ix.stored * s.ix.size - 1))
    case Reverify(after) => s.(call := Verifying(Positive, after))
  }

  function Verified(s: State, after: Then): State {
    match after
    case Answer => s.(call := Free)
    case Start =>
      var oldHead := if s.ix.stored > 0 then SectionHead(s.ix.heads, s.ix.stored - 1) else Zero;
      s.(call := Free, pc := Reading(s.ix.stored, oldHead, s.ix.stored * s.ix.size, oldHead))
    case FallBack => s.(call := Free, ix := s.ix.(known := s.ix.stored))
  }

  /** The number of the block that ends the counted sections. */
  function LastBlock(x: Ix): nat {
    if x.stored == 0 then MAX_COUNT else x.stored * x.size - 1
  }

  /** The next step of verifyLastHead. */
  function Verify(s: State, check: Check, after: Then): State {
    match check
    case Positive => if s.ix.stored > 0 then s.(call := Verifying(Above, after)) else Verified(s, after)
    case Above =>
      if s.ix.stored > s.ix.checkpointSections then s.(call := Verifying(Look, after)) else Verified(s, after)
    case Look => s.(call := Verifying(Fetch(Minus(s.ix.stored)), after))
    case Fetch(section) => s.(call := Verifying(Compare(SectionHead(s.ix.heads, section)), after))
    case Compare(head) =>
      if head == CanonHash(s.db, LastBlock(s.ix)) then Verified(s, after) else s.(call := Verifying(Lower, after))
    case Lower => s.(call := Shrinking(Minus(s.ix.stored), Test, Reverify(after)))
  }

  function Locked(s: State): State {
    match s.call
    case Free => s
    case Placing(section, hash) =>
      s.(ix := s.ix.(heads := s.ix.heads[section := hash]), call := Shrinking(section + 1, Test, Return))
    case Shrinking(target, phase, next) =>
      var (x, p) := Shrink(s.ix, target, phase);
      if p.Done? then Continue(s.(ix := x), next) else s.(ix := x, call := Shrinking(target, p, next))
    case Verifying(check, after) => Verify(s, check, after)
  }

  function Reset(s: State): State
    requires s.pc.Resetting?
  {
    var (x, p) := Shrink(s.ix, 0, s.pc.phase);
    s.(ix := x, pc := if p.Done? then Returned(s.pc.section, s.pc.oldHead, None) else s.pc.(phase := p))
  }

  /** newHead(head, true) up to its call of setValidSections. */
  function Decided(s: State, head: nat): State {
    var sections := (head + 1) / s.ix.size;
    var known := if sections < s.ix.checkpointSections then 0 else sections;
    var stored := if sections < s.ix.checkpointSections then s.ix.checkpointSections else sections;
    var x := s.ix.(known := if known < s.ix.known then known else s.ix.known);
    if stored < x.stored then s.(ix := x, call := Shrinking(stored, Test, Cascade(known * x.size)))
    else Continue(s.(ix := x), Cascade(known * x.size))
  }

  /** AddCheckpoint up to storing the head. */
  function Checkpoint(s: State, section: nat, hash: Hash): State {
    if hash.Zero? || s.ix.checkpointSections >= section + 1 || section < s.ix.stored then s
    else s.(ix := s.ix.(checkpointSections := section + 1, checkpointHead := hash), call := Placing(section, hash))
  }

  function Ended(s: State): State
    requires s.pc.Returned?
  {
    var Returned(section, oldHead, newHead) := s.pc;
    if newHead.Some? && (section == 0 || oldHead == SectionHead(s.ix.heads, section - 1))
    then s.(ix := s.ix.(heads := s.ix.heads[section := newHead.value]), pc := Idle,
            call := Shrinking(section + 1, Test, Stored))
    else s.(pc := Idle, call := Verifying(Positive, FallBack))
  }

  function Read(s: State): State
    requires s.pc.Reading?
  {
    var hash := CanonHash(s.db, s.pc.number);
    if hash.Zero? || hash.header.number != s.pc.number || hash.header.parentHash != s.pc.lastHead
    then s.(pc := Returned(s.pc.section, s.pc.oldHead, None))
    else s.(pc := s.pc.(number := s.pc.number + 1, lastHead := hash))
  }

  /** One atomic action; one that is not possible now changes nothing. */
  ghost function Do(s: State, a: Action): State {
    match a
    case ChainChanges(db) => if Rooted(db) then s.(db := db) else s
    case ReorgTo(head) => if s.call.Free? then Decided(s, head) else s
    case HeadAt(head) => if s.call.Free? then s.(ix := Advanced(s.ix, s.db, head)) else s
    case AddCheckpoint(section, hash) => if s.call.Free? then Checkpoint(s, section, hash) else s
    case QuerySections => if s.call.Free? then s.(call := Verifying(Positive, Answer)) else s
    case LockedStep => Locked(s)
    case Begin =>
      if s.pc.Idle? && s.call.Free? && s.ix.known > s.ix.stored then s.(call := Verifying(Positive, Start)) else s
    case ResetFails =>
      if s.pc.Reading? && s.pc.number == s.pc.section * s.ix.size
      then s.(pc := Resetting(s.pc.section, s.pc.oldHead, Test)) else s
    case ResetStep => if s.pc.Resetting? then Reset(s) else s
    case ReadNext => if s.pc.Reading? && s.pc.number < (s.pc.section + 1) * s.ix.size then Read(s) else s
    case Fail => if s.pc.Reading? then s.(pc := Returned(s.pc.section, s.pc.oldHead, None)) else s
    case Complete =>
      if s.pc.Reading? && s.pc.number == (s.pc.section + 1) * s.ix.size
      then s.(pc := Returned(s.pc.section, s.pc.oldHead, Some(s.pc.lastHead))) else s
    case End => if s.pc.Returned? && s.call.Free? then Ended(s) else s
  }

  ghost function Run(s: State, actions: seq<Action>): State {
    if actions == [] then s else Do(Run(s, actions[..|actions| - 1]), actions[|actions| - 1])
  }

  /** The action takes one from a count of zero. */
  ghost predicate Wraps(s: State, a: Action) {
    || (a.LockedStep? && s.call.Shrinking? && s.call.phase == Store(0))
    || (a.LockedStep? && s.call.Verifying? && s.call.check.Lower? && s.ix.stored == 0)
    || (a.ResetStep? && s.pc.Resetting? && s.pc.phase == Store(0))
  }

  /** No action of the run does. */
  ghost predicate NoWrap(s: State, actions: seq<Action>) {
    if actions == [] then true
    else
      var front, last := actions[..|actions| - 1], actions[|actions| - 1];
      NoWrap(s, front) && !Wraps(Run(s, front), last)
  }

  // ---------------------------------------------------------------- what every run keeps

  /** Head j is as many parent links above head i as there are blocks between them; i is
      -1 for the parent of genesis. */
  ghost predicate Apart(heads: map<nat, Hash>, size: Pos, i: int, j: nat) {
    -1 <= i < j && j in heads && Climb(SectionHead(heads, i), heads[j], (j - i) * size)
  }

  ghost predicate SpacedFrom(heads: map<nat, Hash>, size: Pos, base: nat, top: nat) {
    forall i: int, j: nat ::
      (i == -1 || i in heads) && base <= i + 1 && i < j < top && j in heads ==> Apart(heads, size, i, j)
  }

  /** So it is for any two stored heads below `top`, from the checkpoint up, whatever is
      missing between them. */
  ghost predicate Spaced(x: Ix, top: nat) {
    SpacedFrom(x.heads, x.size, x.checkpointSections, top)
  }

  ghost predicate Hashes(x: Ix) {
    forall i :: i in x.heads ==> x.heads[i].HashOf?
  }

  /** y has no more heads than x. */
  ghost predicate Fewer(x: Ix, y: Ix) {
    && y.size == x.size && y.checkpointSections == x.checkpointSections
    && (forall i :: i in y.heads ==> i in x.heads && y.heads[i] == x.heads[i])
  }

  lemma SpacedFewer(x: Ix, y: Ix, top: nat, n: nat)
    requires Spaced(x, top) && Fewer(x, y) && n <= top
    ensures Spaced(y, n)
  {
    forall i: int, j: nat |
      (i == -1 || i in y.heads) && y.checkpointSections <= i + 1 && i < j < n && j in y.heads
      ensures Apart(y.heads, y.size, i, j)
    {
      assert Apart(x.heads, x.size, i, j);
    }
  }

  /** A count that has been read and will be written back, less one. */
  ghost predicate Held(x: Ix, p: Phase) {
    p.Store? ==> Spaced(x, p.value)
  }

  /** A step of setValidSections keeps what is spaced, and the counts it knows. */
  lemma ShrinkKeeps(x: Ix, target: nat, p: Phase)
    requires p != Store(0)
    ensures var (y, q) := Shrink(x, target, p);
            && Fewer(x, y)
            && (Spaced(x, target) && Spaced(x, x.stored) && Held(x, p) ==> Spaced(y, y.stored) && Held(y, q))
  {
    var (y, q) := Shrink(x, target, p);
    if Spaced(x, target) && Spaced(x, x.stored) && Held(x, p) {
      SpacedFewer(x, y, x.stored, 0);
      SpacedFewer(x, y, if p.Store? then p.value else if p.Assign? then target else x.stored, y.stored);
    }
  }

  /** Every count that may come to be the section count is spaced. */
  ghost predicate CountsOk(s: State) {
    && (match s.call
        case Shrinking(target, phase, next) =>
          Spaced(s.ix, target) && (!next.Stored? ==> Spaced(s.ix, s.ix.stored) && Held(s.ix, phase))
        case _ => Spaced(s.ix, s.ix.stored))
    && (s.pc.Resetting? ==> Held(s.ix, s.pc.phase))
  }

  /** A call made by the update loop itself finds it outside its unlocked part; a call
      that is over is not under way. */
  ghost predicate CallOk(s: State) {
    && (s.pc.Resetting? ==> !s.pc.phase.Done?)
    && match s.call
       case Free => true
       case Placing(section, hash) => hash.HashOf? && s.ix.checkpointSections == section + 1
       case Verifying(_, after) => after.Answer? || s.pc.Idle?
       case Shrinking(_, phase, next) =>
         !phase.Done? && (next.Stored? || (next.Reverify? && !next.after.Answer?) ==> s.pc.Idle?)
  }

  /** The lock holder is about to remove head i. */
  ghost predicate Leaving(s: State, i: nat) {
    s.call.Shrinking? && ((s.call.phase.Pick? && i == s.ix.stored) || s.call.phase == Delete(i))
  }

  /** While the unlocked call may raise the count again, there is nothing to count in
      between; nor where the lock holder may lower it again; nor above a checkpoint that
      is being added. */
  ghost predicate NothingBetween(s: State) {
    && (s.call.Placing? ==> forall i :: i in s.ix.heads ==> i < s.ix.checkpointSections || s.ix.stored <= i)
    && (s.pc.Resetting? ==>
      forall i: nat :: s.ix.checkpointSections <= i && i in s.ix.heads ==>
        && (s.pc.phase.Store? && s.ix.stored <= i < s.pc.phase.value ==> Leaving(s, i))
        && (s.call.Shrinking? && s.call.phase.Store? ==> !(s.call.phase.value <= i < s.ix.stored))
        && (s.call.Shrinking? && s.call.phase.Assign? ==> !(s.call.target <= i < s.ix.stored)))
  }

  /** What the update loop has established so far. */
  ghost predicate PcOk(size: Pos, pc: Pc) {
    match pc
    case Idle => true
    case Resetting(_, _, _) => true
    case Reading(section, oldHead, number, lastHead) =>
      && (section == 0 ==> oldHead == Zero)
      && section * size <= number <= (section + 1) * size
      && (section > 0 && section * size < number ==> oldHead.HashOf?)
      && Climb(oldHead, lastHead, number - section * size)
    case Returned(section, oldHead, newHead) =>
      newHead.Some? ==>
        (if section == 0 then oldHead == Zero else oldHead.HashOf?) && Climb(oldHead, newHead.value, size)
  }

  /** A setValidSections that nobody disturbs knows the count. */
  ghost predicate SteadyPhase(x: Ix, target: nat, p: Phase) {
    match p
    case Test => true
    case Load => x.stored > target
    case Store(value) => value == x.stored > target
    case Pick => x.stored >= target
    case Delete(section) => section == x.stored >= target
    case Assign => x.stored <= target
    case Done => false
  }

  ghost predicate Steady(x: Ix, call: Call) {
    match call
    case Free => true
    case Placing(section, _) => x.stored <= section
    case Shrinking(target, phase, _) => SteadyPhase(x, target, phase)
    case Verifying(check, _) =>
      (check.Above? ==> x.stored > 0) && (!check.Positive? && !check.Above? ==> x.stored > x.checkpointSections)
  }

  /** The section count once the call in progress is over. */
  ghost function Final(s: State): nat {
    if s.call.Shrinking? then s.call.target else s.ix.stored
  }

  /** One more than the last head that a setValidSections has not removed. */
  ghost function Reach(x: Ix, p: Phase): nat {
    if p.Pick? || p.Delete? then x.stored + 1 else x.stored
  }

  ghost function CallReach(s: State): nat {
    Reach(s.ix, if s.call.Shrinking? then s.call.phase else Test)
  }

  /** While the head the update started from is stored, it is counted, or about to be
      removed by the call in progress. */
  ghost predicate Based(s: State, section: nat, oldHead: Hash) {
    && Steady(s.ix, s.call)
    && (section > 0 && section - 1 in s.ix.heads && s.ix.heads[section - 1] == oldHead ==>
          section <= Final(s) || section <= CallReach(s))
  }

  ghost predicate BaseOk(s: State) {
    match s.pc
    case Reading(section, oldHead, _, _) => Based(s, section, oldHead)
    case Returned(section, oldHead, newHead) => newHead.Some? ==> Based(s, section, oldHead)
    case _ => true
  }

  /** Kept by every action that does not wrap, also when a failed Reset overlaps a locked
      call. */
  ghost predicate Weak(s: State) {
    && Rooted(s.db) && Hashes(s.ix) && CountsOk(s) && CallOk(s)
    && NothingBetween(s) && PcOk(s.ix.size, s.pc) && BaseOk(s)
  }

  /** A step of the unlocked setValidSections(0), whatever the lock holder is doing. */
  lemma WeakResets(s: State)
    requires Weak(s) && s.pc.Resetting? && !Wraps(s, ResetStep)
    ensures Weak(Reset(s))
  {
    var t := Reset(s);
    SpacedFewer(s.ix, s.ix, s.ix.stored, 0);
    ShrinkKeeps(s.ix, 0, s.pc.phase);
    if s.call.Shrinking? {
      SpacedFewer(s.ix, t.ix, s.call.target, s.call.target);
      if s.call.phase.Store? {
        SpacedFewer(s.ix, t.ix, s.call.phase.value, s.call.phase.value);
      }
    }
  }

  lemma ContinueKeeps(s: State, next: Next)
    ensures var t := Continue(s, next);
            && t.ix == s.ix.(cascaded := t.ix.cascaded) && t.pc == s.pc && t.db == s.db && !t.call.Shrinking?
            && (next.Reverify? ==> t.call == Verifying(Positive, next.after)) && (!next.Reverify? ==> t.call.Free?)
  {
  }

  lemma ShrinksCounts(s: State)
    requires Weak(s) && s.call.Shrinking? && !Wraps(s, LockedStep)
    ensures CountsOk(Locked(s))
  {
    var (x, p) := Shrink(s.ix, s.call.target, s.call.phase);
    ShrinkKeeps(s.ix, s.call.target, s.call.phase);
    ContinueKeeps(s.(ix := x), s.call.next);
    SpacedFewer(s.ix, x, s.call.target, s.call.target);
    if s.pc.Resetting? && s.pc.phase.Store? {
      SpacedFewer(s.ix, x, s.pc.phase.value, s.pc.phase.value);
    }
  }

  lemma ShrinksBetween(s: State)
    requires Weak(s) && s.call.Shrinking? && !Wraps(s, LockedStep)
    ensures NothingBetween(Locked(s))
  {
  }

  lemma ShrinksBased(s: State)
    requires Weak(s) && s.call.Shrinking? && !Wraps(s, LockedStep)
    ensures BaseOk(Locked(s))
  {
  }

  /** A step of a locked setValidSections, whatever the unlocked one is doing. */
  lemma WeakShrinks(s: State)
    requires Weak(s) && s.call.Shrinking? && !Wraps(s, LockedStep)
    ensures Weak(Locked(s))
  {
    ShrinksCounts(s);
    ShrinksBetween(s);
    ShrinksBased(s);
  }

  lemma VerifiedIsWeak(s: State)
    requires Weak(s) && s.call.Verifying?
    ensures Weak(Verified(s, s.call.after))
  {
  }

  lemma WeakVerifies(s: State)
    requires Weak(s) && s.call.Verifying? && !Wraps(s, LockedStep)
    ensures Weak(Locked(s))
  {
    if Locked(s) == Verified(s, s.call.after) {
      VerifiedIsWeak(s);
    } else if s.call.check.Lower? {
      SpacedFewer(s.ix, s.ix, s.ix.stored, s.ix.stored - 1);
    }
  }

  lemma WeakReorgs(s: State, head: nat)
    requires Weak(s) && s.call.Free?
    ensures Weak(Decided(s, head))
  {
    var t := Decided(s, head);
    if t.call.Shrinking? {
      SpacedFewer(s.ix, s.ix, s.ix.stored, t.call.target);
    }
  }

  lemma WeakAdvances(s: State, head: nat)
    requires Weak(s) && s.call.Free?
    ensures Weak(s.(ix := Advanced(s.ix, s.db, head)))
  {
    assert s.ix.(known := Advanced(s.ix, s.db, head).known) == Advanced(s.ix, s.db, head);
  }

  lemma WeakPlaces(s: State)
    requires Weak(s) && s.call.Placing?
    ensures Weak(Locked(s))
  {
  }

  lemma WeakCheckpoints(s: State, section: nat, hash: Hash)
    requires Weak(s) && s.call.Free?
    ensures Weak(Checkpoint(s, section, hash))
  {
  }

  lemma WeakReads(s: State)
    requires Weak(s) && s.pc.Reading? && s.pc.number < (s.pc.section + 1) * s.ix.size
    ensures Weak(Read(s))
  {
  }

  lemma WeakCompletes(s: State)
    requires Weak(s)
    ensures Weak(Do(s, Complete))
  {
    if s.pc.Reading? && s.pc.number == (s.pc.section + 1) * s.ix.size {
      assert (s.pc.section + 1) * s.ix.size - s.pc.section * s.ix.size == s.ix.size;
    }
  }

  lemma {:induction false} ClimbJoin(a: Hash, b: Hash, c: Hash, m: nat, n: nat)
    requires Climb(a, b, m) && Climb(b, c, n)
    ensures Climb(a, c, m + n)
    decreases n
  {
    if n > 0 {
      ClimbJoin(a, b, c.header.parentHash, m, n - 1);
    }
  }

  lemma OneMore(k: nat, size: nat)
    ensures k * size + size == (k + 1) * size
  {
  }

  /** What is spaced from the head below is spaced from the next. */
  lemma ApartJoin(heads: map<nat, Hash>, size: Pos, i: int, section: nat, hash: Hash)
    requires 0 < section && Apart(heads, size, i, section - 1) && Climb(heads[section - 1], hash, size)
    ensures Climb(SectionHead(heads, i), hash, (section - i) * size)
  {
    var below := section - 1 - i;
    OneMore(below, size);
    assert section - i == below + 1;
    ClimbJoin(SectionHead(heads, i), heads[section - 1], hash, below * size, size);
  }

  /** Storing a section head above the one it was built on. */
  lemma SpacedGrows(x: Ix, section: nat, hash: Hash)
    requires Spaced(x, section) && (section == 0 || section - 1 in x.heads)
    requires Climb(SectionHead(x.heads, section - 1), hash, x.size)
    ensures Spaced(x.(heads := x.heads[section := hash]), section + 1)
  {
    var heads := x.heads[section := hash];
    forall i: int, j: nat |
      (i == -1 || i in heads) && x.checkpointSections <= i + 1 && i < j < section + 1 && j in heads
      ensures Apart(heads, x.size, i, j)
    {
      assert SectionHead(heads, i) == SectionHead(x.heads, i);
      if j < section {
        assert Apart(x.heads, x.size, i, j);
      } else if i < section - 1 {
        assert Apart(x.heads, x.size, i, section - 1);
        ApartJoin(x.heads, x.size, i, section, hash);
      } else {
        assert (j - i) * x.size == x.size;
      }
    }
  }

  lemma WeakEnds(s: State)
    requires Weak(s) && s.pc.Returned? && s.call.Free?
    ensures Weak(Ended(s))
  {
    var t := Ended(s);
    if t.call.Shrinking? {
      ClimbIsHash(s.pc.oldHead, s.pc.newHead.value, s.ix.size);
      SpacedFewer(s.ix, s.ix, s.ix.stored, s.pc.section);
      SpacedGrows(s.ix, s.pc.section, s.pc.newHead.value);
    }
  }

  lemma WeakLocked(s: State)
    requires Weak(s) && !Wraps(s, LockedStep)
    ensures Weak(Locked(s))
  {
    match s.call {
      case Free =>
      case Placing(_, _) => WeakPlaces(s);
      case Shrinking(_, _, _) => WeakShrinks(s);
      case Verifying(_, _) => WeakVerifies(s);
    }
  }

  /** Every action keeps it, unless it takes one from zero. */
  lemma WeakStep(s: State, a: Action)
    requires Weak(s) && !Wraps(s, a)
    ensures Weak(Do(s, a))
  {
    match a {
      case ReorgTo(head) =>
        if s.call.Free? {
          WeakReorgs(s, head);
        }
      case HeadAt(head) =>
        if s.call.Free? {
          WeakAdvances(s, head);
        }
      case AddCheckpoint(section, hash) =>
        if s.call.Free? {
          WeakCheckpoints(s, section, hash);
        }
      case LockedStep => WeakLocked(s);
      case ResetStep =>
        if s.pc.Resetting? {
          WeakResets(s);
        }
      case ReadNext =>
        if s.pc.Reading? && s.pc.number < (s.pc.section + 1) * s.ix.size {
          WeakReads(s);
        }
      case Complete => WeakCompletes(s);
      case End =>
        if s.pc.Returned? && s.call.Free? {
          WeakEnds(s);
        }
      case _ =>
    }
  }

  lemma {:induction false} ReachableIsWeak(s: State, actions: seq<Action>)
    requires Weak(s) && NoWrap(s, actions)
    ensures Weak(Run(s, actions))
  {
    if actions != [] {
      ReachableIsWeak(s, actions[..|actions| - 1]);
      WeakStep(Run(s, actions[..|actions| - 1]), actions[|actions| - 1]);
    }
  }

  // ---------------------------------------------------------------- runs without overlap

  /** A failed Reset is rewriting the count and the heads while another call, which
      holds the lock, is under way. */
  ghost predicate Overlap(s: State) {
    s.pc.Resetting? && !s.call.Free?
  }

  ghost predicate NoOverlap(s: State, actions: seq<Action>) {
    !Overlap(Run(s, actions)) && (actions == [] || NoOverlap(s, actions[..|actions| - 1]))
  }

  /** No counted head is missing, from the one below the checkpoint up. */
  ghost predicate NoneMissing(x: Ix, top: nat) {
    forall i: nat :: x.checkpointSections <= i + 1 && i < top ==> i in x.heads
  }

  ghost predicate Full(x: Ix, top: nat) {
    NoneMissing(x, top) && (top > 0 ==> top - 1 in x.heads)
  }

  /** Heads lie below the count, the one about to be removed aside. */
  ghost predicate Bounded(s: State) {
    forall i :: i in s.ix.heads ==>
      i < Final(s) || i < CallReach(s) || (s.pc.Resetting? && i < Reach(s.ix, s.pc.phase))
  }

  /** Kept by every action as long as nothing overlaps. */
  ghost predicate Strong(s: State) {
    && Steady(s.ix, s.call) && Bounded(s)
    && (if s.pc.Resetting? then SteadyPhase(s.ix, 0, s.pc.phase) else Full(s.ix, Final(s)))
  }

  lemma StrongAssigns(s: State)
    requires Weak(s) && Strong(s) && s.call.Shrinking? && s.call.phase.Assign? && !s.pc.Resetting?
    ensures Strong(Locked(s))
  {
    ContinueKeeps(s.(ix := s.ix.(stored := s.call.target)), s.call.next);
  }

  lemma StrongShrinks(s: State)
    requires Weak(s) && Strong(s) && s.call.Shrinking? && !s.call.phase.Assign? && !s.pc.Resetting?
    ensures Strong(Locked(s))
  {
  }

  lemma StrongVerifies(s: State)
    requires Weak(s) && Strong(s) && s.call.Verifying? && !s.pc.Resetting?
    ensures Strong(Locked(s))
  {
  }

  lemma StrongResets(s: State)
    requires Weak(s) && Strong(s) && s.pc.Resetting? && s.call.Free?
    ensures Strong(Reset(s))
  {
  }

  lemma StrongReorgs(s: State, head: nat)
    requires Weak(s) && Strong(s) && s.call.Free? && !Overlap(Decided(s, head))
    ensures Strong(Decided(s, head))
  {
  }

  lemma StrongEnds(s: State)
    requires Weak(s) && Strong(s) && s.pc.Returned? && s.call.Free?
    ensures Strong(Ended(s))
  {
    var t := Ended(s);
    if t.call.Shrinking? {
      assert s.pc.section <= s.ix.stored;
    }
  }

  lemma StrongPlaces(s: State)
    requires Weak(s) && Strong(s) && s.call.Placing? && !s.pc.Resetting?
    ensures Strong(Locked(s))
  {
  }

  lemma StrongCheckpoints(s: State, section: nat, hash: Hash)
    requires Weak(s) && Strong(s) && s.call.Free? && !Overlap(Checkpoint(s, section, hash))
    ensures Strong(Checkpoint(s, section, hash))
  {
  }

  lemma StrongAdvances(s: State, head: nat)
    requires Weak(s) && Strong(s) && s.call.Free?
    ensures Strong(s.(ix := Advanced(s.ix, s.db, head)))
  {
  }

  lemma StrongLocked(s: State)
    requires Weak(s) && Strong(s) && !Overlap(s)
    ensures Strong(Locked(s))
  {
    match s.call {
      case Free =>
      case Placing(_, _) => StrongPlaces(s);
      case Shrinking(_, phase, _) =>
        if phase.Assign? {
          StrongAssigns(s);
        } else {
          StrongShrinks(s);
        }
      case Verifying(_, _) => StrongVerifies(s);
    }
  }

  lemma StrongNeverWraps(s: State, a: Action)
    requires Strong(s) && !Overlap(s)
    ensures !Wraps(s, a)
  {
  }

  lemma StrongStep(s: State, a: Action)
    requires Weak(s) && Strong(s) && !Overlap(s) && !Overlap(Do(s, a))
    ensures Strong(Do(s, a)) && !Wraps(s, a)
  {
    StrongNeverWraps(s, a);
    match a {
      case ReorgTo(head) =>
        if s.call.Free? {
          StrongReorgs(s, head);
        }
      case HeadAt(head) =>
        if s.call.Free? {
          StrongAdvances(s, head);
        }
      case AddCheckpoint(section, hash) =>
        if s.call.Free? {
          StrongCheckpoints(s, section, hash);
        }
      case LockedStep => StrongLocked(s);
      case ResetStep =>
        if s.pc.Resetting? {
          StrongResets(s);
        }
      case End =>
        if s.pc.Returned? && s.call.Free? {
          StrongEnds(s);
        }
      case _ =>
    }
  }

  ghost predicate Quiet(s: State) {
    s.call.Free? && !s.pc.Resetting?
  }

  /** With arbitrary interleavings of reorganisations, calls and unlocked processing in
      which no failed Reset overlaps a locked call, each stored section head is exactly
      one section of parent links above the previous one. */
  lemma {:induction false} ReachableIsLinked(s: State, actions: seq<Action>)
    requires Weak(s) && Strong(s) && NoOverlap(s, actions)
    ensures var t := Run(s, actions);
            Weak(t) && Strong(t) && (Quiet(t) ==> Linked(t.ix))
  {
    var t := Run(s, actions);
    if actions != [] {
      var front := actions[..|actions| - 1];
      ReachableIsLinked(s, front);
      StrongStep(Run(s, front), actions[|actions| - 1]);
      WeakStep(Run(s, front), actions[|actions| - 1]);
    }
    if Quiet(t) {
      LinkedIffFull(t);
    }
  }

  /** In every state a run without a wrap reaches, overlap or not, the sections are linked
      exactly if no counted head is missing and no other is left over. */
  lemma LinkedIffFull(s: State)
    requires Weak(s) && s.call.Free?
    ensures Linked(s.ix) <==> Full(s.ix, s.ix.stored) && forall i :: i in s.ix.heads ==> i < s.ix.stored
  {
    var x := s.ix;
    if Full(x, x.stored) {
      forall i: nat | x.checkpointSections <= i < x.stored
        ensures SectionOk(x, i)
      {
        assert i in x.heads && (i > 0 ==> i - 1 in x.heads);
        assert Apart(x.heads, x.size, i - 1, i);
        assert (i - (i - 1)) * x.size == x.size;
      }
    }
    if Linked(x) {
      forall i: nat | x.checkpointSections <= i + 1 && i < x.stored
        ensures i in x.heads
      {
        if i + 1 < x.stored {
          assert SectionOk(x, i + 1);
        }
      }
    }
  }

  /** A fresh indexer satisfies both invariants. */
  lemma FreshIsLinked(size: Pos, confirms: nat, db: Db)
    requires Rooted(db)
    ensures var s := State(Ix(size, confirms, 0, 0, 0, map[], 0, Zero), db, Idle, Free);
            Weak(s) && Strong(s)
  {
  }

  // ---------------------------------------------------------------- the steps left alone

  ghost predicate Only(actions: seq<Action>, who: set<Action>) {
    actions == [] || (actions[|actions| - 1] in who && Only(actions[..|actions| - 1], who))
  }

  ghost predicate Path(s: State, actions: seq<Action>, t: State, who: set<Action>) {
    Only(actions, who) && NoWrap(s, actions) && Run(s, actions) == t
  }

  /** Some run of these actions, without a wrap, goes from s to t. */
  ghost predicate Leads(s: State, t: State, who: set<Action>) {
    exists actions :: Path(s, actions, t, who)
  }

  lemma LeadsNowhere(s: State, who: set<Action>)
    ensures Leads(s, s, who)
  {
    assert Path(s, [], s, who);
  }

  lemma LeadsOn(s: State, t: State, a: Action, who: set<Action>)
    requires Leads(s, t, who) && a in who && !Wraps(t, a)
    ensures Leads(s, Do(t, a), who)
  {
    var actions :| Path(s, actions, t, who);
    var more := actions + [a];
    assert more[..|actions|] == actions;
    assert Path(s, more, Do(t, a), who);
  }

  lemma OnLocked(r: State, s: State, t: State, who: set<Action>)
    requires Leads(r, s, who) && LockedStep in who && !Wraps(s, LockedStep) && t == Locked(s)
    ensures Leads(r, t, who)
  {
    LeadsOn(r, s, LockedStep, who);
  }

  lemma OnReset(r: State, s: State, t: State, who: set<Action>)
    requires Leads(r, s, who) && ResetStep in who && s.pc.Resetting? && !Wraps(s, ResetStep) && t == Reset(s)
    ensures Leads(r, t, who)
  {
    LeadsOn(r, s, ResetStep, who);
  }

  /** One turn of the loop of setValidSections. */
  function OneLess(x: Ix): Ix
    requires x.stored > 0
  {
    x.(stored := x.stored - 1, heads := x.heads - {x.stored - 1})
  }

  lemma OneLessIsOnTheWay(x: Ix, target: nat)
    requires target < x.stored
    ensures SetValid(OneLess(x), target) == SetValid(x, target)
  {
    assert SetValid(OneLess(x), target).heads == SetValid(x, target).heads;
  }

  lemma NoneLess(x: Ix, target: nat)
    requires x.stored <= target
    ensures SetValid(x, target) == x.(stored := target)
  {
    assert SetValid(x, target).heads == x.heads;
  }

  ghost function AtReset(s: State, x: Ix, p: Phase): State
    requires s.pc.Resetting?
  {
    s.(ix := x, pc := s.pc.(phase := p))
  }

  /** The unlocked call lowers the count, removes a head, ends. */
  lemma ResetLowers(r: State, s: State, who: set<Action>)
    requires Leads(r, s, who) && ResetStep in who && s.pc.Resetting? && s.pc.phase.Test? && s.ix.stored > 0
    ensures Leads(r, AtReset(s, s.ix.(stored := s.ix.stored - 1), Pick), who)
  {
    var t, u := AtReset(s, s.ix, Load), AtReset(s, s.ix, Store(s.ix.stored));
    OnReset(r, s, t, who);
    OnReset(r, t, u, who);
    OnReset(r, u, AtReset(s, s.ix.(stored := s.ix.stored - 1), Pick), who);
  }

  lemma ResetRemoves(r: State, s: State, who: set<Action>)
    requires Leads(r, s, who) && ResetStep in who && s.pc.Resetting? && s.pc.phase.Pick?
    ensures Leads(r, AtReset(s, s.ix.(heads := s.ix.heads - {s.ix.stored}), Test), who)
  {
    var t := AtReset(s, s.ix, Delete(s.ix.stored));
    OnReset(r, s, t, who);
    OnReset(r, t, AtReset(s, s.ix.(heads := s.ix.heads - {s.ix.stored}), Test), who);
  }

  ghost function ResetDone(s: State): State
    requires s.pc.Resetting?
  {
    s.(ix := SetValid(s.ix, 0), pc := Returned(s.pc.section, s.pc.oldHead, None))
  }

  lemma ResetEnds(r: State, s: State, who: set<Action>)
    requires Leads(r, s, who) && ResetStep in who && s.pc.Resetting? && s.pc.phase.Test? && s.ix.stored == 0
    ensures Leads(r, ResetDone(s), who)
  {
    NoneLess(s.ix, 0);
    var t := AtReset(s, s.ix, Assign);
    OnReset(r, s, t, who);
    OnReset(r, t, ResetDone(s), who);
  }

  /** Left alone, the unlocked setValidSections(0) removes exactly the counted heads. */
  lemma {:induction false} ResetRuns(r: State, s: State, who: set<Action>)
    requires Leads(r, s, who) && ResetStep in who && s.pc.Resetting? && s.pc.phase.Test?
    ensures Leads(r, ResetDone(s), who)
    decreases s.ix.stored
  {
    if s.ix.stored == 0 {
      ResetEnds(r, s, who);
    } else {
      ResetLowers(r, s, who);
      ResetRemoves(r, AtReset(s, s.ix.(stored := s.ix.stored - 1), Pick), who);
      OneLessIsOnTheWay(s.ix, 0);
      ResetRuns(r, AtReset(s, OneLess(s.ix), Test), who);
    }
  }

  ghost function AtLock(s: State, x: Ix, p: Phase): State
    requires s.call.Shrinking?
  {
    s.(ix := x, call := s.call.(phase := p))
  }

  /** The same for the lock holder, once it has tested its loop. */
  lemma LockedLowers(r: State, s: State, who: set<Action>)
    requires Leads(r, s, who) && LockedStep in who && s.call.Shrinking? && s.call.phase.Load? && s.ix.stored > 0
    ensures Leads(r, AtLock(s, s.ix.(stored := s.ix.stored - 1), Pick), who)
  {
    var t := AtLock(s, s.ix, Store(s.ix.stored));
    OnLocked(r, s, t, who);
    OnLocked(r, t, AtLock(s, s.ix.(stored := s.ix.stored - 1), Pick), who);
  }

  lemma LockedRemoves(r: State, s: State, who: set<Action>)
    requires Leads(r, s, who) && LockedStep in who && s.call.Shrinking? && s.call.phase.Pick?
    ensures Leads(r, AtLock(s, s.ix.(heads := s.ix.heads - {s.ix.stored}), Test), who)
  {
    var t := AtLock(s, s.ix, Delete(s.ix.stored));
    OnLocked(r, s, t, who);
    OnLocked(r, t, AtLock(s, s.ix.(heads := s.ix.heads - {s.ix.stored}), Test), who);
  }

  ghost function ShrinkDone(s: State): State
    requires s.call.Shrinking?
  {
    Continue(s.(ix := SetValid(s.ix, s.call.target)), s.call.next)
  }

  lemma ContinueFrame(s: State, call: Call, next: Next)
    ensures Continue(s.(call := call), next) == Continue(s, next)
  {
  }

  lemma ShrinkEnds(r: State, s: State, who: set<Action>)
    requires Leads(r, s, who) && LockedStep in who
    requires s.call.Shrinking? && s.call.phase.Test? && s.ix.stored <= s.call.target
    ensures Leads(r, ShrinkDone(s), who)
  {
    NoneLess(s.ix, s.call.target);
    ContinueFrame(s.(ix := SetValid(s.ix, s.call.target)), s.call.(phase := Assign), s.call.next);
    var t := AtLock(s, s.ix, Assign);
    OnLocked(r, s, t, who);
    OnLocked(r, t, ShrinkDone(s), who);
  }

  lemma ShrinkTurn(r: State, s: State, who: set<Action>)
    requires Leads(r, s, who) && LockedStep in who
    requires s.call.Shrinking? && s.call.phase.Test? && s.ix.stored > s.call.target
    ensures Leads(r, s.(ix := OneLess(s.ix)), who)
  {
    var t := AtLock(s, s.ix, Load);
    var u := AtLock(s, s.ix.(stored := s.ix.stored - 1), Pick);
    OnLocked(r, s, t, who);
    LockedLowers(r, t, who);
    assert AtLock(t, t.ix.(stored := t.ix.stored - 1), Pick) == u;
    LockedRemoves(r, u, who);
    assert AtLock(u, u.ix.(heads := u.ix.heads - {u.ix.stored}), Test) == s.(ix := OneLess(s.ix));
  }

  /** Left alone, the steps of a locked setValidSections add up to what the object's
      method does. */
  lemma {:induction false} ShrinkRuns(r: State, s: State, who: set<Action>)
    requires Leads(r, s, who) && LockedStep in who && s.call.Shrinking? && s.call.phase.Test?
    ensures Leads(r, ShrinkDone(s), who)
    decreases s.ix.stored
  {
    if s.ix.stored <= s.call.target {
      ShrinkEnds(r, s, who);
    } else {
      ShrinkTurn(r, s, who);
      ShrinkRuns(r, s.(ix := OneLess(s.ix)), who);
      OneLessIsOnTheWay(s.ix, s.call.target);
    }
  }

  ghost function AtCheck(s: State, check: Check): State
    requires s.call.Verifying?
  {
    s.(call := s.call.(check := check))
  }

  ghost function Comparing(s: State): State
    requires s.call.Verifying? && s.ix.stored > 0
  {
    AtCheck(s, Compare(SectionHead(s.ix.heads, s.ix.stored - 1)))
  }

  lemma LooksAt(s: State)
    requires s.call.Verifying? && s.call.check.Positive? && s.ix.stored > s.ix.checkpointSections
    ensures Locked(s) == AtCheck(s, Above) && Locked(AtCheck(s, Above)) == AtCheck(s, Look)
    ensures Locked(AtCheck(s, Look)) == AtCheck(s, Fetch(s.ix.stored - 1))
    ensures Locked(AtCheck(s, Fetch(s.ix.stored - 1))) == Comparing(s)
  {
  }

  /** One turn of verifyLastHead: up to comparing the head, and from there. */
  lemma VerifyLooks(r: State, s: State, who: set<Action>)
    requires Leads(r, s, who) && LockedStep in who && s.call.Verifying? && s.call.check.Positive?
    requires s.ix.stored > s.ix.checkpointSections
    ensures Leads(r, Comparing(s), who)
  {
    LooksAt(s);
    OnLocked(r, s, AtCheck(s, Above), who);
    OnLocked(r, AtCheck(s, Above), AtCheck(s, Look), who);
    OnLocked(r, AtCheck(s, Look), AtCheck(s, Fetch(s.ix.stored - 1)), who);
    OnLocked(r, AtCheck(s, Fetch(s.ix.stored - 1)), Comparing(s), who);
  }

  lemma VerifyLowers(r: State, s: State, who: set<Action>)
    requires s.call.Verifying? && s.ix.stored > 0 && !LastIsCanonical(s.ix, s.db)
    requires Leads(r, Comparing(s), who) && LockedStep in who
    ensures Leads(r, s.(call := Shrinking(s.ix.stored - 1, Test, Reverify(s.call.after))), who)
  {
    OnLocked(r, Comparing(s), AtCheck(s, Lower), who);
    OnLocked(r, AtCheck(s, Lower), s.(call := Shrinking(s.ix.stored - 1, Test, Reverify(s.call.after))), who);
  }

  lemma VerifiedFrame(s: State, call: Call, after: Then)
    ensures Verified(s.(call := call), after) == Verified(s, after)
  {
  }

  /** verifyLastHead finds nothing to do. */
  lemma VerifyEnds(r: State, s: State, who: set<Action>)
    requires Leads(r, s, who) && LockedStep in who && s.call.Verifying? && s.call.check.Positive?
    requires s.ix.stored <= s.ix.checkpointSections || LastIsCanonical(s.ix, s.db)
    ensures Leads(r, Verified(s, s.call.after), who)
  {
    var after := s.call.after;
    if s.ix.stored > s.ix.checkpointSections {
      VerifyLooks(r, s, who);
      VerifiedFrame(s, Comparing(s).call, after);
      OnLocked(r, Comparing(s), Verified(s, after), who);
    } else if s.ix.stored > 0 {
      OnLocked(r, s, AtCheck(s, Above), who);
      VerifiedFrame(s, AtCheck(s, Above).call, after);
      OnLocked(r, AtCheck(s, Above), Verified(s, after), who);
    } else {
      OnLocked(r, s, Verified(s, after), who);
    }
  }

  /** It removes the last head and looks again. */
  lemma VerifyTurn(r: State, s: State, who: set<Action>)
    requires Leads(r, s, who) && LockedStep in who && s.call.Verifying? && s.call.check.Positive?
    requires s.ix.stored > s.ix.checkpointSections && !LastIsCanonical(s.ix, s.db)
    ensures Leads(r, s.(ix := SetValid(s.ix, s.ix.stored - 1)), who)
  {
    var t := s.(call := Shrinking(s.ix.stored - 1, Test, Reverify(s.call.after)));
    VerifyLooks(r, s, who);
    VerifyLowers(r, s, who);
    ShrinkRuns(r, t, who);
    assert ShrinkDone(t) == s.(ix := SetValid(s.ix, s.ix.stored - 1));
  }

  /** Left alone, the steps of a verifyLastHead add up to what the object's method
      does. */
  lemma {:induction false} VerifyRuns(r: State, s: State, z: Ix, who: set<Action>)
    requires Leads(r, s, who) && LockedStep in who && s.call.Verifying? && s.call.check.Positive?
    requires z == VerifyLast(s.ix, s.db)
    ensures Leads(r, Verified(s.(ix := z), s.call.after), who)
    decreases s.ix.stored
  {
    if s.ix.stored <= s.ix.checkpointSections || LastIsCanonical(s.ix, s.db) {
      assert s.(ix := z) == s;
      VerifyEnds(r, s, who);
    } else {
      VerifyTurn(r, s, who);
      var t := s.(ix := SetValid(s.ix, s.ix.stored - 1));
      assert t.(ix := z) == s.(ix := z);
      VerifyRuns(r, t, z, who);
    }
  }

  /** A Sections that nobody disturbs. */
  lemma QueryRuns(s: State)
    requires s.call.Free?
    ensures Leads(s, s.(ix := VerifyLast(s.ix, s.db)), {QuerySections, LockedStep})
  {
    var who := {QuerySections, LockedStep};
    LeadsNowhere(s, who);
    LeadsOn(s, s, QuerySections, who);
    VerifyRuns(s, s.(call := Verifying(Positive, Answer)), VerifyLast(s.ix, s.db), who);
  }

  // ---------------------------------------------------------------- what verifyLastHead restores

  lemma {:induction false} VerifiedIsFewer(x: Ix, db: Db)
    ensures Fewer(x, VerifyLast(x, db)) && VerifyLast(x, db).stored <= x.stored
    decreases x.stored
  {
    if x.stored > x.checkpointSections && !LastIsCanonical(x, db) {
      VerifiedIsFewer(SetValid(x, x.stored - 1), db);
    }
  }

  ghost predicate AllCanonical(x: Ix, db: Db) {
    forall i: nat :: x.checkpointSections <= i + 1 && i < x.stored ==> HeadCanonical(x, db, i)
  }

  /** Every head that is stored and counted, from the one below the checkpoint up. */
  ghost predicate StoredCanonical(x: Ix, db: Db) {
    forall i: nat :: x.checkpointSections <= i + 1 && i < x.stored && i in x.heads ==> HeadCanonical(x, db, i)
  }

  lemma Blocks(i: nat, j: nat, size: Pos)
    requires i <= j
    ensures 0 <= (j - i) * size <= (j + 1) * size - 1
    ensures (j + 1) * size - 1 - (j - i) * size == (i + 1) * size - 1
  {
    assert (j + 1) * size == (j - i) * size + (i + 1) * size;
    Product(j - i, size);
    Product(i, size);
  }

  /** A stored head below a canonical one is canonical, whatever is missing between. */
  lemma SpacedBelow(x: Ix, db: Db, head: Header, i: nat, last: nat)
    requires Spaced(x, x.stored) && Exact(db, head) && x.checkpointSections <= i + 1 && i <= last < x.stored
    requires i in x.heads && HeadCanonical(x, db, last) && x.heads[last].HashOf?
    ensures HeadCanonical(x, db, i)
  {
    if i < last {
      assert Apart(x.heads, x.size, i, last);
      Blocks(i, last, x.size);
      ClimbStaysCanonical(db, head, x.heads[i], x.heads[last], (last + 1) * x.size - 1, (last - i) * x.size);
    }
  }

  /** The last head is canonical, or the chain does not reach it. */
  lemma LastReached(y: Ix, db: Db, head: Header)
    requires y.stored > 0 && LastIsCanonical(y, db) && Hashes(y) && Exact(db, head)
    ensures SectionHead(y.heads, y.stored - 1) != Zero <==> y.stored * y.size - 1 <= head.number
    ensures SectionHead(y.heads, y.stored - 1) != Zero <==> HeadCanonical(y, db, y.stored - 1)
  {
    assert y.stored - 1 + 1 == y.stored;
  }

  lemma CanonicalRest(y: Ix, db: Db, head: Header)
    requires Spaced(y, y.stored) && Hashes(y) && Exact(db, head)
    requires y.stored > y.checkpointSections && HeadCanonical(y, db, y.stored - 1)
    ensures StoredCanonical(y, db)
  {
    forall i: nat | y.checkpointSections <= i + 1 && i < y.stored && i in y.heads
      ensures HeadCanonical(y, db, i)
    {
      SpacedBelow(y, db, head, i, y.stored - 1);
    }
  }

  lemma AllIsStoredAndNoneMissing(y: Ix, db: Db)
    ensures AllCanonical(y, db) <==> StoredCanonical(y, db) && NoneMissing(y, y.stored)
  {
    if AllCanonical(y, db) {
      forall i: nat | y.checkpointSections <= i + 1 && i < y.stored
        ensures i in y.heads
      {
        assert HeadCanonical(y, db, i);
      }
    }
  }

  lemma RestIff(y: Ix, db: Db, head: Header)
    requires Spaced(y, y.stored) && Hashes(y) && Exact(db, head)
    requires y.stored > y.checkpointSections && LastIsCanonical(y, db)
    ensures var last := SectionHead(y.heads, y.stored - 1);
            && (last != Zero <==> y.stored * y.size - 1 <= head.number)
            && (last != Zero ==> StoredCanonical(y, db))
            && (AllCanonical(y, db) <==> last != Zero && NoneMissing(y, y.stored))
  {
    LastReached(y, db, head);
    AllIsStoredAndNoneMissing(y, db);
    if HeadCanonical(y, db, y.stored - 1) {
      CanonicalRest(y, db, head);
    } else {
      assert !AllCanonical(y, db);
    }
  }

  /** What verifyLastHead leaves above the checkpoint against an exact index, if its last
      head is not the zero hash, that is, if the chain reaches it: every head that is
      stored is canonical. So all counted ones are, exactly if none is missing. */
  lemma VerifyRestores(x: Ix, db: Db, head: Header)
    requires Spaced(x, x.stored) && Hashes(x) && Exact(db, head) && VerifyLast(x, db).stored > x.checkpointSections
    ensures var y := VerifyLast(x, db);
            var last := SectionHead(y.heads, y.stored - 1);
            && (last != Zero <==> y.stored * y.size - 1 <= head.number)
            && (last != Zero ==> StoredCanonical(y, db))
            && (AllCanonical(y, db) <==> last != Zero && NoneMissing(y, y.stored))
  {
    VerifiedIsFewer(x, db);
    VerifyStops(x, db);
    SpacedFewer(x, VerifyLast(x, db), x.stored, VerifyLast(x, db).stored);
    RestIff(VerifyLast(x, db), db, head);
  }

  lemma LinkedIsCanonical(x: Ix, db: Db, head: Header)
    requires Linked(x) && Exact(db, head)
    ensures var y := VerifyLast(x, db);
            y.stored > x.checkpointSections ==> AllCanonical(y, db) && SectionHead(y.heads, y.stored - 1) != Zero
  {
    var y := VerifyLast(x, db);
    SizesKept(x, db);
    LinkedVerified(x, db);
    if y.stored > x.checkpointSections {
      forall i: nat | y.checkpointSections <= i + 1 && i < y.stored
        ensures HeadCanonical(y, db, i)
      {
        LastHeadIsEnough(x, db, head, i);
      }
    }
  }

  lemma AnswerIsCanonical(t: State, head: Header)
    requires t.call.Free? && Linked(t.ix) && Exact(t.db, head)
    ensures var y := VerifyLast(t.ix, t.db);
            && Leads(t, t.(ix := y), {QuerySections, LockedStep})
            && (y.stored > t.ix.checkpointSections ==>
                  AllCanonical(y, t.db) && SectionHead(y.heads, y.stored - 1) != Zero)
  {
    QueryRuns(t);
    LinkedIsCanonical(t.ix, t.db, head);
  }

  /** In every state reached without overlap, what Sections reports above the checkpoint is
      canonical. */
  lemma SectionsAreCanonical(s: State, actions: seq<Action>, t: State, head: Header)
    requires Weak(s) && Strong(s) && NoOverlap(s, actions)
    requires t == Run(s, actions) && Quiet(t) && Exact(t.db, head)
    ensures var y := VerifyLast(t.ix, t.db);
            && Leads(t, t.(ix := y), {QuerySections, LockedStep})
            && (y.stored > t.ix.checkpointSections ==>
                  AllCanonical(y, t.db) && SectionHead(y.heads, y.stored - 1) != Zero)
  {
    ReachableIsLinked(s, actions);
    AnswerIsCanonical(t, head);
  }

  lemma AnswerIff(t: State, head: Header)
    requires t.call.Free? && Spaced(t.ix, t.ix.stored) && Hashes(t.ix) && Exact(t.db, head)
    ensures var y := VerifyLast(t.ix, t.db);
            var last := SectionHead(y.heads, y.stored - 1);
            && Leads(t, t.(ix := y), {QuerySections, LockedStep})
            && (y.stored > t.ix.checkpointSections ==>
                  && (last != Zero ==> StoredCanonical(y, t.db))
                  && (AllCanonical(y, t.db) <==> last != Zero && NoneMissing(y, y.stored)))
  {
    QueryRuns(t);
    if VerifyLast(t.ix, t.db).stored > t.ix.checkpointSections {
      VerifyRestores(t.ix, t.db, head);
    }
  }

  /** In every state reached without a wrap, overlap or not, a Sections that nobody
      disturbs reports what is canonical if and only if the hash it reports is not zero
      and no counted head is missing. */
  lemma SectionsAreCanonicalIff(s: State, actions: seq<Action>, t: State, head: Header)
    requires Weak(s) && NoWrap(s, actions)
    requires t == Run(s, actions) && t.call.Free? && Exact(t.db, head)
    ensures var y := VerifyLast(t.ix, t.db);
            var last := SectionHead(y.heads, y.stored - 1);
            && Leads(t, t.(ix := y), {QuerySections, LockedStep})
            && (y.stored > t.ix.checkpointSections ==>
                  && (last != Zero ==> StoredCanonical(y, t.db))
                  && (AllCanonical(y, t.db) <==> last != Zero && NoneMissing(y, y.stored)))
  {
    ReachableIsWeak(s, actions);
    AnswerIff(t, head);
  }

  // ---------------------------------------------------------------- a failed Reset that overlaps

  /** An update about to call the backend's Reset while nobody holds the lock. */
  ghost predicate Starting(s: State) {
    Quiet(s) && s.pc.Reading? && s.pc.number == s.pc.section * s.ix.size
  }

  /** The Reset fails after a reorganisation has decided to keep n sections. */
  ghost function Failed(s: State, head: nat): State
    requires s.pc.Reading?
  {
    Decided(s, head).(pc := Resetting(s.pc.section, s.pc.oldHead, Test))
  }

  ghost function Both(head: nat): set<Action> {
    {ReorgTo(head), ResetFails, ResetStep, LockedStep}
  }

  lemma OverlapStarts(s: State, head: nat)
    requires Starting(s) && s.ix.checkpointSections <= (head + 1) / s.ix.size < s.ix.stored
    ensures Leads(s, Failed(s, head), Both(head))
    ensures var u, n := Failed(s, head), (head + 1) / s.ix.size;
            u.ix == s.ix.(known := u.ix.known) && u.call == Shrinking(n, Test, Cascade(n * s.ix.size)) && u.db == s.db
  {
    LeadsNowhere(s, Both(head));
    LeadsOn(s, s, ReorgTo(head), Both(head));
    LeadsOn(s, Decided(s, head), ResetFails, Both(head));
  }

  /** If it completes before the reorganisation carries out what it decided, the links end
      up broken exactly if the reorganisation kept a section. */
  lemma OverlapBreaks(s: State, head: nat)
    requires Starting(s) && Linked(s.ix)
    requires s.ix.checkpointSections <= (head + 1) / s.ix.size < s.ix.stored
    ensures var u := ResetDone(Failed(s, head));
            var t := ShrinkDone(u);
            && Leads(s, t, Both(head)) && Quiet(t) && (Linked(t.ix) <==> (head + 1) / s.ix.size == 0)
  {
    var u := ResetDone(Failed(s, head));
    OverlapStarts(s, head);
    ResetRuns(s, Failed(s, head), Both(head));
    ShrinkEnds(s, u, Both(head));
    NoneLess(u.ix, u.call.target);
  }

  /** If it completes after, they hold. */
  lemma LateResetIsHarmless(s: State, head: nat)
    requires Starting(s) && Linked(s.ix)
    requires s.ix.checkpointSections <= (head + 1) / s.ix.size < s.ix.stored
    ensures var u := ShrinkDone(Failed(s, head));
            var t := ResetDone(u);
            && Leads(s, t, Both(head)) && Quiet(t) && Linked(t.ix)
  {
    var u := ShrinkDone(Failed(s, head));
    OverlapStarts(s, head);
    ShrinkRuns(s, Failed(s, head), Both(head));
    ResetRuns(s, u, Both(head));
    LinkedShrinks(s.ix, (head + 1) / s.ix.size);
  }

  // ---------------------------------------------------------------- a hole, and a wrap

  /** The reorganisation has tested its loop; the unlocked call removes the last head and
      lowers the count to one; the reorganisation lowers it to zero. */
  ghost function HoleOpened(u: State): State
    requires u.pc.Resetting? && u.call.Shrinking?
  {
    u.(ix := u.ix.(stored := 0, heads := u.ix.heads - {2}), pc := u.pc.(phase := Pick),
       call := u.call.(phase := Pick))
  }

  lemma HoleOpens(s: State, u: State, who: set<Action>)
    requires Leads(s, u, who) && ResetStep in who && LockedStep in who
    requires u.pc.Resetting? && u.pc.phase.Test? && u.ix.stored == 3
    requires u.call.Shrinking? && u.call.phase.Test? && u.call.target == 2
    ensures Leads(s, HoleOpened(u), who)
  {
    var v := AtLock(u, u.ix, Load);
    LeadsOn(s, u, LockedStep, who);
    ResetLowers(s, v, who);
    ResetRemoves(s, AtReset(v, v.ix.(stored := 2), Pick), who);
    ResetLowers(s, AtReset(v, v.ix.(stored := 2, heads := v.ix.heads - {2}), Test), who);
    LockedLowers(s, AtReset(v, v.ix.(stored := 1, heads := v.ix.heads - {2}), Pick), who);
  }

  /** The unlocked call removes head 0 and ends; so does the reorganisation, which then
      counts two sections. */
  ghost function HoleLeft(u: State): State
    requires u.pc.Resetting? && u.call.Shrinking?
  {
    Continue(u.(ix := u.ix.(stored := 2, heads := u.ix.heads - {2} - {0}),
                pc := Returned(u.pc.section, u.pc.oldHead, None)), u.call.next)
  }

  lemma HoleCloses(s: State, u: State, who: set<Action>)
    requires Leads(s, u, who) && ResetStep in who && LockedStep in who
    requires u.pc.Resetting? && u.pc.phase.Pick? && u.ix.stored == 0
    requires u.call.Shrinking? && u.call.phase.Pick? && u.call.target == 2
    ensures Leads(s, Continue(u.(ix := u.ix.(stored := 2, heads := u.ix.heads - {0}),
                                 pc := Returned(u.pc.section, u.pc.oldHead, None)), u.call.next), who)
  {
    var x := u.ix.(heads := u.ix.heads - {0});
    ResetRemoves(s, u, who);
    var v := AtReset(u, x, Test);
    ResetEnds(s, v, who);
    NoneLess(x, 0);
    var w := ResetDone(v);
    LockedRemoves(s, w, who);
    assert x.heads - {0} == x.heads;
    ShrinkEnds(s, AtLock(w, x, Test), who);
    NoneLess(x, 2);
    ContinueFrame(w.(ix := x.(stored := 2)), w.call.(phase := Test), w.call.next);
  }

  lemma TwoSections(size: Pos)
    ensures (2 * size - 1 + 1) / size == 2
  {
    SectionsOf(2 * size, size, 1);
    SectionsOf(2 * size, size, 2);
  }

  lemma HoleRuns(s: State, head: nat)
    requires Starting(s) && s.ix.stored == 3 && s.ix.checkpointSections == 0 && (head + 1) / s.ix.size == 2
    ensures Leads(s, HoleLeft(Failed(s, head)), Both(head))
  {
    var u := Failed(s, head);
    OverlapStarts(s, head);
    HoleOpens(s, u, Both(head));
    HoleCloses(s, HoleOpened(u), Both(head));
  }

  lemma HoleIsMissed(x: Ix, y: Ix, db: Db)
    requires Linked(x) && x.stored == 3 && x.checkpointSections == 0 && HeadCanonical(x, db, 1)
    requires y.size == x.size && y.stored == 2 && y.checkpointSections == 0 && y.heads == x.heads - {2} - {0}
    ensures VerifyLast(y, db) == y && SectionHead(y.heads, 1) != Zero && !AllCanonical(y, db)
  {
    assert SectionOk(x, 2);
    assert !HeadCanonical(y, db, 0);
  }

  /** From any three linked sections such a run leaves both calls over, two sections
      counted, the last head canonical, and the first head missing: verifyLastHead finds
      nothing wrong. */
  lemma HoleRemains(s: State, head: nat)
    requires Starting(s) && Linked(s.ix) && s.ix.stored == 3 && s.ix.checkpointSections == 0
    requires HeadCanonical(s.ix, s.db, 1) && head == 2 * s.ix.size - 1
    ensures var t := HoleLeft(Failed(s, head));
            && Leads(s, t, Both(head)) && Quiet(t) && t.ix.stored == 2 && t.db == s.db
            && VerifyLast(t.ix, t.db) == t.ix && SectionHead(t.ix.heads, 1) != Zero && 0 !in t.ix.heads
            && !AllCanonical(t.ix, t.db)
  {
    TwoSections(s.ix.size);
    HoleRuns(s, head);
    OverlapStarts(s, head);
    HoleIsMissed(s.ix, HoleLeft(Failed(s, head)).ix, s.db);
  }

  /** Both calls have tested a count of one; the second to lower it reads zero. */
  ghost function Wrapping(u: State): State
    requires u.pc.Resetting? && u.call.Shrinking?
  {
    u.(ix := u.ix.(stored := 0), pc := u.pc.(phase := Store(0)), call := u.call.(phase := Pick))
  }

  lemma WrapOpens(s: State, u: State, who: set<Action>)
    requires Leads(s, u, who) && ResetStep in who && LockedStep in who
    requires u.pc.Resetting? && u.pc.phase.Test? && u.ix.stored == 1
    requires u.call.Shrinking? && u.call.phase.Test? && u.call.target == 0
    ensures Leads(s, Wrapping(u), who)
  {
    var v := AtLock(u, u.ix, Load);
    OnLocked(s, u, v, who);
    OnReset(s, v, AtReset(v, v.ix, Load), who);
    LockedLowers(s, AtReset(v, v.ix, Load), who);
    var w := AtLock(AtReset(v, v.ix, Load), v.ix.(stored := 0), Pick);
    OnReset(s, w, Wrapping(u), who);
  }

  /** It takes one from that: the count wraps. */
  lemma CountWraps(s: State)
    requires Starting(s) && s.ix.stored == 1 && s.ix.checkpointSections == 0 && s.ix.size > 1
    ensures var t := Wrapping(Failed(s, 0));
            Leads(s, t, Both(0)) && Wraps(t, ResetStep) && Do(t, ResetStep).ix.stored == MAX_COUNT
  {
    assert 1 / s.ix.size == 0 by {
      SectionsOf(1, s.ix.size, 0);
    }
    OverlapStarts(s, 0);
    WrapOpens(s, Failed(s, 0), Both(0));
  }
}
