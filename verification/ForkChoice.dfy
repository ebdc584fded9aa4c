/** core/forkchoice.go, and the head it selects over runs of writeBlockAndSetHead. */
module ForkChoices {
  import opened Chain
  import opened Options

  /** Configuration and engine: justified numbers, the miner's preference and the
      byte order of hashes are fixed functions of the header. */
  datatype Rules = Rules(
    posa: bool, ttd: Option<nat>, platoBlock: nat,
    justified: Header -> nat, preserve: Header -> bool, rank: Hash -> nat)

  // tossed: the random generator was asked.
  datatype Verdict = Decided(reorg: bool, tossed: bool) | MissingTd | UnknownAncestor

  function ReorgNeeded(r: Rules, db: Db, current: Header, extern: Header, coin: bool): Verdict {
    var localTD := ReadTd(db, HashOf(current), current.number);
    var stored := ReadTd(db, HashOf(extern), extern.number);
    var ptd := ReadTd(db, extern.parentHash, extern.number - 1);
    if localTD.None? then MissingTd
    else if stored.None? && ptd.None? then UnknownAncestor
    else
      var externTd := if stored.Some? then stored.value else ptd.value + extern.difficulty;
      if r.ttd.Some? && r.ttd.value <= externTd then Decided(true, false)
      else if externTd != localTD.value then Decided(externTd > localTD.value, false)
      else if extern.number < current.number then Decided(true, false)
      else if extern.number > current.number then Decided(false, false)
      else if r.preserve(current) then Decided(false, false)
      else if r.preserve(extern) || extern.time < current.time then Decided(true, false)
      else if extern.time > current.time then Decided(false, false)
      else if extern.coinbase == current.coinbase then
        Decided(r.rank(HashOf(extern)) < r.rank(HashOf(current)), false)
      else Decided(coin, true)
  }

  function Justified(r: Rules, h: Header): nat {
    if h.number >= r.platoBlock then r.justified(h) else 0
  }

  function ReorgNeededWithFastFinality(r: Rules, db: Db, current: Header, header: Header, coin: bool): Verdict {
    if !r.posa || Justified(r, header) == Justified(r, current) then ReorgNeeded(r, db, current, header, coin)
    else Decided(Justified(r, header) > Justified(r, current), false)
  }

  // ---------------------------------------------------------------- the order it follows

  /** (justified number, total difficulty), compared lexicographically. */
  ghost predicate NoWorse(r: Rules, a: Header, b: Header)
    requires Numbered(a) && Numbered(b)
  {
    Justified(r, a) < Justified(r, b) ||
    (Justified(r, a) == Justified(r, b) && TotalDifficulty(a) <= TotalDifficulty(b))
  }

  /** The tie-break below the two: lower height, own blocks, earlier time, lower hash. */
  ghost predicate WinsTie(r: Rules, a: Header, b: Header) {
    b.number < a.number ||
    (b.number == a.number &&
     ((!r.preserve(a) && r.preserve(b)) ||
      (r.preserve(a) == r.preserve(b) &&
       (b.time < a.time || (b.time == a.time && r.rank(HashOf(b)) < r.rank(HashOf(a)))))))
  }

  ghost predicate Better(r: Rules, a: Header, b: Header)
    requires Numbered(a) && Numbered(b)
  {
    NoWorse(r, a, b) && (!NoWorse(r, b, a) || WinsTie(r, a, b))
  }

  lemma BetterIsStrictOrder(r: Rules, a: Header, b: Header, c: Header)
    requires Numbered(a) && Numbered(b) && Numbered(c)
    ensures !Better(r, a, a)
    ensures Better(r, a, b) && Better(r, b, c) ==> Better(r, a, c)
  {
  }

  /** Without a terminal difficulty, a switch never loses in the first two; and a
      switch that asked no coin is a strict improvement. */
  lemma SwitchImproves(r: Rules, db: Db, current: Header, extern: Header, coin: bool)
    requires r.posa && r.ttd.None? && StoreOk(db)
    requires HasHeader(db, current) && NumberFollowsParent(extern)
    ensures Numbered(current)
    ensures var v := ReorgNeededWithFastFinality(r, db, current, extern, coin);
            v.Decided? && v.reorg && Numbered(extern) ==>
              && NoWorse(r, current, extern)
              && (!v.tossed ==> Better(r, current, extern))
  {
    assert RecordOk(db, current);
    if Numbered(extern) {
      ExternTd(db, extern);
    }
  }

  /** A decision that asked no coin switches exactly to what is better in that order,
      unless both blocks are the miner's own: then it stays. */
  lemma DecisionIsOrder(r: Rules, db: Db, current: Header, extern: Header, coin: bool)
    requires r.posa && r.ttd.None? && StoreOk(db)
    requires HasHeader(db, current) && Numbered(extern) && NumberFollowsParent(extern)
    ensures Numbered(current)
    ensures var v := ReorgNeededWithFastFinality(r, db, current, extern, coin);
            v.Decided? && !v.tossed && !(r.preserve(current) && r.preserve(extern)) ==>
              (v.reorg <==> Better(r, current, extern))
  {
    assert RecordOk(db, current);
    ExternTd(db, extern);
  }

  /** Between stored headers of a sound store the choice always decides. */
  lemma StoredIsDecided(r: Rules, db: Db, current: Header, extern: Header, coin: bool)
    requires StoreOk(db) && HasHeader(db, current) && HasHeader(db, extern)
    ensures ReorgNeededWithFastFinality(r, db, current, extern, coin).Decided?
  {
    assert RecordOk(db, current) && RecordOk(db, extern);
  }

  /** It looks at total difficulties only. */
  lemma VerdictFrame(r: Rules, d: Db, e: Db, current: Header, extern: Header, coin: bool)
    requires e.td == d.td && e.ancient == d.ancient
    ensures ReorgNeededWithFastFinality(r, e, current, extern, coin) ==
            ReorgNeededWithFastFinality(r, d, current, extern, coin)
  {
    assert forall x, n: int :: ReadTd(e, x, n) == ReadTd(d, x, n);
  }

  /** A total difficulty found in a sound store is the sum along the path. */
  lemma FoundTd(db: Db, h: Header)
    requires StoreOk(db) && ReadTd(db, HashOf(h), h.number).Some?
    ensures Numbered(h) && ReadTd(db, HashOf(h), h.number).value == TotalDifficulty(h)
  {
    assert HasHeader(db, h);
    assert RecordOk(db, h);
  }

  /** The difficulty the choice works with is the sum along the path, whether the
      block was stored before or only its parent. */
  lemma ExternTd(db: Db, h: Header)
    requires StoreOk(db) && NumberFollowsParent(h) && Numbered(h)
    ensures var stored := ReadTd(db, HashOf(h), h.number);
            stored.Some? ==> stored.value == TotalDifficulty(h)
    ensures var ptd := ReadTd(db, h.parentHash, h.number - 1);
            ptd.Some? ==> h.number > 0 && ptd.value + h.difficulty == TotalDifficulty(h)
  {
    if ReadTd(db, HashOf(h), h.number).Some? {
      FoundTd(db, h);
    }
    if ReadTd(db, h.parentHash, h.number - 1).Some? {
      FoundTd(db, h.parentHash.header);
    }
  }

  // ---------------------------------------------------------------- runs

  datatype State = State(db: Db, head: Header)

  // reorgOk: whether moving the canonical chain succeeds (no block is missing).
  datatype Input = Input(block: Header, coin: bool, reorgOk: bool)

  /** writeBlockAndSetHead: choose first, then write the block with its difficulty,
      then move the head. */
  ghost function Step(r: Rules, s: State, i: Input): State {
    var v := ReorgNeededWithFastFinality(r, s.db, s.head, i.block, i.coin);
    var ptd := ReadTd(s.db, i.block.parentHash, i.block.number - 1);
    if !v.Decided? || ptd.None? then s
    else
      var td := ptd.value + i.block.difficulty;
      var db := s.db.(stored := s.db.stored + {i.block}, td := s.db.td[i.block := td]);
      State(db, if v.reorg && i.reorgOk then i.block else s.head)
  }

  ghost predicate Good(s: State) {
    StoreOk(s.db) && HasHeader(s.db, s.head)
  }

  ghost predicate Tossed(r: Rules, s: State, i: Input) {
    var v := ReorgNeededWithFastFinality(r, s.db, s.head, i.block, i.coin);
    v.Decided? && v.tossed
  }

  lemma StepImproves(r: Rules, s: State, i: Input)
    requires r.posa && r.ttd.None? && Good(s) && NumberFollowsParent(i.block)
    ensures var t := Step(r, s, i);
            && Good(t) && Numbered(s.head) && Numbered(t.head) && NoWorse(r, s.head, t.head)
            && (t.head != s.head && !Tossed(r, s, i) ==> Better(r, s.head, t.head))
  {
    assert RecordOk(s.db, s.head);
    var ptd := ReadTd(s.db, i.block.parentHash, i.block.number - 1);
    if ptd.Some? {
      FoundTd(s.db, i.block.parentHash.header);
      ExternTd(s.db, i.block);
      StoreOneMore(s.db, i.block);
      SwitchImproves(r, s.db, s.head, i.block, i.coin);
    }
  }

  ghost predicate IsRun(r: Rules, states: seq<State>, inputs: seq<Input>) {
    && |states| == |inputs| + 1 && Good(states[0])
    && (forall k :: 0 <= k < |inputs| ==> NumberFollowsParent(inputs[k].block))
    && (forall k :: 0 <= k < |inputs| ==> states[k + 1] == Step(r, states[k], inputs[k]))
  }

  lemma {:induction false} RunIsGood(r: Rules, states: seq<State>, inputs: seq<Input>, j: nat)
    requires r.posa && r.ttd.None? && IsRun(r, states, inputs) && j < |states|
    ensures Good(states[j]) && Numbered(states[j].head)
  {
    if j > 0 {
      RunIsGood(r, states, inputs, j - 1);
      StepImproves(r, states[j - 1], inputs[j - 1]);
      assert states[j - 1 + 1] == Step(r, states[j - 1], inputs[j - 1]);
    }
    assert RecordOk(states[j].db, states[j].head);
  }

  /** Over any run the head's justified number and total difficulty never decrease. */
  lemma {:induction false} RunNeverWorse(r: Rules, states: seq<State>, inputs: seq<Input>, i: nat, j: nat)
    requires r.posa && r.ttd.None? && IsRun(r, states, inputs) && i <= j < |states|
    ensures Numbered(states[i].head) && Numbered(states[j].head) && NoWorse(r, states[i].head, states[j].head)
    decreases j
  {
    RunIsGood(r, states, inputs, j);
    if i < j {
      RunNeverWorse(r, states, inputs, i, j - 1);
      RunIsGood(r, states, inputs, j - 1);
      StepImproves(r, states[j - 1], inputs[j - 1]);
      assert states[j - 1 + 1] == Step(r, states[j - 1], inputs[j - 1]);
    }
  }

  /** In a run that never asks the random generator every new head is better than all
      heads before it. */
  lemma {:induction false} RunStrictlyImproves(r: Rules, states: seq<State>, inputs: seq<Input>, i: nat, j: nat)
    requires r.posa && r.ttd.None? && IsRun(r, states, inputs) && i <= j < |states|
    requires forall k :: i <= k < j ==> !Tossed(r, states[k], inputs[k])
    ensures Numbered(states[i].head) && Numbered(states[j].head)
    ensures (forall k :: i <= k <= j ==> states[k].head == states[i].head) ||
            Better(r, states[i].head, states[j].head)
    decreases j
  {
    RunIsGood(r, states, inputs, i);
    RunIsGood(r, states, inputs, j);
    if i < j {
      RunStrictlyImproves(r, states, inputs, i, j - 1);
      RunIsGood(r, states, inputs, j - 1);
      StepImproves(r, states[j - 1], inputs[j - 1]);
      assert states[j - 1 + 1] == Step(r, states[j - 1], inputs[j - 1]);
      BetterIsStrictOrder(r, states[i].head, states[j - 1].head, states[j].head);
    }
  }

  /** Such a run never returns to a head it has displaced. */
  lemma NeverReturns(r: Rules, states: seq<State>, inputs: seq<Input>, i: nat, k: nat, j: nat)
    requires r.posa && r.ttd.None? && IsRun(r, states, inputs) && i <= k <= j < |states|
    requires forall m :: i <= m < j ==> !Tossed(r, states[m], inputs[m])
    requires states[k].head != states[i].head
    ensures states[j].head != states[i].head
  {
    RunStrictlyImproves(r, states, inputs, i, j);
    BetterIsStrictOrder(r, states[i].head, states[j].head, states[j].head);
  }

  /** With the random tie-break it can: two blocks that only differ in their miner. */
  lemma CoinCanReturn(r: Rules)
    requires r.posa && r.ttd.None? && r.platoBlock > 1 && forall h: Header :: !r.preserve(h)
    ensures var g := Header(Zero, 0, 0, 0, 0, 0, []);
            var a, b := Header(HashOf(g), 1, 1, 0, 1, 0, []), Header(HashOf(g), 1, 1, 0, 2, 0, []);
            var s := State(Db({g, a}, {}, map[g := 0, a := 1], map[], map[], [], Zero, Zero, Zero), a);
            var t := Step(r, s, Input(b, true, true));
            Good(s) && t.head == b && Step(r, t, Input(a, true, true)).head == a
  {
    var g := Header(Zero, 0, 0, 0, 0, 0, []);
    var a := Header(HashOf(g), 1, 1, 0, 1, 0, []);
    var d := Db({g, a}, {}, map[g := 0, a := 1], map[], map[], [], Zero, Zero, Zero);
    forall h | HasHeader(d, h)
      ensures RecordOk(d, h)
    {
      assert h == g || h == a;
    }
  }
}
