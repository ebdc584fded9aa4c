/** core/state_processor.go: the transaction loop of a block. */
module Processors {
  import opened Balances
  import opened Fees
  import opened Intrinsics
  import opened Options
  import opened Transitions

  datatype Receipt = Receipt(gasUsed: nat, cumulativeGasUsed: nat, failed: bool)

  datatype ProcessError = EngineError | NormalTxAfterSystemTx(index: nat) | ApplyError(index: nat, error: Error)

  datatype Result =
    | Processed(receipts: seq<Receipt>, commonTxs: seq<Tx>, systemTxs: seq<Tx>, usedGas: nat)
    | Rejected(error: ProcessError)

  /** posa.IsSystemTransaction: its answer for each transaction, None on error. */
  type Classifier = Tx -> Option<bool>

  predicate IsSystem(isPoSA: bool, kind: Classifier, tx: Tx) {
    isPoSA && kind(tx) == Some(true)
  }

  function MessageOf(b: Block, tx: Tx): Message {
    TransactionToMessage(tx, BaseFee(b))
  }

  /** Parlia's answer: free transactions of the coinbase to a system contract. Its set has
      one recipient more (consensus/parlia/parlia.go:169-171), so what lies in this one is
      a system transaction for it. */
  predicate ParliaSystem(b: Block, tx: Tx) {
    tx.to.Some? && tx.from == b.coinbase && tx.to.value in b.systemContracts && tx.feeCap == 0
  }

  /** So a transaction that gets through without paying the base fee is a system
      transaction, which the loop does not apply. */
  lemma UnderpricedIsSystem(b: Block, tx: Tx)
    requires Ordinary(b, MessageOf(b, tx)) && FeeCheck(b, MessageOf(b, tx)).None? && Underpriced(b, MessageOf(b, tx))
    ensures ParliaSystem(b, tx)
  {
    UnderpricedIsFree(b, MessageOf(b, tx));
  }

  /** An ordinary transaction: one the loop applies. */
  ghost predicate Applicable(b: Block, tx: Tx) {
    var m := MessageOf(b, tx);
    Ordinary(b, m) && !(Underpriced(b, m) && SystemExempt(b, m))
  }

  ghost function Sum(receipts: seq<Receipt>): nat {
    if receipts == [] then 0 else Sum(receipts[..|receipts| - 1]) + receipts[|receipts| - 1].gasUsed
  }

  /** Every cumulative count is the sum of the gas used up to and including it. */
  ghost predicate Cumulative(receipts: seq<Receipt>) {
    forall i :: 0 <= i < |receipts| ==> receipts[i].cumulativeGasUsed == Sum(receipts[..i + 1])
  }

  lemma CumulativeAppend(receipts: seq<Receipt>, r: Receipt)
    requires Cumulative(receipts) && r.cumulativeGasUsed == Sum(receipts) + r.gasUsed
    ensures Sum(receipts + [r]) == r.cumulativeGasUsed && Cumulative(receipts + [r])
  {
    var more := receipts + [r];
    assert more[..|receipts|] == receipts && more[..|more|] == more;
    forall i | 0 <= i < |more|
      ensures more[i].cumulativeGasUsed == Sum(more[..i + 1])
    {
      if i < |receipts| {
        assert more[..i + 1] == receipts[..i + 1];
      }
    }
  }

  /** The transactions of a list that are, or are not, system transactions. */
  function Select(txs: seq<Tx>, isPoSA: bool, kind: Classifier, system: bool): seq<Tx> {
    if txs == [] then []
    else
      var rest := Select(txs[..|txs| - 1], isPoSA, kind, system);
      if IsSystem(isPoSA, kind, txs[|txs| - 1]) == system then rest + [txs[|txs| - 1]] else rest
  }

  lemma SelectAppend(txs: seq<Tx>, tx: Tx, isPoSA: bool, kind: Classifier, system: bool)
    ensures Select(txs + [tx], isPoSA, kind, system) ==
            Select(txs, isPoSA, kind, system) + if IsSystem(isPoSA, kind, tx) == system then [tx] else []
  {
    assert (txs + [tx])[..|txs|] == txs;
  }

  // ---------------------------------------------------------------- replaying a block

  /** The accounts after these transactions, given their runs of the EVM. */
  ghost function Replay(b: Block, txs: seq<Tx>, runs: seq<EvmRun>, a: Accounts): Accounts
    requires |txs| == |runs|
  {
    if runs == [] then a else After(b, MessageOf(b, txs[|txs| - 1]), runs[|runs| - 1])
  }

  /** And the gas they use. */
  ghost function Gas(b: Block, txs: seq<Tx>, runs: seq<EvmRun>): nat
    requires |txs| == |runs|
  {
    if runs == [] then 0
    else
      Gas(b, txs[..|txs| - 1], runs[..|runs| - 1]) + UsedBy(b, MessageOf(b, txs[|txs| - 1]), runs[|runs| - 1])
  }

  /** The verdict on a transaction that follows these. */
  ghost function NextVerdict(
    b: Block, txs: seq<Tx>, runs: seq<EvmRun>, a: Accounts, gasLimit: nat, tx: Tx): Option<Error>
    requires |txs| == |runs| && |tx.data| < U64
  {
    Verdict(b, MessageOf(b, tx), Replay(b, txs, runs, a), gasLimit - Gas(b, txs, runs))
  }

  /** The k-th transaction is accepted, and its run of the EVM starts where the ones
      before have left the accounts. */
  ghost predicate AcceptedAt(b: Block, txs: seq<Tx>, runs: seq<EvmRun>, a: Accounts, gasLimit: nat, k: nat)
    requires k < |txs| == |runs|
  {
    && |txs[k].data| < U64 && NextVerdict(b, txs[..k], runs[..k], a, gasLimit, txs[k]).None?
    && Ran(b, MessageOf(b, txs[k]), Replay(b, txs[..k], runs[..k], a), runs[k])
  }

  ghost predicate Accepted(b: Block, txs: seq<Tx>, runs: seq<EvmRun>, a: Accounts, gasLimit: nat)
    requires |txs| == |runs|
  {
    forall k: nat :: k < |runs| ==> AcceptedAt(b, txs, runs, a, gasLimit, k)
  }

  lemma AcceptedStep(
    b: Block, txs: seq<Tx>, runs: seq<EvmRun>, a: Accounts, gasLimit: nat, tx: Tx, run: EvmRun)
    requires |txs| == |runs| && Accepted(b, txs, runs, a, gasLimit) && |tx.data| < U64
    requires NextVerdict(b, txs, runs, a, gasLimit, tx).None?
    requires Ran(b, MessageOf(b, tx), Replay(b, txs, runs, a), run)
    ensures Accepted(b, txs + [tx], runs + [run], a, gasLimit)
    ensures Replay(b, txs + [tx], runs + [run], a) == After(b, MessageOf(b, tx), run)
    ensures Gas(b, txs + [tx], runs + [run]) == Gas(b, txs, runs) + UsedBy(b, MessageOf(b, tx), run)
  {
    var ts, rs := txs + [tx], runs + [run];
    assert ts[..|txs|] == txs && rs[..|runs|] == runs;
    forall k: nat | k < |rs|
      ensures AcceptedAt(b, ts, rs, a, gasLimit, k)
    {
      assert ts[..k] == txs[..k] && rs[..k] == runs[..k];
      if k < |runs| {
        assert AcceptedAt(b, txs, runs, a, gasLimit, k);
      } else {
        assert txs[..k] == txs && runs[..k] == runs;
      }
    }
  }

  /** A receipt reports what its run of the EVM did. */
  ghost predicate Agrees(b: Block, tx: Tx, receipt: Receipt, run: EvmRun) {
    receipt.failed == run.failed && receipt.gasUsed == UsedBy(b, MessageOf(b, tx), run)
  }

  /** Transactions, receipts and runs of the EVM, from the accounts a0 to the accounts a. */
  ghost predicate Replayed(
    b: Block, a0: Accounts, gasLimit: nat, a: Accounts, usedGas: nat, txs: seq<Tx>, receipts: seq<Receipt>,
    runs: seq<EvmRun>)
  {
    && |txs| == |receipts| == |runs| && Accepted(b, txs, runs, a0, gasLimit)
    && a == Replay(b, txs, runs, a0) && usedGas == Gas(b, txs, runs)
    && (forall k :: 0 <= k < |runs| ==> Agrees(b, txs[k], receipts[k], runs[k]))
  }

  lemma ReplayedStep(
    b: Block, a0: Accounts, gasLimit: nat, a: Accounts, usedGas: nat, txs: seq<Tx>, receipts: seq<Receipt>,
    runs: seq<EvmRun>, tx: Tx, receipt: Receipt, run: EvmRun, after: Accounts)
    requires after == After(b, MessageOf(b, tx), run)
    requires Replayed(b, a0, gasLimit, a, usedGas, txs, receipts, runs) && |tx.data| < U64
    requires Verdict(b, MessageOf(b, tx), a, gasLimit - usedGas).None? && Ran(b, MessageOf(b, tx), a, run)
    requires Agrees(b, tx, receipt, run) && receipt.cumulativeGasUsed == usedGas + receipt.gasUsed
    ensures Replayed(b, a0, gasLimit, after, receipt.cumulativeGasUsed, txs + [tx], receipts + [receipt], runs + [run])
  {
    AcceptedStep(b, txs, runs, a0, gasLimit, tx, run);
  }

  /** The verdict in the loop is the one the transactions before lead to. */
  lemma VerdictHere(
    b: Block, a0: Accounts, gasLimit: nat, a: Accounts, usedGas: nat, txs: seq<Tx>, receipts: seq<Receipt>,
    runs: seq<EvmRun>, tx: Tx)
    requires Replayed(b, a0, gasLimit, a, usedGas, txs, receipts, runs) && |tx.data| < U64
    ensures NextVerdict(b, txs, runs, a0, gasLimit, tx) == Verdict(b, MessageOf(b, tx), a, gasLimit - usedGas)
  {
  }

  // ---------------------------------------------------------------- the supply

  /** What a block's base fees take out of the supply; under Parlia nothing else is. */
  function BaseFeeBurned(b: Block, usedGas: nat): nat {
    if b.rules.london then usedGas * b.baseFee else 0
  }

  lemma BurnAdds(b: Block, m: Message, usedGas: nat, gas: nat)
    requires b.rules.parlia
    ensures BaseFeeBurned(b, usedGas) + Burned(b, m, gas) == BaseFeeBurned(b, usedGas + gas)
  {
    assert (usedGas + gas) * b.baseFee == usedGas * b.baseFee + gas * b.baseFee;
  }

  /** What the runs themselves have added to the supply. */
  ghost function Minted(runs: seq<EvmRun>): int {
    if runs == [] then 0
    else
      var last := runs[|runs| - 1];
      Minted(runs[..|runs| - 1]) + Total(last.after.balances) - Total(last.before.balances)
  }

  lemma MintedAppend(runs: seq<EvmRun>, run: EvmRun)
    ensures Minted(runs + [run]) == Minted(runs) + Total(run.after.balances) - Total(run.before.balances)
  {
    assert (runs + [run])[..|runs|] == runs;
  }

  /** Under Parlia the supply changes by what the EVM did less base fee times gas used. */
  ghost predicate Supply(b: Block, total0: int, total: int, runs: seq<EvmRun>, usedGas: nat) {
    b.rules.parlia ==> total + BaseFeeBurned(b, usedGas) - total0 == Minted(runs)
  }

  lemma SupplyStep(
    b: Block, m: Message, total0: int, before: Book, runs: seq<EvmRun>, usedGas: nat, after: Book, run: EvmRun,
    gas: nat, sum: nat)
    requires Supply(b, total0, Total(before), runs, usedGas) && Moves(b, m, gas, before, after, run)
    requires sum == usedGas + gas
    ensures Supply(b, total0, Total(after), runs + [run], sum)
  {
    MintedAppend(runs, run);
    if b.rules.parlia {
      BurnAdds(b, m, usedGas, gas);
    }
  }

  // ---------------------------------------------------------------- the loop

  /** applyTransaction: it fails exactly when the transition does. */
  method ApplyTransaction(b: Block, tx: Tx, gp: GasPool, state: StateDb, usedGas: nat)
    returns (err: Option<Error>, receipt: Receipt, ghost run: EvmRun)
    requires Ordinary(b, MessageOf(b, tx)) && Total(state.balances) < U256 && gp.gas < U64
    modifies gp, state
    ensures err == Verdict(b, MessageOf(b, tx), old(state.Value()), old(gp.gas))
    ensures state.runs == if err.Some? then old(state.runs) else old(state.runs) + [run]
    ensures err.None? ==> Ran(b, MessageOf(b, tx), old(state.Value()), run) && Agrees(b, tx, receipt, run)
    ensures err.None? ==> state.Value() == After(b, MessageOf(b, tx), run)
    ensures err.None? ==> receipt.gasUsed <= old(gp.gas) && gp.gas == old(gp.gas) - receipt.gasUsed
    ensures err.None? ==> receipt.cumulativeGasUsed == usedGas + receipt.gasUsed
    ensures err.None? ==>
            (Moves(b, MessageOf(b, tx), receipt.gasUsed, old(state.balances), state.balances, run) <==>
             Covered(b, MessageOf(b, tx), receipt.gasUsed, run.after.balances))
    ensures err.None? && Covered(b, MessageOf(b, tx), receipt.gasUsed, run.after.balances) ==>
            Total(state.balances) < U256
  {
    ghost var a := state.Value();
    var st := new StateTransition(gp, state, MessageOf(b, tx), b);
    var r := st.TransitionDb();
    receipt, run := Receipt(0, 0, true), EvmRun(0, 0, 0, false, a, a);
    if r.Failed? {
      return Some(r.error), receipt, run;
    }
    receipt := Receipt(r.usedGas, usedGas + r.usedGas, r.vmFailed);
    run := state.runs[|state.runs| - 1];
    return None, receipt, run;
  }

  /** The loop state after some transactions: pool and counter make up the block's gas
      limit, receipts add up, the transactions are sorted into the two lists. */
  ghost predicate LoopOk(
    txs: seq<Tx>, isPoSA: bool, kind: Classifier, cancun: bool, gasLimit: nat, pool: nat, usedGas: nat,
    receipts: seq<Receipt>, commonTxs: seq<Tx>, systemTxs: seq<Tx>)
  {
    && pool + usedGas == gasLimit && usedGas == Sum(receipts) && Cumulative(receipts)
    && |receipts| == |commonTxs|
    && commonTxs == Select(txs, isPoSA, kind, false) && systemTxs == Select(txs, isPoSA, kind, true)
    && (cancun ==> commonTxs + systemTxs == txs)
  }

  lemma LoopSystem(
    txs: seq<Tx>, tx: Tx, isPoSA: bool, kind: Classifier, cancun: bool, gasLimit: nat, pool: nat, usedGas: nat,
    receipts: seq<Receipt>, commonTxs: seq<Tx>, systemTxs: seq<Tx>)
    requires LoopOk(txs, isPoSA, kind, cancun, gasLimit, pool, usedGas, receipts, commonTxs, systemTxs)
    requires IsSystem(isPoSA, kind, tx)
    ensures LoopOk(txs + [tx], isPoSA, kind, cancun, gasLimit, pool, usedGas, receipts, commonTxs, systemTxs + [tx])
  {
    SelectAppend(txs, tx, isPoSA, kind, true);
    SelectAppend(txs, tx, isPoSA, kind, false);
  }

  lemma LoopOrdinary(
    txs: seq<Tx>, tx: Tx, isPoSA: bool, kind: Classifier, cancun: bool, gasLimit: nat, pool: nat, usedGas: nat,
    receipts: seq<Receipt>, commonTxs: seq<Tx>, systemTxs: seq<Tx>, r: Receipt)
    requires LoopOk(txs, isPoSA, kind, cancun, gasLimit, pool, usedGas, receipts, commonTxs, systemTxs)
    requires !IsSystem(isPoSA, kind, tx) && (cancun ==> systemTxs == [])
    requires r.gasUsed <= pool && r.cumulativeGasUsed == usedGas + r.gasUsed
    ensures LoopOk(txs + [tx], isPoSA, kind, cancun, gasLimit, pool - r.gasUsed, r.cumulativeGasUsed,
                   receipts + [r], commonTxs + [tx], systemTxs)
  {
    SelectAppend(txs, tx, isPoSA, kind, true);
    SelectAppend(txs, tx, isPoSA, kind, false);
    CumulativeAppend(receipts, r);
  }

  /** The loop state, with the accounts and the runs of the EVM that belong to it. */
  ghost predicate Looping(
    b: Block, txs: seq<Tx>, isPoSA: bool, kind: Classifier, gasLimit: nat, pool: nat, a: Accounts, runs: seq<EvmRun>,
    usedGas: nat, receipts: seq<Receipt>, commonTxs: seq<Tx>, systemTxs: seq<Tx>, a0: Accounts)
  {
    && pool < U64 && Total(a.balances) < U256 && Classified(txs, isPoSA, kind)
    && LoopOk(txs, isPoSA, kind, b.rules.cancun, gasLimit, pool, usedGas, receipts, commonTxs, systemTxs)
    && Replayed(b, a0, gasLimit, a, usedGas, commonTxs, receipts, runs)
    && Supply(b, Total(a0.balances), Total(a.balances), runs, usedGas)
  }

  /** applyTransaction on an ordinary transaction: the supply follows. */
  method ApplyPriced(b: Block, tx: Tx, gp: GasPool, state: StateDb, usedGas: nat)
    returns (err: Option<Error>, receipt: Receipt, ghost run: EvmRun)
    requires Applicable(b, tx) && Total(state.balances) < U256 && gp.gas < U64
    modifies gp, state
    ensures err == Verdict(b, MessageOf(b, tx), old(state.Value()), old(gp.gas))
    ensures state.runs == if err.Some? then old(state.runs) else old(state.runs) + [run]
    ensures err.None? ==> Ran(b, MessageOf(b, tx), old(state.Value()), run) && Agrees(b, tx, receipt, run)
    ensures err.None? ==> state.Value() == After(b, MessageOf(b, tx), run) && Total(state.balances) < U256
    ensures err.None? ==> receipt.gasUsed <= old(gp.gas) && gp.gas == old(gp.gas) - receipt.gasUsed
    ensures err.None? ==> receipt.cumulativeGasUsed == usedGas + receipt.gasUsed
    ensures err.None? ==> Moves(b, MessageOf(b, tx), receipt.gasUsed, old(state.balances), state.balances, run)
  {
    ghost var a, pool := state.Value(), gp.gas;
    err, receipt, run := ApplyTransaction(b, tx, gp, state, usedGas);
    if err.None? {
      AcceptedIsPriced(b, tx, a, pool);
    }
  }

  /** One ordinary transaction in the loop: the exact error, or one more of everything. */
  method ApplyOrdinary(
    b: Block, ghost txs: seq<Tx>, tx: Tx, gp: GasPool, state: StateDb, ghost isPoSA: bool, ghost kind: Classifier,
    ghost gasLimit: nat, usedGas: nat, ghost receipts: seq<Receipt>, ghost commonTxs: seq<Tx>,
    ghost systemTxs: seq<Tx>, ghost a0: Accounts, ghost runs: seq<EvmRun>)
    returns (err: Option<Error>, receipt: Receipt, ghost run: EvmRun)
    requires Applicable(b, tx) && !IsSystem(isPoSA, kind, tx) && (b.rules.cancun ==> systemTxs == [])
    requires Classified(txs + [tx], isPoSA, kind)
    requires Looping(b, txs, isPoSA, kind, gasLimit, gp.gas, state.Value(), runs, usedGas, receipts,
                     commonTxs, systemTxs, a0)
    modifies gp, state
    ensures state.runs == if err.Some? then old(state.runs) else old(state.runs) + [run]
    ensures err == NextVerdict(b, commonTxs, runs, a0, gasLimit, tx)
    ensures err.None? ==>
            Looping(b, txs + [tx], isPoSA, kind, gasLimit, gp.gas, state.Value(), runs + [run],
                    receipt.cumulativeGasUsed, receipts + [receipt], commonTxs + [tx], systemTxs, a0)
  {
    ghost var pool, a := gp.gas, state.Value();
    VerdictHere(b, a0, gasLimit, a, usedGas, commonTxs, receipts, runs, tx);
    err, receipt, run := ApplyPriced(b, tx, gp, state, usedGas);
    if err.None? {
      LoopOrdinary(txs, tx, isPoSA, kind, b.rules.cancun, gasLimit, pool, usedGas, receipts, commonTxs, systemTxs,
                   receipt);
      ReplayedStep(b, a0, gasLimit, a, usedGas, commonTxs, receipts, runs, tx, receipt, run, state.Value());
      SupplyStep(b, MessageOf(b, tx), Total(a0.balances), a.balances, runs, usedGas, state.balances, run,
                 receipt.gasUsed, receipt.cumulativeGasUsed);
    }
  }

  lemma AcceptedIsPriced(b: Block, tx: Tx, a: Accounts, pool: int)
    requires Applicable(b, tx) && Verdict(b, MessageOf(b, tx), a, pool).None?
    ensures !Underpriced(b, MessageOf(b, tx))
  {
    if Underpriced(b, MessageOf(b, tx)) {
      UnderpricedIsFree(b, MessageOf(b, tx));
    }
  }

  /** Process, up to the engine's Finalize. For every prefix of the transactions, pool
      and used gas make up the gas limit; every ordinary transaction is accepted, or the
      first that is not rejects the block with the transition's own error, on the accounts
      its predecessors left; from Cancun on an accepted block is ordinary transactions
      followed by system transactions; and under Parlia the supply has changed by what the
      EVM did less base fee times gas used. */
  method Process(b: Block, txs: seq<Tx>, gasLimit: nat, state: StateDb, isPoSA: bool, kind: Classifier)
    returns (r: Result)
    requires gasLimit < U64 && Total(state.balances) < U256
    requires forall i :: 0 <= i < |txs| && !IsSystem(isPoSA, kind, txs[i]) ==> Applicable(b, txs[i])
    modifies state
    ensures old(state.runs) <= state.runs
    ensures r.Processed? ==> r.usedGas <= gasLimit && Classified(txs, isPoSA, kind)
    ensures r.Processed? ==>
            LoopOk(txs, isPoSA, kind, b.rules.cancun, gasLimit, gasLimit - r.usedGas, r.usedGas,
                   r.receipts, r.commonTxs, r.systemTxs)
    ensures r.Processed? ==>
            Replayed(b, old(state.Value()), gasLimit, state.Value(), r.usedGas, r.commonTxs, r.receipts,
                     state.runs[|old(state.runs)|..])
    ensures r.Processed? ==>
            Supply(b, old(Total(state.balances)), Total(state.balances), state.runs[|old(state.runs)|..], r.usedGas)
    ensures r.Rejected? ==>
            Reason(b, txs, isPoSA, kind, old(state.Value()), gasLimit, state.runs[|old(state.runs)|..], r.error)
  {
    var gp := new GasPool(gasLimit);
    var usedGas: nat, receipts, commonTxs, systemTxs := 0, [], [], [];
    ghost var a0, runs: seq<EvmRun> := state.Value(), [];
    for i := 0 to |txs|
      invariant Looping(b, txs[..i], isPoSA, kind, gasLimit, gp.gas, state.Value(), runs, usedGas, receipts,
                        commonTxs, systemTxs, a0)
      invariant state.runs == old(state.runs) + runs
    {
      var err;
      err, usedGas, receipts, commonTxs, systemTxs, runs :=
        ProcessOne(b, txs, i, gp, state, isPoSA, kind, gasLimit, usedGas, receipts, commonTxs, systemTxs, a0, runs,
                   old(state.runs));
      assert state.runs[|old(state.runs)|..] == runs;
      if err.Some? {
        return Rejected(err.value);
      }
    }
    assert txs[..|txs|] == txs && state.runs[|old(state.runs)|..] == runs;
    return Processed(receipts, commonTxs, systemTxs, usedGas);
  }

  /** The body of the loop. */
  method ProcessOne(
    b: Block, txs: seq<Tx>, i: nat, gp: GasPool, state: StateDb, isPoSA: bool, kind: Classifier, ghost gasLimit: nat,
    usedGas0: nat, receipts0: seq<Receipt>, commonTxs0: seq<Tx>, systemTxs0: seq<Tx>, ghost a0: Accounts,
    ghost runs0: seq<EvmRun>, ghost base: seq<EvmRun>)
    returns (
      err: Option<ProcessError>, usedGas: nat, receipts: seq<Receipt>, commonTxs: seq<Tx>, systemTxs: seq<Tx>,
      ghost runs: seq<EvmRun>)
    requires state.runs == base + runs0
    requires i < |txs| && (IsSystem(isPoSA, kind, txs[i]) || Applicable(b, txs[i]))
    requires Looping(b, txs[..i], isPoSA, kind, gasLimit, gp.gas, state.Value(), runs0, usedGas0, receipts0,
                     commonTxs0, systemTxs0, a0)
    modifies gp, state
    ensures state.runs == base + runs
    ensures err.Some? ==> Reason(b, txs, isPoSA, kind, a0, gasLimit, runs, err.value)
    ensures err.None? ==>
            Looping(b, txs[..i + 1], isPoSA, kind, gasLimit, gp.gas, state.Value(), runs, usedGas, receipts,
                    commonTxs, systemTxs, a0)
  {
    err, usedGas, receipts, commonTxs, systemTxs, runs := None, usedGas0, receipts0, commonTxs0, systemTxs0, runs0;
    var tx := txs[i];
    assert txs[..i + 1] == txs[..i] + [tx];
    ClassifiedStep(txs, i, isPoSA, kind);
    if isPoSA {
      var isSystemTx := kind(tx);
      if isSystemTx.None? {
        err := Some(EngineError);
        return;
      }
      if isSystemTx.value {
        LoopSystem(txs[..i], tx, isPoSA, kind, b.rules.cancun, gasLimit, gp.gas, usedGas, receipts, commonTxs,
                   systemTxs);
        systemTxs := systemTxs + [tx];
        return;
      }
    }
    if b.rules.cancun && |systemTxs| > 0 {
      SelectedIsThere(txs, i, isPoSA, kind);
      err := Some(NormalTxAfterSystemTx(i));
      return;
    }
    var e, receipt;
    ghost var run;
    e, receipt, run := ApplyOrdinary(b, txs[..i], tx, gp, state, isPoSA, kind, gasLimit, usedGas, receipts,
                                     commonTxs, systemTxs, a0, runs0);
    if e.Some? {
      err := Some(ApplyError(i, e.value));
      return;
    }
    usedGas := receipt.cumulativeGasUsed;
    commonTxs := commonTxs + [tx];
    receipts := receipts + [receipt];
    runs := runs + [run];
    assert base + (runs0 + [run]) == base + runs0 + [run];
  }

  ghost predicate Classified(txs: seq<Tx>, isPoSA: bool, kind: Classifier) {
    isPoSA ==> forall i :: 0 <= i < |txs| ==> kind(txs[i]).Some?
  }

  lemma ClassifiedStep(txs: seq<Tx>, i: nat, isPoSA: bool, kind: Classifier)
    requires i < |txs| && Classified(txs[..i], isPoSA, kind)
    ensures Classified(txs[..i + 1], isPoSA, kind) <==> (isPoSA ==> kind(txs[i]).Some?)
    ensures isPoSA && kind(txs[i]).None? ==> !Classified(txs, isPoSA, kind)
  {
    assert forall k :: 0 <= k < i + 1 ==> txs[..i + 1][k] == if k < i then txs[..i][k] else txs[i];
    assert txs[..i + 1][i] == txs[i];
  }

  /** Why a block is rejected: the ordinary transactions before the i-th are accepted,
      and it is not, for the reason given. */
  ghost predicate Reason(
    b: Block, txs: seq<Tx>, isPoSA: bool, kind: Classifier, a0: Accounts, gasLimit: nat, runs: seq<EvmRun>,
    e: ProcessError)
  {
    match e
    case EngineError => !Classified(txs, isPoSA, kind)
    case NormalTxAfterSystemTx(i) => b.rules.cancun && Misplaced(txs, isPoSA, kind, i)
    case ApplyError(i, error) =>
      && i < |txs| && !IsSystem(isPoSA, kind, txs[i]) && |txs[i].data| < U64
      && var before := Select(txs[..i], isPoSA, kind, false);
      && |before| == |runs| && Accepted(b, before, runs, a0, gasLimit)
      && NextVerdict(b, before, runs, a0, gasLimit, txs[i]) == Some(error)
  }

  /** An ordinary transaction with a system transaction somewhere before it. */
  ghost predicate Misplaced(txs: seq<Tx>, isPoSA: bool, kind: Classifier, i: nat) {
    && i < |txs| && !IsSystem(isPoSA, kind, txs[i])
    && exists j :: 0 <= j < i && IsSystem(isPoSA, kind, txs[j])
  }

  lemma {:induction false} SelectedIsThere(txs: seq<Tx>, i: nat, isPoSA: bool, kind: Classifier)
    requires i <= |txs| && Select(txs[..i], isPoSA, kind, true) != []
    ensures exists j :: 0 <= j < i && IsSystem(isPoSA, kind, txs[j])
  {
    if !IsSystem(isPoSA, kind, txs[i - 1]) {
      assert txs[..i][..i - 1] == txs[..i - 1];
      SelectedIsThere(txs, i - 1, isPoSA, kind);
    }
  }
}
