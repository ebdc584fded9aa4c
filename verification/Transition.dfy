/** core/state_transition.go and core/gaspool.go: buying gas, running a message,
    refunding what is left and paying the fee. */
module Transitions {
  import opened Balances
  import opened Fees
  import opened Intrinsics
  import opened Options

  // ---------------------------------------------------------------- gas pool

  class GasPool {
    var gas: nat

    constructor (amount: nat)
      requires amount < U64
      ensures gas == amount
    {
      gas := amount;
    }

    /** AddGas panics if the pool would not fit 64 bits. */
    method AddGas(amount: nat) returns (panicked: bool)
      modifies this
      ensures panicked <==> old(gas) + amount >= U64
      ensures gas == if panicked then old(gas) else old(gas) + amount
    {
      if gas > MAX_UINT64 - amount {
        return true;
      }
      gas := gas + amount;
      return false;
    }

    method SubGas(amount: nat) returns (ok: bool)
      modifies this
      ensures ok <==> amount <= old(gas)
      ensures gas == if ok then old(gas) - amount else old(gas)
    {
      if gas < amount {
        return false;
      }
      gas := gas - amount;
      return true;
    }
  }

  // ---------------------------------------------------------------- accounts and the EVM

  /** Balances, nonces, and the addresses that have code. */
  datatype Accounts = Accounts(balances: Book, nonces: map<Addr, nat>, contracts: set<Addr>)

  /** One run of the EVM: the gas given to it and left by it, the refund counter,
      whether it failed, and the accounts before and after. */
  datatype EvmRun = EvmRun(
    given: nat, left: nat, refundCounter: nat, failed: bool, before: Accounts, after: Accounts)

  class StateDb {
    var balances: Book
    var nonces: map<Addr, nat>
    var contracts: set<Addr>
    ghost var runs: seq<EvmRun>

    constructor (balances: Book, nonces: map<Addr, nat>, contracts: set<Addr>)
      ensures Value() == Accounts(balances, nonces, contracts) && runs == []
    {
      this.balances, this.nonces, this.contracts := balances, nonces, contracts;
      runs := [];
    }

    ghost function Value(): Accounts
      reads this
    {
      Accounts(balances, nonces, contracts)
    }

    /** evm.Call or evm.Create, of which only this is known: no more gas comes back than
        was given, and the supply, with the deposit still held back, keeps fitting 256
        bits. Accounts may change in any way, and so may the refund counter. */
    method RunEvm(gas: nat, ghost held: nat) returns (left: nat, refundCounter: nat, failed: bool)
      requires Total(balances) + held < U256
      modifies this
      ensures left <= gas && Total(balances) + held < U256
      ensures runs == old(runs) + [EvmRun(gas, left, refundCounter, failed, old(Value()), Value())]
    {
      left, refundCounter, failed := gas, 0, false;
      runs := runs + [EvmRun(gas, left, refundCounter, failed, Value(), Value())];
    }
  }

  /** usedGas and refundedGas, or the error that makes the message unacceptable.
      Panicked: the gas pool or the conversion of the price did. */
  datatype Outcome = Done(usedGas: nat, refundedGas: nat, vmFailed: bool) | Failed(error: Error) | Panicked

  // ---------------------------------------------------------------- what a transition promises

  /** preCheck against the sender's account. */
  function Checked(b: Block, m: Message, a: Accounts): Option<Error> {
    var nonce := if m.tx.from in a.nonces then a.nonces[m.tx.from] else 0;
    PreCheck(b, m, nonce, m.tx.from in a.contracts)
  }

  /** Why the purchase is refused: the checks, then the sender's funds, then the pool. */
  function Refused(b: Block, m: Message, a: Accounts, pool: int): Option<Error> {
    var e := Checked(b, m, a);
    if e.Some? then e
    else if Required(b, m) >= U256 || Bal(a.balances, m.tx.from) < Required(b, m) then Some(InsufficientFunds)
    else if pool < m.tx.gasLimit then Some(GasLimitReached)
    else None
  }

  ghost function IntrinsicOf(b: Block, m: Message): Option<nat>
    requires |m.tx.data| < U64
  {
    Intrinsic(m.tx.data, m.tx.accessList, m.tx.to.None?, b.rules.homestead, b.rules.istanbul, b.rules.shanghai)
  }

  /** Why a message that was paid for is not run. */
  ghost function Barred(b: Block, m: Message): Option<Error>
    requires |m.tx.data| < U64
  {
    var gas := IntrinsicOf(b, m);
    if b.rules.nano && (m.tx.from in b.blackList || (m.tx.to.Some? && m.tx.to.value in b.blackList))
    then Some(Blacklisted)
    else if gas.None? then Some(GasUintOverflow)
    else if m.tx.gasLimit < gas.value then Some(IntrinsicGasTooLow)
    else if b.rules.shanghai && m.tx.to.None? && |m.tx.data| > MAX_INIT_CODE_SIZE then Some(MaxInitCodeSizeExceeded)
    else None
  }

  ghost function Verdict(b: Block, m: Message, a: Accounts, pool: int): Option<Error>
    requires |m.tx.data| < U64
  {
    if Refused(b, m, a, pool).Some? then Refused(b, m, a, pool) else Barred(b, m)
  }

  /** A call bumps the sender's nonce; a creation leaves that to the EVM. */
  ghost function Bumped(m: Message, nonces: map<Addr, nat>): map<Addr, nat> {
    if m.tx.to.None? then nonces
    else nonces[m.tx.from := (if m.tx.from in nonces then nonces[m.tx.from] else 0) + 1]
  }

  function Quotient(b: Block): (q: nat)
    ensures q > 0
  {
    if b.rules.london then REFUND_QUOTIENT_EIP3529 else REFUND_QUOTIENT
  }

  /** The gas a run of the EVM uses up, after the refund. */
  function UsedBy(b: Block, m: Message, run: EvmRun): (used: nat)
    ensures used <= m.tx.gasLimit
  {
    if run.left > m.tx.gasLimit then 0
    else m.tx.gasLimit - run.left - CappedRefund(m.tx.gasLimit - run.left, Quotient(b), run.refundCounter)
  }

  /** The accounts the EVM starts from: the deposit taken, the nonce bumped. */
  ghost function Started(b: Block, m: Message, a: Accounts): Accounts {
    a.(balances := SubBalance(a.balances, m.tx.from, Deposit(b, m)), nonces := Bumped(m, a.nonces))
  }

  /** The run of the EVM that the message makes from these accounts. */
  ghost predicate Ran(b: Block, m: Message, a: Accounts, run: EvmRun)
    requires |m.tx.data| < U64
  {
    && IntrinsicOf(b, m).Some? && run.given == m.tx.gasLimit - IntrinsicOf(b, m).value && run.left <= run.given
    && run.before == Started(b, m, a)
  }

  /** The accounts after the message: those the EVM left, with the fees settled. */
  ghost function After(b: Block, m: Message, run: EvmRun): Accounts {
    run.after.(balances := SettledAt(b, m, UsedBy(b, m, run), EffectiveTip(b, m), run.after.balances))
  }

  /** The outcome against the EVM's run. */
  ghost predicate Reports(b: Block, m: Message, r: Outcome, run: EvmRun) {
    && r.Done? && r.vmFailed == run.failed && run.left <= m.tx.gasLimit && r.usedGas == UsedBy(b, m, run)
    && r.refundedGas == CappedRefund(m.tx.gasLimit - run.left, Quotient(b), run.refundCounter)
  }

  /** The supply moves by what is burned, with the deposit paid back. */
  ghost predicate Conserves(b: Block, m: Message, used: nat, book: Book, after: Book) {
    Total(after) + Burned(b, m, used) == Total(book) + Deposit(b, m)
  }

  /** From before to after the supply moves by what the EVM's run did, less what is
      burned. */
  ghost predicate Moves(b: Block, m: Message, used: nat, before: Book, after: Book, run: EvmRun) {
    Total(after) + Burned(b, m, used) - Total(before) == Total(run.after.balances) - Total(run.before.balances)
  }

  lemma Settles(b: Block, m: Message, run: EvmRun, refund: nat, used: nat, after: Book)
    requires Ordinary(b, m) && FeeCheck(b, m).None? && m.gasPrice < U256
    requires Total(run.after.balances) + Deposit(b, m) < U256 && run.left <= run.given <= m.tx.gasLimit
    requires refund == CappedRefund(m.tx.gasLimit - run.left, Quotient(b), run.refundCounter)
    requires used == m.tx.gasLimit - run.left - refund
    requires after == SettledWords(b, m, run.left + refund, used, run.after.balances)
    ensures Reports(b, m, Done(used, refund, run.failed), run) && run.after.(balances := after) == After(b, m, run)
    ensures Conserves(b, m, used, run.after.balances, after) <==> Covered(b, m, used, run.after.balances)
  {
    WordsAreExact(b, m, used, run.after.balances);
    assert m.tx.gasLimit - used == run.left + refund;
    SettlementSupply(b, m, used, run.after.balances);
  }

  class StateTransition {
    const gp: GasPool
    const state: StateDb
    const msg: Message
    const block: Block
    var gasRemaining: nat
    var initialGas: nat

    constructor (gp: GasPool, state: StateDb, msg: Message, block: Block)
      ensures this.gp == gp && this.state == state && this.msg == msg && this.block == block
      ensures gasRemaining == initialGas == 0
    {
      this.gp, this.state, this.msg, this.block := gp, state, msg, block;
      gasRemaining, initialGas := 0, 0;
    }

    /** buyGas. */
    method BuyGas() returns (err: Option<Error>)
      requires gasRemaining == 0
      modifies this, gp, state`balances
      ensures err == Some(InsufficientFunds) <==>
              Required(block, msg) >= U256 || Bal(old(state.balances), msg.tx.from) < Required(block, msg)
      ensures err.Some? ==> err.value in {InsufficientFunds, GasLimitReached} &&
                            gp.gas == old(gp.gas) && state.balances == old(state.balances)
      ensures err == Some(GasLimitReached) ==> old(gp.gas) < msg.tx.gasLimit
      ensures err.None? ==> msg.tx.gasLimit <= old(gp.gas) && gp.gas == old(gp.gas) - msg.tx.gasLimit
      ensures err.None? ==> gasRemaining == initialGas == msg.tx.gasLimit
      ensures err.None? ==> state.balances == SubBalance(old(state.balances), msg.tx.from, Wrap(Deposit(block, msg)))
    {
      var balanceCheck := Required(block, msg);
      if balanceCheck >= U256 {
        return Some(InsufficientFunds);
      }
      if Bal(state.balances, msg.tx.from) < balanceCheck {
        return Some(InsufficientFunds);
      }
      var ok := gp.SubGas(msg.tx.gasLimit);
      if !ok {
        return Some(GasLimitReached);
      }
      gasRemaining := gasRemaining + msg.tx.gasLimit;
      initialGas := msg.tx.gasLimit;
      state.balances := SubBalance(state.balances, msg.tx.from, Wrap(Deposit(block, msg)));
      return None;
    }

    /** preCheck and the purchase, for a message of this block: nothing underflows, and
        what the message transfers is still there. */
    method Purchase() returns (err: Option<Error>)
      requires Ordinary(block, msg) && gasRemaining == 0 && Total(state.balances) < U256
      modifies this, gp, state`balances
      ensures err.Some? ==> gp.gas == old(gp.gas) && state.balances == old(state.balances)
      ensures err == Refused(block, msg, old(state.Value()), old(gp.gas))
      ensures err.None? ==> FeeCheck(block, msg).None? && msg.gasPrice < U256
      ensures err.None? ==> msg.tx.gasLimit <= old(gp.gas) && gp.gas == old(gp.gas) - msg.tx.gasLimit
      ensures err.None? ==> gasRemaining == initialGas == msg.tx.gasLimit
      ensures err.None? ==> Total(state.balances) + Deposit(block, msg) == old(Total(state.balances))
      ensures err.None? ==> state.balances == SubBalance(old(state.balances), msg.tx.from, Deposit(block, msg))
      ensures err.None? ==> msg.tx.value <= Bal(state.balances, msg.tx.from) < U256
    {
      var nonce := if msg.tx.from in state.nonces then state.nonces[msg.tx.from] else 0;
      err := PreCheck(block, msg, nonce, msg.tx.from in state.contracts);
      if err.Some? {
        return;
      }
      DepositCovered(block, msg);
      ghost var book := state.balances;
      BalBound(book, msg.tx.from);
      err := BuyGas();
      if err.None? {
        PriceFits(block, msg);
        SubMovesTotal(book, msg.tx.from, Deposit(block, msg));
      }
    }

    /** refundGas: a quotient of the gas used caps the refund counter. It panics exactly if
        the price does not fit 256 bits or the pool 64. */
    method RefundGas(refundQuotient: nat, refundCounter: nat) returns (refund: nat, panicked: bool)
      requires refundQuotient > 0 && gasRemaining <= initialGas < U64
      modifies this`gasRemaining, gp, state`balances
      ensures old(gasRemaining) + refund == gasRemaining <= initialGas
      ensures refund == CappedRefund(initialGas - old(gasRemaining), refundQuotient, refundCounter)
      ensures panicked <==> msg.gasPrice >= U256 || old(gp.gas) + gasRemaining >= U64
      ensures msg.gasPrice >= U256 ==> state.balances == old(state.balances) && gp.gas == old(gp.gas)
      ensures msg.gasPrice < U256 ==>
              state.balances == AddBalance(old(state.balances), msg.tx.from, Worth(gasRemaining, msg.gasPrice))
      ensures !panicked ==> gp.gas == old(gp.gas) + gasRemaining
    {
      refund := CappedRefund(initialGas - gasRemaining, refundQuotient, refundCounter);
      gasRemaining := gasRemaining + refund;
      if msg.gasPrice >= U256 {
        return refund, true;
      }
      state.balances := AddBalance(state.balances, msg.tx.from, Worth(gasRemaining, msg.gasPrice));
      panicked := gp.AddGas(gasRemaining);
    }

    /** Pay the fee, and under Parlia the blob fee, to the payee. */
    method PayFees()
      requires gasRemaining <= initialGas
      modifies state`balances
      ensures var paid := AddBalance(old(state.balances), Payee(block),
                                     Worth(initialGas - gasRemaining, EffectiveTip(block, msg)));
              state.balances ==
              if block.rules.parlia && block.rules.cancun
              then AddBalance(paid, Payee(block), Wrap(BlobFee(block, msg.tx, block.blobBaseFee))) else paid
    {
      var effectiveTip := EffectiveTip(block, msg);
      var fee := Worth(initialGas - gasRemaining, effectiveTip);
      if block.rules.parlia {
        state.balances := AddBalance(state.balances, block.systemAddress, fee);
        if block.rules.cancun {
          var blobFee := Wrap(BlobGasUsed(msg.tx) * block.blobBaseFee);
          state.balances := AddBalance(state.balances, block.systemAddress, blobFee);
        }
      } else {
        state.balances := AddBalance(state.balances, block.coinbase, fee);
      }
    }

    /** The part after the EVM has run: refund, pool and fees. */
    method Settle(refundCounter: nat) returns (refund: nat, panicked: bool)
      requires gasRemaining <= initialGas && gp.gas + initialGas < U64 && msg.gasPrice < U256
      modifies this`gasRemaining, gp, state`balances
      ensures !panicked && gasRemaining <= initialGas && gp.gas == old(gp.gas) + gasRemaining
      ensures refund == CappedRefund(initialGas - old(gasRemaining), Quotient(block), refundCounter)
      ensures gasRemaining == old(gasRemaining) + refund
      ensures state.balances ==
              SettledWords(block, msg, gasRemaining, initialGas - gasRemaining, old(state.balances))
    {
      if !block.rules.london {
        refund, panicked := RefundGas(REFUND_QUOTIENT, refundCounter);
      } else {
        refund, panicked := RefundGas(REFUND_QUOTIENT_EIP3529, refundCounter);
      }
      PayFees();
    }

    /** TransitionDb, for a message of this block. It fails exactly when a clause does,
        before the purchase without a trace; otherwise the EVM runs once, on the gas left
        by the intrinsic cost. It never panics; it takes exactly the gas used from the
        pool; and it changes the supply by what the EVM did, less the burned fees, if and
        only if an underpriced message finds its base fee with the payee. */
    method TransitionDb() returns (r: Outcome)
      requires Ordinary(block, msg) && gasRemaining == 0 && Total(state.balances) < U256 && gp.gas < U64
      modifies this, gp, state
      ensures var e := Verdict(block, msg, old(state.Value()), old(gp.gas));
              if e.Some? then r == Failed(e.value) && state.runs == old(state.runs) else r.Done?
      ensures r.Failed? && Refused(block, msg, old(state.Value()), old(gp.gas)).Some? ==>
              gp.gas == old(gp.gas) && state.Value() == old(state.Value())
      ensures r.Failed? && Refused(block, msg, old(state.Value()), old(gp.gas)).None? ==>
              && gp.gas == old(gp.gas) - msg.tx.gasLimit
              && state.balances == SubBalance(old(state.balances), msg.tx.from, Deposit(block, msg))
      ensures r.Done? ==> |state.runs| > 0 && state.runs[..|state.runs| - 1] == old(state.runs)
      ensures r.Done? ==> Made(old(state.Value()), r)
      ensures r.Done? ==> r.usedGas <= msg.tx.gasLimit <= old(gp.gas) && gp.gas == old(gp.gas) - r.usedGas
      ensures r.Done? ==>
              var run := state.runs[|state.runs| - 1];
              (Moves(block, msg, r.usedGas, old(state.balances), state.balances, run) <==>
               Covered(block, msg, r.usedGas, run.after.balances))
      ensures r.Done? && Covered(block, msg, r.usedGas, state.runs[|state.runs| - 1].after.balances) ==>
              Total(state.balances) < U256
    {
      var err := Purchase();
      if err.Some? {
        return Failed(err.value);
      }
      var gas;
      err, gas := TakeIntrinsic();
      if err.Some? {
        return Failed(err.value);
      }
      r := Execute();
    }

    /** The last run of the EVM is the one made from these accounts, and accounts and
        outcome follow from it. */
    ghost predicate Made(a: Accounts, r: Outcome)
      requires |msg.tx.data| < U64
      reads state
    {
      && |state.runs| > 0
      && var run := state.runs[|state.runs| - 1];
      Ran(block, msg, a, run) && Reports(block, msg, r, run) && state.Value() == After(block, msg, run)
    }

    /** The clauses checked after the purchase. */
    method TakeIntrinsic() returns (err: Option<Error>, gas: nat)
      requires Ordinary(block, msg) && msg.tx.value <= Bal(state.balances, msg.tx.from) < U256
      requires gasRemaining == msg.tx.gasLimit
      modifies this`gasRemaining
      ensures err == Barred(block, msg)
      ensures err.None? ==> IntrinsicOf(block, msg) == Some(gas) && gas <= msg.tx.gasLimit
      ensures err.None? ==> gasRemaining == msg.tx.gasLimit - gas
    {
      gas := 0;
      var contractCreation := msg.tx.to.None?;
      if block.rules.nano &&
         (msg.tx.from in block.blackList || (!contractCreation && msg.tx.to.value in block.blackList)) {
        return Some(Blacklisted), gas;
      }
      var g := IntrinsicGas(msg.tx.data, msg.tx.accessList, contractCreation, block.rules.homestead,
                            block.rules.istanbul, block.rules.shanghai);
      if g.None? {
        return Some(GasUintOverflow), gas;
      }
      gas := g.value;
      if gasRemaining < gas {
        return Some(IntrinsicGasTooLow), gas;
      }
      gasRemaining := gasRemaining - gas;
      // Clause 6: neither of its two errors can occur.
      assert msg.tx.value < U256 && CanTransfer(state.balances, msg.tx.from, msg.tx.value);
      if block.rules.shanghai && contractCreation && |msg.tx.data| > MAX_INIT_CODE_SIZE {
        return Some(MaxInitCodeSizeExceeded), gas;
      }
      return None, gas;
    }

    method BumpNonce()
      modifies state`nonces
      ensures state.nonces == Bumped(msg, old(state.nonces))
    {
      if msg.tx.to.Some? {
        var nonce := if msg.tx.from in state.nonces then state.nonces[msg.tx.from] else 0;
        state.nonces := state.nonces[msg.tx.from := nonce + 1];
      }
    }

    /** Run the message and settle. */
    method Execute() returns (r: Outcome)
      requires Ordinary(block, msg) && FeeCheck(block, msg).None? && Total(state.balances) + Deposit(block, msg) < U256
      requires gasRemaining <= initialGas == msg.tx.gasLimit && gp.gas + initialGas < U64 && msg.gasPrice < U256
      modifies this, gp, state
      ensures |state.runs| == |old(state.runs)| + 1 && state.runs[..|old(state.runs)|] == old(state.runs)
      ensures var run := state.runs[|old(state.runs)|];
              && run.given == old(gasRemaining) && run.left <= run.given
              && run.before == old(state.Value()).(nonces := Bumped(msg, old(state.nonces)))
              && Reports(block, msg, r, run) && state.Value() == After(block, msg, run)
              && gp.gas == old(gp.gas) + (msg.tx.gasLimit - r.usedGas)
              && Total(run.after.balances) + Deposit(block, msg) < U256
              && (Conserves(block, msg, r.usedGas, run.after.balances, state.balances) <==>
                  Covered(block, msg, r.usedGas, run.after.balances))
    {
      BumpNonce();
      var refundCounter, failed;
      gasRemaining, refundCounter, failed := state.RunEvm(gasRemaining, Deposit(block, msg));
      ghost var run := state.runs[|state.runs| - 1];
      var refund, panicked := Settle(refundCounter);
      Settles(block, msg, run, refund, initialGas - gasRemaining, state.balances);
      assert state.Value() == run.after.(balances := state.balances);
      r := Done(initialGas - gasRemaining, refund, failed);
    }
  }
}
