/** core/state_transition.go: the checks on a message, the amounts it pays, and what
    settling them does to the supply. */
module Fees {
  import opened Balances
  import opened Intrinsics
  import opened Options

  const BLOB_TX_BLOB_GAS_PER_BLOB: nat := 0x2_0000
  const REFUND_QUOTIENT: nat := 2
  const REFUND_QUOTIENT_EIP3529: nat := 5
  const MAX_INIT_CODE_SIZE: nat := 49152

  datatype Error =
    | NonceTooHigh | NonceTooLow | NonceMax | SenderNoEOA
    | FeeCapVeryHigh | TipVeryHigh | TipAboveFeeCap | FeeCapTooLow
    | BlobTxCreate | MissingBlobHashes | InvalidBlobHash | BlobFeeCapTooLow
    | InsufficientFunds | GasLimitReached | Blacklisted
    | GasUintOverflow | IntrinsicGasTooLow | MaxInitCodeSizeExceeded

  /** Fork flags and engine, with later forks implying London as in the config. */
  datatype Rules = Rules(
    homestead: bool, istanbul: bool, london: bool, shanghai: bool, cancun: bool, nano: bool, parlia: bool,
    noBaseFee: bool)

  ghost predicate RulesOk(r: Rules) {
    (r.shanghai ==> r.london) && (r.cancun ==> r.london)
  }

  datatype Block = Block(
    rules: Rules, baseFee: nat, blobBaseFee: nat, coinbase: Addr, systemAddress: Addr,
    systemContracts: set<Addr>, blackList: set<Addr>)

  /** A transaction as its sender signed it; blobHashes holds, per blob hash, whether
      its version is valid. */
  datatype Tx = Tx(
    nonce: nat, from: Addr, to: Option<Addr>, value: nat, gasLimit: nat, feeCap: nat, tipCap: nat,
    data: seq<Byte>, accessList: Option<AccessList>, blobHashes: Option<seq<bool>>, blobFeeCap: nat)

  datatype Message = Message(tx: Tx, gasPrice: nat, skipAccountChecks: bool)

  function Min(a: int, b: int): int {
    if a < b then a else b
  }

  /** TransactionToMessage: with a base fee the price is the effective one. */
  function TransactionToMessage(tx: Tx, baseFee: Option<nat>): Message {
    Message(tx, if baseFee.Some? then Min(tx.tipCap + baseFee.value, tx.feeCap) else tx.feeCap, false)
  }

  function BlobGasUsed(tx: Tx): nat {
    if tx.blobHashes.Some? then |tx.blobHashes.value| * BLOB_TX_BLOB_GAS_PER_BLOB else 0
  }

  // ---------------------------------------------------------------- checks before buying

  predicate SystemExempt(b: Block, m: Message) {
    m.tx.to.Some? && m.tx.to.value in b.systemContracts && m.tx.from == b.coinbase && m.gasPrice == 0
  }

  /** preCheck up to the purchase; nonce and code are the sender's. */
  function PreCheck(b: Block, m: Message, nonce: nat, hasCode: bool): Option<Error> {
    var tx, r := m.tx, b.rules;
    if !m.skipAccountChecks && nonce < tx.nonce then Some(NonceTooHigh)
    else if !m.skipAccountChecks && nonce > tx.nonce then Some(NonceTooLow)
    else if !m.skipAccountChecks && nonce == MAX_UINT64 then Some(NonceMax)
    else if !m.skipAccountChecks && hasCode then Some(SenderNoEOA)
    else
      var fees := FeeCheck(b, m);
      if fees.Some? then fees else BlobCheck(b, m)
  }

  function FeeCheck(b: Block, m: Message): Option<Error> {
    var tx, r := m.tx, b.rules;
    if !r.london || (r.noBaseFee && tx.feeCap == 0 && tx.tipCap == 0) then None
    else if tx.feeCap >= U256 then Some(FeeCapVeryHigh)
    else if tx.tipCap >= U256 then Some(TipVeryHigh)
    else if tx.feeCap < tx.tipCap then Some(TipAboveFeeCap)
    else if !SystemExempt(b, m) && tx.feeCap < b.baseFee then Some(FeeCapTooLow)
    else None
  }

  function BlobCheck(b: Block, m: Message): Option<Error> {
    var tx, r := m.tx, b.rules;
    if tx.blobHashes.Some? && tx.to.None? then Some(BlobTxCreate)
    else if tx.blobHashes.Some? && |tx.blobHashes.value| == 0 then Some(MissingBlobHashes)
    else if tx.blobHashes.Some? && false in tx.blobHashes.value then Some(InvalidBlobHash)
    else if r.cancun && BlobGasUsed(tx) > 0 && !(r.noBaseFee && tx.blobFeeCap == 0) && tx.blobFeeCap < b.blobBaseFee
    then Some(BlobFeeCapTooLow)
    else None
  }

  // ---------------------------------------------------------------- the amounts

  function BlobFee(b: Block, tx: Tx, price: nat): nat {
    if b.rules.cancun then BlobGasUsed(tx) * price else 0
  }

  /** balanceCheck: what the sender must own; and mgval: what is taken up front. */
  function Required(b: Block, m: Message): nat {
    m.tx.gasLimit * m.tx.feeCap + m.tx.value + BlobFee(b, m.tx, m.tx.blobFeeCap)
  }

  function Deposit(b: Block, m: Message): nat {
    m.tx.gasLimit * m.gasPrice + BlobFee(b, m.tx, b.blobBaseFee)
  }

  // uint256.FromBig keeps the low 256 bits.
  function EffectiveTip(b: Block, m: Message): nat {
    Wrap(if b.rules.london then Min(m.tx.tipCap, m.tx.feeCap - b.baseFee) else m.gasPrice)
  }

  /** vm.NewEVM: without base fees, those of a message that names no price are zero. */
  function NewContext(b: Block, m: Message): Block {
    b.(baseFee := if b.rules.noBaseFee && m.gasPrice == 0 then 0 else b.baseFee,
       blobBaseFee := if b.rules.noBaseFee && m.tx.blobFeeCap == 0 then 0 else b.blobBaseFee)
  }

  function BaseFee(b: Block): Option<nat> {
    if b.rules.london then Some(b.baseFee) else None
  }

  /** The message is priced for this block, which is a context of the EVM. Before London
      the source does not check the fee cap, so a message without gas must not name one
      beyond 256 bits. */
  ghost predicate Ordinary(b: Block, m: Message) {
    && RulesOk(b.rules) && (b.rules.noBaseFee ==> b == NewContext(b, m))
    && m.gasPrice == TransactionToMessage(m.tx, BaseFee(b)).gasPrice
    && m.tx.gasLimit < U64 && |m.tx.data| < U64
    && (b.rules.london || m.tx.feeCap < U256 || m.tx.gasLimit > 0)
  }

  /** A message priced for a block is priced for the context made of it, too. */
  lemma ContextIsOrdinary(b: Block, m: Message)
    requires RulesOk(b.rules) && m.gasPrice == TransactionToMessage(m.tx, BaseFee(b)).gasPrice
    requires m.tx.gasLimit < U64 && |m.tx.data| < U64
    requires b.rules.london || m.tx.feeCap < U256 || m.tx.gasLimit > 0
    ensures Ordinary(NewContext(b, m), m)
  {
  }

  /** The fee cap does not pay the base fee. */
  predicate Underpriced(b: Block, m: Message) {
    b.rules.london && m.tx.feeCap < b.baseFee
  }

  /** Only a free message of the coinbase to a system contract gets through so. */
  lemma UnderpricedIsFree(b: Block, m: Message)
    requires Ordinary(b, m) && FeeCheck(b, m).None? && Underpriced(b, m)
    ensures SystemExempt(b, m) && m.tx.feeCap == m.tx.tipCap == m.gasPrice == 0
  {
  }

  lemma MulLe(a: nat, b: nat, c: nat)
    requires b <= c
    ensures a * b <= a * c
  {
    assert a * c == a * b + a * (c - b);
    NonNegative(a, c - b);
  }

  /** After the checks the deposit and the value are covered by what was required. */
  lemma DepositCovered(b: Block, m: Message)
    requires Ordinary(b, m) && FeeCheck(b, m).None? && BlobCheck(b, m).None?
    ensures Deposit(b, m) + m.tx.value <= Required(b, m)
  {
    MulLe(m.tx.gasLimit, m.gasPrice, m.tx.feeCap);
    if b.rules.cancun && BlobGasUsed(m.tx) > 0 {
      MulLe(BlobGasUsed(m.tx), b.blobBaseFee, m.tx.blobFeeCap);
    }
  }

  /** What is required fits 256 bits only if the price does. */
  lemma PriceFits(b: Block, m: Message)
    requires Ordinary(b, m) && FeeCheck(b, m).None? && Required(b, m) < U256
    ensures m.gasPrice < U256
  {
    if m.tx.gasLimit > 0 {
      assert m.tx.gasLimit * m.tx.feeCap == m.tx.feeCap + (m.tx.gasLimit - 1) * m.tx.feeCap;
      NonNegative(m.tx.gasLimit - 1, m.tx.feeCap);
    }
  }

  /** The identity the fee accounting rests on: price less tip is the base fee, if and
      only if the fee cap pays the base fee. */
  lemma PriceSplits(b: Block, m: Message)
    requires Ordinary(b, m) && FeeCheck(b, m).None? && m.gasPrice < U256
    ensures EffectiveTip(b, m) + (if b.rules.london then b.baseFee else 0) == m.gasPrice <==> !Underpriced(b, m)
  {
  }

  /** Gas bought at one price is gas used at tip and base fee plus gas returned. */
  lemma GasSplits(limit: nat, used: nat, price: nat, tip: nat, base: nat)
    requires used <= limit && price == tip + base
    ensures limit * price == (limit - used) * price + used * tip + used * base
    ensures (limit - used) * price <= limit * price && used * tip <= limit * price
  {
    assert limit * price == (limit - used) * price + used * price;
    assert used * price == used * tip + used * base;
  }

  // ---------------------------------------------------------------- settling

  /** Who receives the fees. */
  function Payee(b: Block): Addr {
    if b.rules.parlia then b.systemAddress else b.coinbase
  }

  /** What leaves the supply with one message: the base fee of the gas used and, where
      no system address collects it, the blob fee. */
  function Burned(b: Block, m: Message, used: nat): nat {
    (if b.rules.london then used * b.baseFee else 0) + if b.rules.parlia then 0 else BlobFee(b, m.tx, b.blobBaseFee)
  }

  /** The sender gets back unused gas at the price paid; the fee goes to the payee. */
  function SettledAt(b: Block, m: Message, used: nat, tip: nat, book: Book): Book
    requires used <= m.tx.gasLimit
  {
    var back := AddBalance(book, m.tx.from, (m.tx.gasLimit - used) * m.gasPrice);
    var paid := AddBalance(back, Payee(b), used * tip);
    if b.rules.parlia && b.rules.cancun then AddBalance(paid, Payee(b), BlobFee(b, m.tx, b.blobBaseFee)) else paid
  }

  /** Settling adds the whole deposit back to the supply, less what is burned; no
      product in it wraps. */
  lemma SettledTotal(b: Block, m: Message, used: nat, tip: nat, book: Book)
    requires used <= m.tx.gasLimit && m.gasPrice == tip + (if b.rules.london then b.baseFee else 0)
    requires Total(book) + Deposit(b, m) < U256
    ensures Total(SettledAt(b, m, used, tip, book)) + Burned(b, m, used) == Total(book) + Deposit(b, m)
    ensures (m.tx.gasLimit - used) * m.gasPrice < U256 && used * tip < U256
  {
    var base: nat := if b.rules.london then b.baseFee else 0;
    var back, fee, burned := Products(m.tx.gasLimit, used, m.gasPrice, tip, base);
    Paid(book, m.tx.from, Payee(b), back, fee, BlobFee(b, m.tx, b.blobBaseFee));
  }

  /** The three products of a settlement, and that they make up the purchase. */
  lemma Products(limit: nat, used: nat, price: nat, tip: nat, base: nat) returns (back: nat, fee: nat, burned: nat)
    requires used <= limit && price == tip + base
    ensures back == (limit - used) * price && fee == used * tip && burned == used * base
    ensures limit * price == back + fee + burned
  {
    NonNegative(limit - used, price);
    NonNegative(used, tip);
    NonNegative(used, base);
    back, fee, burned := (limit - used) * price, used * tip, used * base;
    GasSplits(limit, used, price, tip, base);
  }

  lemma Paid(book: Book, from: Addr, payee: Addr, back: nat, fee: nat, blobFee: nat)
    requires Total(book) + back + fee + blobFee < U256
    ensures var paid := AddBalance(AddBalance(book, from, back), payee, fee);
            && Total(paid) == Total(book) + back + fee
            && Total(AddBalance(paid, payee, blobFee)) == Total(book) + back + fee + blobFee
  {
    AddMovesTotal(book, from, back);
    AddMovesTotal(AddBalance(book, from, back), payee, fee);
    AddMovesTotal(AddBalance(AddBalance(book, from, back), payee, fee), payee, blobFee);
  }

  /** The refund: the counter, but at most the given fraction of the gas used. */
  function CappedRefund(used: nat, quotient: nat, counter: nat): (refund: nat)
    requires quotient > 0
    ensures refund <= counter && refund * quotient <= used && refund <= used
    ensures refund < counter ==> (refund + 1) * quotient > used
  {
    var cap := used / quotient;
    CapFacts(used, quotient);
    var refund := if cap > counter then counter else cap;
    MulMonotone(refund, cap, quotient);
    refund
  }

  lemma CapFacts(used: nat, quotient: nat)
    requires quotient > 0
    ensures 0 <= used / quotient <= used && used / quotient * quotient <= used < (used / quotient + 1) * quotient
  {
    var cap := used / quotient;
    assert used == cap * quotient + used % quotient;
    MulLe(cap, 1, quotient);
    assert (cap + 1) * quotient == cap * quotient + quotient;
  }

  /** An amount of gas at a price, as the 256-bit product the source computes. */
  function Worth(gas: nat, price: nat): nat {
    Wrap(gas * price)
  }

  /** The settlement as the source computes it, in 256-bit words throughout. */
  function SettledWords(b: Block, m: Message, remaining: nat, used: nat, book: Book): Book {
    var back := AddBalance(book, m.tx.from, Worth(remaining, m.gasPrice));
    var paid := AddBalance(back, Payee(b), Worth(used, EffectiveTip(b, m)));
    if b.rules.parlia && b.rules.cancun then AddBalance(paid, Payee(b), Wrap(BlobFee(b, m.tx, b.blobBaseFee)))
    else paid
  }

  /** Its conversions make no difference. */
  lemma WordsAreExact(b: Block, m: Message, used: nat, book: Book)
    requires used <= m.tx.gasLimit
    ensures SettledWords(b, m, m.tx.gasLimit - used, used, book) == SettledAt(b, m, used, EffectiveTip(b, m), book)
  {
    var tip, remaining := EffectiveTip(b, m), m.tx.gasLimit - used;
    NonNegative(remaining, m.gasPrice);
    NonNegative(used, tip);
    AddWrapped(book, m.tx.from, remaining * m.gasPrice);
    var back := AddBalance(book, m.tx.from, remaining * m.gasPrice);
    AddWrapped(back, Payee(b), used * tip);
    AddWrapped(AddBalance(back, Payee(b), used * tip), Payee(b), BlobFee(b, m.tx, b.blobBaseFee));
  }

  /** The wrapped tip of an underpriced message takes the base fee from the payee: what
      it owns, with the blob fee it is paid, must cover it. */
  ghost predicate Covered(b: Block, m: Message, used: nat, book: Book) {
    Underpriced(b, m) ==>
      used * b.baseFee <= Bal(book, Payee(b)) + if b.rules.parlia then BlobFee(b, m.tx, b.blobBaseFee) else 0
  }

  lemma UnderpricedTip(b: Block, m: Message)
    requires Ordinary(b, m) && FeeCheck(b, m).None? && Underpriced(b, m)
    ensures EffectiveTip(b, m) == Wrap(-(b.baseFee as int))
  {
    UnderpricedIsFree(b, m);
  }

  lemma FreeSettles(b: Block, m: Message, used: nat, tip: nat, book: Book, fee: nat)
    requires m.gasPrice == 0 && used <= m.tx.gasLimit && fee == used * tip
    ensures var paid := AddBalance(AddBalance(book, m.tx.from, 0), Payee(b), fee);
            SettledAt(b, m, used, tip, book) ==
            if b.rules.parlia && b.rules.cancun then AddBalance(paid, Payee(b), BlobFee(b, m.tx, b.blobBaseFee))
            else paid
  {
    assert (m.tx.gasLimit - used) * m.gasPrice == 0;
  }

  /** b is a except that one account holds v. */
  ghost predicate OnlyAt(a: Book, b: Book, account: Addr, v: nat) {
    forall x: Addr :: Bal(b, x) == if x == account then v else Bal(a, x)
  }

  lemma FreeTotal(book: Book, from: Addr, payee: Addr, fee: nat, owed: nat, blob: nat)
    requires Total(book) < U256 && Wrap(fee) == Wrap(-(owed as int))
    ensures var paid, bal := AddBalance(AddBalance(book, from, 0), payee, fee), Bal(book, payee);
            && Total(paid) == Total(book) - bal + Wrap(bal - owed)
            && Total(AddBalance(paid, payee, blob)) == Total(book) - bal + Wrap(bal - owed + blob)
            && OnlyAt(book, paid, payee, Wrap(bal - owed))
            && OnlyAt(book, AddBalance(paid, payee, blob), payee, Wrap(bal - owed + blob))
  {
    AddMovesTotal(book, from, 0);
    BalBound(book, payee);
    AddNegativeThen(AddBalance(book, from, 0), payee, fee, owed, blob);
  }

  /** An underpriced message takes the base fee from the payee, in 256-bit words, and
      leaves every other account as it was. */
  lemma UnderpricedPayee(b: Block, m: Message, used: nat, book: Book, owed: nat)
    requires Ordinary(b, m) && FeeCheck(b, m).None? && Underpriced(b, m) && used <= m.tx.gasLimit
    requires Total(book) < U256 && owed == used * b.baseFee
    ensures var blob: int := if b.rules.parlia then BlobFee(b, m.tx, b.blobBaseFee) else 0;
            var settled := SettledAt(b, m, used, EffectiveTip(b, m), book);
            var left := Wrap(Bal(book, Payee(b)) - owed + blob);
            && OnlyAt(book, settled, Payee(b), left)
            && Total(settled) == Total(book) - Bal(book, Payee(b)) + left
  {
    UnderpricedIsFree(b, m);
    UnderpricedTip(b, m);
    WrapNegated(used, b.baseFee);
    var fee: nat := used * EffectiveTip(b, m);
    FreeSettles(b, m, used, EffectiveTip(b, m), book, fee);
    FreeTotal(book, m.tx.from, Payee(b), fee, owed, BlobFee(b, m.tx, b.blobBaseFee));
  }

  /** A free message of the coinbase, account 1, to a system contract, account 3, in a
      block with base fee 1 whose system address, account 2, owns nothing. */
  lemma UncoveredExample(b: Block, m: Message)
    requires b.rules == Rules(true, true, true, false, false, false, true, false) && b.baseFee == 1
    requires b.coinbase == 1 && b.systemAddress == 2 && b.systemContracts == {3}
    requires m == TransactionToMessage(Tx(0, 1, Some(3), 0, 21000, 0, 0, [], None, None, 0), Some(1))
    ensures Ordinary(b, m) && FeeCheck(b, m).None? && !Covered(b, m, 21000, map[])
    ensures Bal(SettledAt(b, m, 21000, EffectiveTip(b, m), map[]), 2) == U256 - 21000
  {
    UnderpricedPayee(b, m, 21000, map[], 21000);
  }

  /** A message changes the supply by what is burned, and nothing else, if and only if an
      underpriced one finds its base fee with the payee. */
  lemma SettlementSupply(b: Block, m: Message, used: nat, book: Book)
    requires Ordinary(b, m) && FeeCheck(b, m).None? && m.gasPrice < U256 && used <= m.tx.gasLimit
    requires Total(book) + Deposit(b, m) < U256
    ensures Total(SettledAt(b, m, used, EffectiveTip(b, m), book)) + Burned(b, m, used) == Total(book) + Deposit(b, m)
            <==> Covered(b, m, used, book)
  {
    PriceSplits(b, m);
    if Underpriced(b, m) {
      UnderpricedIsFree(b, m);
      NonNegative(used, b.baseFee);
      UnderpricedPayee(b, m, used, book, used * b.baseFee);
      BalBound(book, Payee(b));
      assert m.tx.gasLimit * m.gasPrice == 0;
    } else {
      SettledTotal(b, m, used, EffectiveTip(b, m), book);
    }
  }
}
