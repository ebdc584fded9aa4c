/** core/state_transition.go: the intrinsic gas of a message, with its 64-bit
    overflow checks. */
module Intrinsics {
  import opened Balances
  import opened Options

  const TX_GAS: nat := 21000
  const TX_GAS_CONTRACT_CREATION: nat := 53000
  const TX_DATA_ZERO_GAS: nat := 4
  const TX_DATA_NON_ZERO_GAS_FRONTIER: nat := 68
  const TX_DATA_NON_ZERO_GAS_EIP2028: nat := 16
  const INIT_CODE_WORD_GAS: nat := 2
  const TX_ACCESS_LIST_ADDRESS_GAS: nat := 2400
  const TX_ACCESS_LIST_STORAGE_KEY_GAS: nat := 1900
  const MAX_UINT64: nat := U64 - 1

  type Byte = b: nat | b < 256

  datatype AccessList = AccessList(addresses: nat, storageKeys: nat)

  ghost function NonZeros(data: seq<Byte>): nat {
    if data == [] then 0 else NonZeros(data[..|data| - 1]) + if data[|data| - 1] != 0 then 1 else 0
  }

  lemma {:induction false} NonZerosBound(data: seq<Byte>)
    ensures NonZeros(data) <= |data|
  {
    if data != [] {
      NonZerosBound(data[..|data| - 1]);
    }
  }

  /** ceil(size / 32), also where size + 31 would not fit 64 bits. */
  function ToWordSize(size: nat): (words: nat)
    requires size < U64
    ensures 32 * words >= size && (words > 0 ==> 32 * (words - 1) < size)
  {
    if size > MAX_UINT64 - 31 then MAX_UINT64 / 32 + 1 else (size + 31) / 32
  }

  function NonZeroGas(isEIP2028: bool): nat {
    if isEIP2028 then TX_DATA_NON_ZERO_GAS_EIP2028 else TX_DATA_NON_ZERO_GAS_FRONTIER
  }

  /** What data costs, in unbounded arithmetic. */
  ghost function DataGas(data: seq<Byte>, creation: bool, isHomestead: bool, isEIP2028: bool, isEIP3860: bool): nat
    requires |data| < U64
  {
    NonZerosBound(data);
    NonNegative(NonZeros(data), NonZeroGas(isEIP2028));
    (if creation && isHomestead then TX_GAS_CONTRACT_CREATION else TX_GAS)
    + NonZeros(data) * NonZeroGas(isEIP2028)
    + (|data| - NonZeros(data)) * TX_DATA_ZERO_GAS
    + if creation && isEIP3860 then ToWordSize(|data|) * INIT_CODE_WORD_GAS else 0
  }

  /** The division-based guard detects exactly the sums that do not fit. */
  lemma GuardIsExact(gas: nat, price: nat, n: nat)
    requires gas <= MAX_UINT64 && price > 0
    ensures (MAX_UINT64 - gas) / price < n <==> gas + n * price > MAX_UINT64
  {
    var q, rest := (MAX_UINT64 - gas) / price, (MAX_UINT64 - gas) % price;
    assert MAX_UINT64 - gas == q * price + rest;
    if q < n {
      MulMonotone(q + 1, n, price);
      assert (q + 1) * price == q * price + price;
    } else {
      MulMonotone(n, q, price);
    }
  }

  lemma MulMonotone(a: nat, b: nat, c: nat)
    requires a <= b
    ensures a * c <= b * c
  {
    assert b * c == a * c + (b - a) * c;
    NonNegative(b - a, c);
  }

  method CountNonZeros(data: seq<Byte>) returns (nz: nat)
    ensures nz == NonZeros(data) && nz <= |data|
  {
    nz := 0;
    for i := 0 to |data|
      invariant nz == NonZeros(data[..i])
    {
      assert data[..i + 1][..i] == data[..i];
      if data[i] != 0 {
        nz := nz + 1;
      }
    }
    assert data[..|data|] == data;
    NonZerosBound(data);
  }

  /** The guarded addition of the source: refuse exactly the sums that do not fit. */
  method AddChecked(gas: nat, n: nat, price: nat) returns (r: Option<nat>)
    requires gas <= MAX_UINT64 && price > 0
    ensures r == if gas + n * price > MAX_UINT64 then None else Some(gas + n * price)
  {
    GuardIsExact(gas, price, n);
    if (MAX_UINT64 - gas) / price < n {
      return None;
    }
    return Some(gas + n * price);
  }

  /** The unguarded addition. */
  method AddWrapping(gas: nat, n: nat, price: nat) returns (r: nat)
    ensures r == (gas + n * price) % U64
  {
    r := (gas + n * price) % U64;
  }

  /** The intrinsic gas: none if the cost of the data does not fit 64 bits; the access
      list is added modulo 2^64. */
  ghost function Intrinsic(
    data: seq<Byte>, accessList: Option<AccessList>, creation: bool, isHomestead: bool, isEIP2028: bool,
    isEIP3860: bool): Option<nat>
    requires |data| < U64
  {
    var g := DataGas(data, creation, isHomestead, isEIP2028, isEIP3860);
    if g > MAX_UINT64 then None
    else if accessList.None? then Some(g)
    else Some(((g + accessList.value.addresses * TX_ACCESS_LIST_ADDRESS_GAS) % U64
               + accessList.value.storageKeys * TX_ACCESS_LIST_STORAGE_KEY_GAS) % U64)
  }

  /** IntrinsicGas. It reports overflow exactly when the cost of the data does not fit
      64 bits; the access list is added without a check. */
  method IntrinsicGas(
    data: seq<Byte>, accessList: Option<AccessList>, isContractCreation: bool, isHomestead: bool,
    isEIP2028: bool, isEIP3860: bool)
    returns (r: Option<nat>)
    requires |data| < U64
    ensures r == Intrinsic(data, accessList, isContractCreation, isHomestead, isEIP2028, isEIP3860)
  {
    r := DataGasChecked(data, isContractCreation, isHomestead, isEIP2028, isEIP3860);
    if r.None? || accessList.None? {
      return;
    }
    var gas := AddWrapping(r.value, accessList.value.addresses, TX_ACCESS_LIST_ADDRESS_GAS);
    gas := AddWrapping(gas, accessList.value.storageKeys, TX_ACCESS_LIST_STORAGE_KEY_GAS);
    return Some(gas);
  }

  method DataGasChecked(
    data: seq<Byte>, isContractCreation: bool, isHomestead: bool, isEIP2028: bool, isEIP3860: bool)
    returns (r: Option<nat>)
    requires |data| < U64
    ensures var g := DataGas(data, isContractCreation, isHomestead, isEIP2028, isEIP3860);
            if g > MAX_UINT64 then r == None else r == Some(g)
  {
    var gas: nat := if isContractCreation && isHomestead then TX_GAS_CONTRACT_CREATION else TX_GAS;
    if |data| == 0 {
      return Some(gas);
    }
    var nz := CountNonZeros(data);
    r := AddChecked(gas, nz, NonZeroGas(isEIP2028));
    if r.None? {
      return;
    }
    r := AddChecked(r.value, |data| - nz, TX_DATA_ZERO_GAS);
    if r.None? || !(isContractCreation && isEIP3860) {
      return;
    }
    r := AddChecked(r.value, ToWordSize(|data|), INIT_CODE_WORD_GAS);
  }
}
