/** Account balances as 256-bit words, and their sum, the total supply. */
module Balances {
  type Addr = nat

  const U64: nat := 0x1_0000_0000_0000_0000
  const U256: nat := 0x1_0000_0000_0000_0000_0000_0000_0000_0000_0000_0000_0000_0000_0000_0000_0000_0000

  type Book = map<Addr, nat>

  function Bal(b: Book, a: Addr): nat {
    if a in b then b[a] else 0
  }

  /** The low 256 bits of x, in two's complement if x is negative. */
  function Wrap(x: int): nat
    decreases x < 0, if x < 0 then -x else x
  {
    if x < 0 then Wrap(x + U256) else if x < U256 then x else Wrap(x - U256)
  }

  /** Wrap gives a word, and does not see multiples of 2^256. */
  lemma {:induction false} WrapIsModular(x: int)
    ensures Wrap(x) < U256 && Wrap(x + U256) == Wrap(x)
    decreases x < 0, if x < 0 then -x else x
  {
    if x < 0 {
      WrapIsModular(x + U256);
    } else if x >= U256 {
      WrapIsModular(x - U256);
    }
  }

  /** Converting a summand or a factor first makes no difference. */
  lemma {:induction false} WrapAdd(a: int, b: int)
    ensures Wrap(Wrap(a) + b) == Wrap(a + b)
    decreases a < 0, if a < 0 then -a else a
  {
    if a < 0 {
      WrapAdd(a + U256, b);
      WrapIsModular(a + b);
    } else if a >= U256 {
      WrapAdd(a - U256, b);
      WrapIsModular(a - U256 + b);
    }
  }

  lemma {:induction false} WrapMul(n: nat, x: int)
    ensures Wrap(n * Wrap(x)) == Wrap(n * x)
  {
    if n > 0 {
      var w, a, c := Wrap(x), (n - 1) * Wrap(x), (n - 1) * x;
      assert n * w == a + w && n * x == c + x;
      WrapMul(n - 1, x);
      WrapAdd(a, w);
      WrapAdd(c, w);
      WrapAdd(x, c);
    }
  }

  /** AddBalance and SubBalance on 256-bit words, which wrap silently. */
  function AddBalance(b: Book, a: Addr, amount: nat): Book {
    b[a := Wrap(Bal(b, a) + amount)]
  }

  function SubBalance(b: Book, a: Addr, amount: nat): Book {
    b[a := Wrap(Bal(b, a) - amount)]
  }

  /** The total supply. */
  ghost function Total(b: Book): nat
    decreases |b|
  {
    if b == map[] then 0
    else
      var a :| a in b;
      assert (b - {a}).Keys == b.Keys - {a};
      b[a] + Total(b - {a})
  }

  lemma {:induction false} TotalSplit(b: Book, a: Addr)
    requires a in b
    ensures Total(b) == b[a] + Total(b - {a})
    decreases |b|
  {
    var c :| c in b && Total(b) == b[c] + Total(b - {c});
    if c != a {
      assert (b - {c}).Keys == b.Keys - {c} && (b - {a}).Keys == b.Keys - {a};
      TotalSplit(b - {c}, a);
      TotalSplit(b - {a}, c);
      assert b - {c} - {a} == b - {a} - {c};
    }
  }

  lemma TotalPut(b: Book, a: Addr, v: nat)
    ensures Total(b[a := v]) == Total(b) - Bal(b, a) + v
  {
    TotalSplit(b[a := v], a);
    assert b[a := v] - {a} == b - {a};
    if a in b {
      TotalSplit(b, a);
    } else {
      assert b - {a} == b;
    }
  }

  lemma BalBound(b: Book, a: Addr)
    ensures Bal(b, a) <= Total(b)
  {
    if a in b {
      TotalSplit(b, a);
    }
  }

  /** Adding moves the supply by exactly the amount, as long as the supply fits. */
  lemma AddMovesTotal(b: Book, a: Addr, amount: nat)
    requires Total(b) + amount < U256
    ensures Total(AddBalance(b, a, amount)) == Total(b) + amount
    ensures Bal(AddBalance(b, a, amount), a) == Bal(b, a) + amount
  {
    BalBound(b, a);
    TotalPut(b, a, Bal(b, a) + amount);
  }

  /** So does subtracting, exactly when the balance covers the amount. */
  lemma SubMovesTotal(b: Book, a: Addr, amount: nat)
    requires Total(b) < U256 && amount < U256
    ensures Total(SubBalance(b, a, amount)) == Total(b) - amount <==> amount <= Bal(b, a)
    ensures amount <= Bal(b, a) ==> Bal(SubBalance(b, a, amount), a) == Bal(b, a) - amount
  {
    BalBound(b, a);
    TotalPut(b, a, Wrap(Bal(b, a) - amount));
    if amount > Bal(b, a) {
      assert Wrap(Bal(b, a) - amount) == Bal(b, a) - amount + U256;
    }
  }

  /** Adding a converted amount is adding the amount. */
  lemma AddWrapped(b: Book, a: Addr, amount: nat)
    ensures AddBalance(b, a, Wrap(amount)) == AddBalance(b, a, amount)
  {
    WrapAdd(amount, Bal(b, a));
  }

  /** Multiples of a negated and wrapped price are negated and wrapped multiples. */
  lemma WrapNegated(n: nat, price: nat)
    ensures 0 <= n * Wrap(-(price as int)) && Wrap(n * Wrap(-(price as int))) == Wrap(-(n * price))
  {
    var neg: int := -(price as int);
    NonNegative(n, Wrap(neg));
    WrapMul(n, neg);
    assert n * neg == -(n * price);
  }

  /** Adding a word that stands for a negative amount subtracts, wrapping once. */
  lemma AddNegative(b: Book, a: Addr, word: nat, x: int)
    requires Wrap(word) == Wrap(-x)
    ensures AddBalance(b, a, word) == b[a := Wrap(Bal(b, a) - x)]
  {
    WrapAdd(word, Bal(b, a));
    WrapAdd(-x, Bal(b, a));
  }

  lemma AddNegativeThen(b: Book, a: Addr, word: nat, x: int, more: nat)
    requires Wrap(word) == Wrap(-x)
    ensures AddBalance(b, a, word) == b[a := Wrap(Bal(b, a) - x)]
    ensures AddBalance(AddBalance(b, a, word), a, more) == b[a := Wrap(Bal(b, a) - x + more)]
    ensures Total(AddBalance(b, a, word)) == Total(b) - Bal(b, a) + Wrap(Bal(b, a) - x)
    ensures Total(AddBalance(AddBalance(b, a, word), a, more)) == Total(b) - Bal(b, a) + Wrap(Bal(b, a) - x + more)
  {
    AddNegative(b, a, word, x);
    var w := Wrap(Bal(b, a) - x);
    TotalPut(b, a, w);
    WrapAdd(Bal(b, a) - x, more);
    TotalPut(b[a := w], a, Wrap(w + more));
  }

  lemma NonNegative(a: nat, b: nat)
    ensures 0 <= a * b
  {
  }

  predicate CanTransfer(b: Book, from: Addr, amount: nat) {
    Bal(b, from) >= amount
  }

  function Transfer(b: Book, sender: Addr, recipient: Addr, amount: nat): Book {
    AddBalance(SubBalance(b, sender, amount), recipient, amount)
  }

  /** A permitted transfer conserves the supply and moves the amount; to oneself it
      changes nothing. */
  lemma TransferConserves(b: Book, sender: Addr, recipient: Addr, amount: nat, other: Addr)
    requires Total(b) < U256 && amount < U256 && CanTransfer(b, sender, amount)
    ensures var t := Transfer(b, sender, recipient, amount);
            && Total(t) == Total(b)
            && Bal(t, other) == Bal(b, other) - (if other == sender then amount else 0)
                                              + (if other == recipient then amount else 0)
  {
    SubMovesTotal(b, sender, amount);
    AddMovesTotal(SubBalance(b, sender, amount), recipient, amount);
  }
}
