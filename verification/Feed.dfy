/** event/feed.go and its generic twin event/feedof.go: the case list, which Send
    permutes and shortens in place, and the Send loop itself. */
module Feeds {
  import opened Options

  type Chan = nat
  type Value = int

  // Slot 0 of the case list receives from this channel.
  const REMOVE_SUB: Chan := 0

  const FIRST_SUB_SEND_CASE: nat := 1

  /** A select case: its channel and, while a Send is in progress, the value. */
  datatype Case = Case(ch: Chan, val: Option<Value>)

  // ---------------------------------------------------------------- the list operations, on values

  function Chs(cs: seq<Case>): (chs: seq<Chan>)
    ensures |chs| == |cs| && forall i :: 0 <= i < |cs| ==> chs[i] == cs[i].ch
  {
    seq(|cs|, i requires 0 <= i < |cs| => cs[i].ch)
  }

  function Swapped<T>(s: seq<T>, i: nat, j: nat): seq<T>
    requires i < |s| && j < |s|
  {
    s[i := s[j]][j := s[i]]
  }

  function DeleteAt<T>(s: seq<T>, i: nat): seq<T>
    requires i < |s|
  {
    s[..i] + s[i + 1..]
  }

  /** The subscribed channels: everything but slot 0. */
  ghost function Subs(s: seq<Chan>, n: nat): multiset<Chan>
    requires 1 <= n <= |s|
  {
    multiset(s[1..n])
  }

  lemma SubsCons(s: seq<Chan>, i: nat, n: nat)
    requires 1 <= i < n <= |s|
    ensures Subs(s, n) == multiset(s[1..i]) + multiset{s[i]} + multiset(s[i + 1..n])
  {
    assert s[1..n] == s[1..i] + [s[i]] + s[i + 1..n];
  }

  /** Deactivation hides one channel behind the shortened prefix and loses none. */
  lemma SwapHides(s: seq<Chan>, i: nat, m: nat, n: nat)
    requires 1 <= i < m <= n <= |s|
    ensures var t := Swapped(s, i, m - 1);
            && Subs(t, m - 1) + multiset{s[i]} == Subs(s, m)
            && Subs(t, n) == Subs(s, n) && t[0] == s[0]
  {
    var t := Swapped(s, i, m - 1);
    SwapPrefix(s, i, m);
    assert t[1..n] == t[1..m] + t[m..n] && s[1..n] == s[1..m] + s[m..n];
    assert t[m..n] == s[m..n];
    assert multiset(t[1..n]) == multiset(t[1..m]) + multiset(t[m..n]);
    assert multiset(s[1..n]) == multiset(s[1..m]) + multiset(s[m..n]);
  }

  lemma SwapPrefix(s: seq<Chan>, i: nat, m: nat)
    requires 1 <= i < m <= |s|
    ensures var t := Swapped(s, i, m - 1);
            && Subs(t, m - 1) + multiset{s[i]} == Subs(s, m) && Subs(t, m) == Subs(s, m)
  {
    var t := Swapped(s, i, m - 1);
    assert t[1..m] == t[1..m - 1] + [t[m - 1]];
    if i < m - 1 {
      assert t[1..m - 1] == s[1..i] + [s[m - 1]] + s[i + 1..m - 1];
      assert s[1..m] == s[1..i] + [s[i]] + s[i + 1..m - 1] + [s[m - 1]];
    } else {
      assert t == s;
    }
  }

  lemma DeleteSlice(s: seq<Chan>, i: nat, n: nat)
    requires 1 <= i < n <= |s|
    ensures DeleteAt(s, i)[1..n - 1] == s[1..i] + s[i + 1..n]
  {
    var t := DeleteAt(s, i);
    assert |t| == |s| - 1 && forall k :: 0 <= k < |t| ==> t[k] == if k < i then s[k] else s[k + 1];
  }

  lemma DeleteBeyond(s: seq<Chan>, i: nat, m: nat)
    requires 1 <= m <= i < |s|
    ensures DeleteAt(s, i)[1..m] == s[1..m]
  {
    var t := DeleteAt(s, i);
    assert |t| == |s| - 1 && forall k :: 0 <= k < m ==> t[k] == s[k];
  }

  /** Deletion removes one occurrence, from the prefix too if it lay there. */
  lemma DeleteRemoves(s: seq<Chan>, i: nat, m: nat, n: nat)
    requires 1 <= i < n <= |s| && 1 <= m <= n
    ensures var t := DeleteAt(s, i);
            && Subs(t, n - 1) + multiset{s[i]} == Subs(s, n) && t[0] == s[0]
            && (i < m ==> Subs(t, m - 1) + multiset{s[i]} == Subs(s, m))
            && (i >= m ==> Subs(t, m) == Subs(s, m))
  {
    DeleteSlice(s, i, n);
    SubsCons(s, i, n);
    if i < m {
      DeleteSlice(s, i, m);
      SubsCons(s, i, m);
    } else {
      DeleteBeyond(s, i, m);
    }
  }

  // ---------------------------------------------------------------- the list operations, in place

  method Find(a: array<Case>, len: nat, ch: Chan) returns (index: int)
    requires len <= a.Length
    ensures -1 <= index < len
    ensures index >= 0 ==> a[index].ch == ch && forall j :: 0 <= j < index ==> a[j].ch != ch
    ensures index == -1 ==> forall j :: 0 <= j < len ==> a[j].ch != ch
  {
    for i := 0 to len
      invariant forall j :: 0 <= j < i ==> a[j].ch != ch
    {
      if a[i].ch == ch {
        return i;
      }
    }
    return -1;
  }

  /** delete: shift the tail left over the case at index. */
  method Delete(a: array<Case>, len: nat, index: nat)
    requires index < len <= a.Length
    modifies a
    ensures a[..len - 1] == DeleteAt(old(a[..len]), index)
  {
    for j := index to len - 1
      invariant forall k :: 0 <= k < index ==> a[k] == old(a[k])
      invariant forall k :: index <= k < j ==> a[k] == old(a[k + 1])
      invariant forall k :: j <= k < len ==> a[k] == old(a[k])
    {
      a[j] := a[j + 1];
    }
  }

  /** deactivate: move the case at index out of the prefix of length m. */
  method Deactivate(a: array<Case>, m: nat, index: nat) returns (last: nat)
    requires index < m <= a.Length
    modifies a
    ensures last == m - 1 && a[..] == Swapped(old(a[..]), index, last)
  {
    last := m - 1;
    a[index], a[last] := a[last], a[index];
  }

  method SetValues(a: array<Case>, len: nat, val: Option<Value>)
    requires len <= a.Length
    modifies a
    ensures Chs(a[..len]) == Chs(old(a[..len]))
    ensures forall i :: 1 <= i < len ==> a[i].val == val
  {
    var i := FIRST_SUB_SEND_CASE;
    while i < len
      invariant 1 <= i
      invariant forall k :: 0 <= k < len ==> a[k].ch == old(a[k].ch)
      invariant forall k :: 1 <= k < i && k < len ==> a[k].val == val
    {
      a[i] := a[i].(val := val);
      i := i + 1;
    }
  }

  // ---------------------------------------------------------------- the outside

  /** What a Send does to the outside: a value goes out on a channel, or a removal
      request for a channel comes in. */
  datatype Event = Delivered(ch: Chan, value: Value) | Removal(ch: Chan)

  ghost function Got(log: seq<Event>): multiset<Chan> {
    if log == [] then multiset{}
    else
      var e := log[|log| - 1];
      Got(log[..|log| - 1]) + if e.Delivered? then multiset{e.ch} else multiset{}
  }

  ghost function Removals(log: seq<Event>): multiset<Chan> {
    if log == [] then multiset{}
    else
      var e := log[|log| - 1];
      Removals(log[..|log| - 1]) + if e.Removal? then multiset{e.ch} else multiset{}
  }

  ghost function Values(log: seq<Event>): set<Value> {
    if log == [] then {}
    else
      var e := log[|log| - 1];
      Values(log[..|log| - 1]) + if e.Delivered? then {e.value} else {}
  }

  /** Go's channels and scheduler: any send may or may not succeed, and select may
      choose any active case or a removal request for any subscribed channel. */
  class Outside {
    ghost var log: seq<Event>

    method TrySend(c: Case) returns (ok: bool)
      requires c.val.Some?
      modifies this
      ensures log == if ok then old(log) + [Delivered(c.ch, c.val.value)] else old(log)
    {
      ok := *;
      if ok {
        log := log + [Delivered(c.ch, c.val.value)];
      }
    }

    method Select(a: array<Case>, cases: nat, n: nat) returns (chosen: nat, ch: Chan)
      requires 1 < cases <= n <= a.Length && forall i :: 1 <= i < n ==> a[i].val.Some?
      modifies this
      ensures chosen < cases
      ensures chosen > 0 ==> log == old(log) + [Delivered(a[chosen].ch, a[chosen].val.value)]
      ensures chosen == 0 ==> log == old(log) + [Removal(ch)] && ch in Chs(a[..n])[1..]
    {
      chosen :| chosen < cases;
      var r :| FIRST_SUB_SEND_CASE <= r < n;
      ch := a[r].ch;
      assert Chs(a[..n])[1..][r - 1] == ch;
      log := log + [if chosen > 0 then Delivered(a[chosen].ch, a[chosen].val.value) else Removal(ch)];
    }
  }

  // ---------------------------------------------------------------- Send

  /** What a Send has done so far with the merged list `merged`: delivered to `got`,
      removed `removed` on request, `dropped` of them before they were reached. The
      first m slots of the list are still to be served. */
  datatype Ledger = Ledger(
    merged: multiset<Chan>, got: multiset<Chan>, removed: multiset<Chan>, dropped: multiset<Chan>,
    values: set<Value>)

  ghost predicate Balanced(l: Ledger, s: seq<Chan>, m: nat, value: Value, nsent: nat) {
    && 1 <= m <= |s| && s[0] == REMOVE_SUB && (forall i :: 1 <= i < |s| ==> s[i] != REMOVE_SUB)
    && Subs(s, |s|) + l.removed == l.merged
    && Subs(s, m) + l.got + l.dropped == l.merged
    && l.dropped <= l.removed && |l.got| == nsent && l.values <= {value}
  }

  /** The ledger is what the log says since `start`. */
  ghost predicate Logged(l: Ledger, log: seq<Event>, start: nat) {
    && start <= |log|
    && l.got == Got(log[start..]) && l.removed == Removals(log[start..]) && l.values == Values(log[start..])
  }

  lemma LogAppend(log: seq<Event>, e: Event)
    ensures Got(log + [e]) == Got(log) + if e.Delivered? then multiset{e.ch} else multiset{}
    ensures Removals(log + [e]) == Removals(log) + if e.Removal? then multiset{e.ch} else multiset{}
    ensures Values(log + [e]) == Values(log) + if e.Delivered? then {e.value} else {}
  {
    assert (log + [e])[..|log|] == log;
  }

  lemma LoggedDelivery(l: Ledger, log: seq<Event>, start: nat, ch: Chan, value: Value)
    requires Logged(l, log, start)
    ensures Logged(l.(got := l.got + multiset{ch}, values := l.values + {value}), log + [Delivered(ch, value)], start)
  {
    assert (log + [Delivered(ch, value)])[start..] == log[start..] + [Delivered(ch, value)];
    LogAppend(log[start..], Delivered(ch, value));
  }

  lemma LoggedRemoval(l: Ledger, log: seq<Event>, start: nat, ch: Chan, dropped: multiset<Chan>)
    requires Logged(l, log, start)
    ensures Logged(l.(removed := l.removed + multiset{ch}, dropped := dropped), log + [Removal(ch)], start)
  {
    assert (log + [Removal(ch)])[start..] == log[start..] + [Removal(ch)];
    LogAppend(log[start..], Removal(ch));
  }

  ghost predicate Loaded(cs: seq<Case>, value: Value) {
    forall i :: 1 <= i < |cs| ==> cs[i].val == Some(value)
  }

  lemma Delivers(l: Ledger, s: seq<Chan>, m: nat, value: Value, nsent: nat, i: nat)
    requires Balanced(l, s, m, value, nsent) && 1 <= i < m
    ensures Balanced(l.(got := l.got + multiset{s[i]}, values := l.values + {value}),
                     Swapped(s, i, m - 1), m - 1, value, nsent + 1)
  {
    var t := Swapped(s, i, m - 1);
    SwapHides(s, i, m, |s|);
    MoveOne(Subs(t, m - 1), Subs(s, m), s[i], l.got, l.dropped);
  }

  lemma MoveOne(a: multiset<Chan>, b: multiset<Chan>, ch: Chan, got: multiset<Chan>, dropped: multiset<Chan>)
    requires a + multiset{ch} == b
    ensures a + (got + multiset{ch}) + dropped == b + got + dropped
  {
  }

  lemma Removes(l: Ledger, s: seq<Chan>, m: nat, value: Value, nsent: nat, i: nat)
    requires Balanced(l, s, m, value, nsent) && 1 <= i < |s|
    ensures Balanced(RemovedFrom(l, s[i], i < m), DeleteAt(s, i), if i < m then m - 1 else m, value, nsent)
  {
    var t := DeleteAt(s, i);
    DeleteRemoves(s, i, m, |s|);
    TakeOne(Subs(t, |t|), Subs(s, |s|), s[i], l.removed);
    if i < m {
      DropOne(Subs(t, m - 1), Subs(s, m), s[i], l.got, l.dropped);
    }
  }

  lemma TakeOne(a: multiset<Chan>, b: multiset<Chan>, ch: Chan, removed: multiset<Chan>)
    requires a + multiset{ch} == b
    ensures a + (removed + multiset{ch}) == b + removed
  {
  }

  lemma DropOne(a: multiset<Chan>, b: multiset<Chan>, ch: Chan, got: multiset<Chan>, dropped: multiset<Chan>)
    requires a + multiset{ch} == b
    ensures a + got + (dropped + multiset{ch}) == b + got + dropped
  {
  }

  /** The state Send keeps between its steps. */
  ghost predicate Sending(a: array<Case>, n: nat, m: nat, value: Value, nsent: nat, l: Ledger)
    reads a
  {
    n <= a.Length && Loaded(a[..n], value) && Balanced(l, Chs(a[..n]), m, value, nsent)
  }

  lemma SwappedChs(before: seq<Case>, after: seq<Case>, n: nat, i: nat, j: nat)
    requires i < n <= |before| && j < n && after == Swapped(before, i, j)
    ensures Chs(after[..n]) == Swapped(Chs(before[..n]), i, j)
  {
  }

  lemma DeletedChs(before: seq<Case>, after: seq<Case>, i: nat)
    requires i < |before| && after == DeleteAt(before, i)
    ensures Chs(after) == DeleteAt(Chs(before), i)
    ensures forall v :: i > 0 && Loaded(before, v) ==> Loaded(after, v)
  {
  }

  lemma DeliversCase(
    l: Ledger, before: seq<Case>, after: seq<Case>, n: nat, m: nat, value: Value, nsent: nat, i: nat)
    requires n <= |before| && Loaded(before[..n], value) && Balanced(l, Chs(before[..n]), m, value, nsent)
    requires 1 <= i < m && after == Swapped(before, i, m - 1)
    ensures Loaded(after[..n], value)
    ensures Balanced(l.(got := l.got + multiset{before[i].ch}, values := l.values + {value}),
                     Chs(after[..n]), m - 1, value, nsent + 1)
  {
    var chs := Chs(before[..n]);
    Delivers(l, chs, m, value, nsent, i);
    SwappedChs(before, after, n, i, m - 1);
    assert chs[i] == before[i].ch && Chs(after[..n]) == Swapped(chs, i, m - 1);
  }

  /** The ledger after a removal, of a case still to be served or not. */
  function RemovedFrom(l: Ledger, ch: Chan, active: bool): Ledger {
    l.(removed := l.removed + multiset{ch}, dropped := if active then l.dropped + multiset{ch} else l.dropped)
  }

  lemma RemovesCase(
    l: Ledger, before: seq<Case>, after: seq<Case>, m: nat, m': nat, value: Value, nsent: nat, i: nat, l': Ledger)
    requires Loaded(before, value) && Balanced(l, Chs(before), m, value, nsent)
    requires 1 <= i < |before| && after == DeleteAt(before, i)
    requires l' == RemovedFrom(l, before[i].ch, i < m) && m' == if i < m then m - 1 else m
    ensures Loaded(after, value) && Balanced(l', Chs(after), m', value, nsent)
  {
    Removes(l, Chs(before), m, value, nsent, i);
    DeletedChs(before, after, i);
  }

  /** The case at index i was served: account for it and deactivate it. */
  method Served(a: array<Case>, ghost n: nat, m0: nat, i: nat, ghost value: Value, ghost nsent: nat, ghost l0: Ledger)
    returns (m: nat, ghost l: Ledger)
    requires Sending(a, n, m0, value, nsent, l0) && 1 <= i < m0
    modifies a
    ensures Sending(a, n, m, value, nsent + 1, l) && m == m0 - 1
    ensures l == l0.(got := l0.got + multiset{old(a[i].ch)}, values := l0.values + {value})
  {
    ghost var before := a[..];
    assert Chs(before[..n])[i] == a[i].ch && before[..n][i].val == Some(value);
    l := l0.(got := l0.got + multiset{a[i].ch}, values := l0.values + {a[i].val.value});
    m := Deactivate(a, m0, i);
    DeliversCase(l0, before, a[..], n, m0, value, nsent, i);
  }

  /** The non-blocking pass: try every active case. */
  method TrySends(
    out: Outside, a: array<Case>, ghost n: nat, m0: nat, ghost value: Value, nsent0: nat, ghost l0: Ledger,
    ghost start: nat)
    returns (m: nat, nsent: nat, ghost l: Ledger)
    requires Sending(a, n, m0, value, nsent0, l0) && Logged(l0, out.log, start)
    modifies out, a
    ensures Sending(a, n, m, value, nsent, l) && m <= m0 && l.merged == l0.merged
    ensures Logged(l, out.log, start)
  {
    m, nsent, l := m0, nsent0, l0;
    var i := FIRST_SUB_SEND_CASE;
    while i < m
      invariant 1 <= i && m <= m0 && l.merged == l0.merged
      invariant Sending(a, n, m, value, nsent, l) && Logged(l, out.log, start)
      decreases m - i
    {
      assert a[..n][i].val == Some(value);
      LoggedDelivery(l, out.log, start, a[i].ch, value);
      var ok := out.TrySend(a[i]);
      if ok {
        m, l := Served(a, n, m, i, value, nsent, l);
        nsent := nsent + 1;
      } else {
        i := i + 1;
      }
    }
  }

  /** find, for a channel that is subscribed: never slot 0, never -1. */
  method FindSub(a: array<Case>, n: nat, ch: Chan) returns (index: nat)
    requires 1 <= n <= a.Length && a[0].ch == REMOVE_SUB != ch && ch in Chs(a[..n])[1..]
    ensures 1 <= index < n && Chs(a[..n])[index] == ch
  {
    var i := Find(a, n, ch);
    ghost var k :| 0 <= k < n - 1 && Chs(a[..n])[1..][k] == ch;
    assert a[k + 1].ch == ch;
    index := i;
  }

  /** Find a subscribed channel and delete the first slot holding it. */
  method DeleteSub(a: array<Case>, n: nat, ch: Chan) returns (index: nat)
    requires 1 <= n <= a.Length && a[0].ch == REMOVE_SUB != ch && ch in Chs(a[..n])[1..]
    modifies a
    ensures 1 <= index < n && old(a[index].ch) == ch && a[..n - 1] == DeleteAt(old(a[..n]), index)
  {
    index := FindSub(a, n, ch);
    Delete(a, n, index);
  }

  /** A removal request received while selecting: the requested channel may sit in
      any slot, served or not. */
  method RemoveOnRequest(
    a: array<Case>, n0: nat, m0: nat, ch: Chan, ghost value: Value, ghost nsent: nat, ghost l0: Ledger)
    returns (n: nat, m: nat, ghost l: Ledger)
    requires Sending(a, n0, m0, value, nsent, l0) && ch in Chs(a[..n0])[1..]
    modifies a
    ensures Sending(a, n, m, value, nsent, l) && n == n0 - 1 && m <= m0
    ensures l == l0.(removed := l0.removed + multiset{ch}, dropped := l.dropped)
  {
    ghost var before := a[..n0];
    var index := DeleteSub(a, n0, ch);
    n, m := n0 - 1, m0;
    if 0 <= index < m0 {
      m := m0 - 1;
    }
    l := RemovedFrom(l0, before[index].ch, index < m0);
    RemovesCase(l0, before, a[..n], m0, m, value, nsent, index, l);
  }

  /** Every channel of the merged list gets the value once, except those removed
      before their turn; what remains subscribed is the merged list less the removed. */
  lemma Settled(l: Ledger, s: seq<Chan>, value: Value, nsent: nat, ch: Chan)
    requires Balanced(l, s, 1, value, nsent)
    ensures l.removed[ch] == 0 ==> l.got[ch] == l.merged[ch]
    ensures l.got[ch] <= l.merged[ch] <= l.got[ch] + l.removed[ch]
    ensures Subs(s, |s|)[ch] + l.removed[ch] == l.merged[ch]
  {
    assert Subs(s, 1) == multiset{};
    assert (l.got + l.dropped)[ch] == l.merged[ch];
    assert (Subs(s, |s|) + l.removed)[ch] == l.merged[ch];
  }

  /** The list between sends: slot 0 for removal, then channels without values. */
  ghost predicate CasesOk(cs: seq<Case>) {
    && |cs| >= 1 && cs[0].ch == REMOVE_SUB
    && forall i :: 1 <= i < |cs| ==> cs[i].ch != REMOVE_SUB && cs[i].val == None
  }

  lemma CasesOkDeleted(cs: seq<Case>, i: nat)
    requires CasesOk(cs) && 1 <= i < |cs|
    ensures CasesOk(DeleteAt(cs, i))
    ensures Subs(Chs(DeleteAt(cs, i)), |cs| - 1) + multiset{cs[i].ch} == Subs(Chs(cs), |cs|)
  {
    DeletedChs(cs, DeleteAt(cs, i), i);
    DeleteRemoves(Chs(cs), i, |cs|, |cs|);
  }

  lemma SubsMember(cs: seq<Case>, ch: Chan)
    requires CasesOk(cs) && ch in Subs(Chs(cs), |cs|)
    ensures ch in Chs(cs)[1..] && ch != REMOVE_SUB
  {
    assert Chs(cs)[1..|cs|] == Chs(cs)[1..];
  }

  lemma CasesOkMerged(cs: seq<Case>, inbox: seq<Chan>, merged: seq<Case>)
    requires CasesOk(cs) && REMOVE_SUB !in inbox && |merged| == |cs| + |inbox|
    requires forall i :: 0 <= i < |cs| ==> merged[i] == cs[i]
    requires forall i :: |cs| <= i < |merged| ==> merged[i] == Case(inbox[i - |cs|], None)
    ensures CasesOk(merged)
    ensures Subs(Chs(merged), |merged|) == Subs(Chs(cs), |cs|) + multiset(inbox)
  {
    assert Chs(merged)[1..|merged|] == Chs(cs)[1..|cs|] + inbox;
  }

  lemma InboxDeleted(inbox: seq<Chan>, i: nat)
    requires i < |inbox|
    ensures multiset(DeleteAt(inbox, i)) + multiset{inbox[i]} == multiset(inbox)
  {
    assert inbox == inbox[..i] + [inbox[i]] + inbox[i + 1..];
  }

  method FindInbox(inbox: seq<Chan>, ch: Chan) returns (index: int)
    ensures -1 <= index < |inbox|
    ensures if index >= 0 then inbox[index] == ch && ch !in inbox[..index] else ch !in inbox
  {
    for i := 0 to |inbox|
      invariant ch !in inbox[..i]
    {
      if inbox[i] == ch {
        return i;
      }
    }
    return -1;
  }

  method Append(cs: array<Case>, len: nat, inbox: seq<Chan>) returns (a: array<Case>)
    requires len <= cs.Length
    ensures fresh(a) && a.Length == len + |inbox|
    ensures forall k :: 0 <= k < len ==> a[k] == cs[k]
    ensures forall k :: len <= k < a.Length ==> a[k] == Case(inbox[k - len], None)
  {
    a := new Case[len + |inbox|];
    for i := 0 to len
      invariant forall k :: 0 <= k < i ==> a[k] == cs[k]
    {
      a[i] := cs[i];
    }
    for i := len to a.Length
      invariant forall k :: 0 <= k < len ==> a[k] == cs[k]
      invariant forall k :: len <= k < i ==> a[k] == Case(inbox[k - len], None)
    {
      a[i] := Case(inbox[i - len], None);
    }
  }

  class Feed {
    var sendCases: array<Case>
    var len: nat
    var inbox: seq<Chan>

    constructor ()
      ensures Valid() && fresh(sendCases) && Subscribed() == multiset{}
    {
      sendCases := new Case[1] [Case(REMOVE_SUB, None)];
      len, inbox := 1, [];
    }

    ghost predicate Valid()
      reads this, sendCases
    {
      len <= sendCases.Length && CasesOk(sendCases[..len]) && REMOVE_SUB !in inbox
    }

    /** Channels in sendCases and inbox, one for each live subscription. */
    ghost function Subscribed(): multiset<Chan>
      requires Valid()
      reads this, sendCases
    {
      Subs(Chs(sendCases[..len]), len) + multiset(inbox)
    }

    method Subscribe(channel: Chan)
      requires Valid() && channel != REMOVE_SUB
      modifies this`inbox
      ensures Valid() && Subscribed() == old(Subscribed()) + multiset{channel}
    {
      inbox := inbox + [channel];
    }

    /** remove, when no Send is in progress: from the inbox first, otherwise from
        sendCases under the send lock, where the channel is found. */
    method Remove(ch: Chan)
      requires Valid() && ch in Subscribed()
      modifies this`len, this`inbox, sendCases
      ensures Valid() && Subscribed() + multiset{ch} == old(Subscribed())
    {
      var index := FindInbox(inbox, ch);
      if index != -1 {
        InboxDeleted(inbox, index);
        inbox := DeleteAt(inbox, index);
      } else {
        RemoveCase(ch);
      }
    }

    method RemoveCase(ch: Chan)
      requires Valid() && ch in Subs(Chs(sendCases[..len]), len)
      modifies this`len, sendCases
      ensures Valid()
      ensures Subs(Chs(sendCases[..len]), len) + multiset{ch} == old(Subs(Chs(sendCases[..len]), len))
    {
      ghost var before := sendCases[..len];
      SubsMember(before, ch);
      var index := DeleteSub(sendCases, len, ch);
      CasesOkDeleted(before, index);
      len := len - 1;
    }

    /** Add the inbox to the cases: append may reallocate. */
    method MergeInbox()
      requires Valid()
      modifies this
      ensures Valid() && fresh(sendCases) && inbox == []
      ensures Subs(Chs(sendCases[..len]), len) == old(Subscribed())
    {
      var a := Append(sendCases, len, inbox);
      CasesOkMerged(sendCases[..len], inbox, a[..]);
      sendCases, len, inbox := a, a.Length, [];
      assert sendCases[..len] == a[..];
    }

    /** Send, for every outcome of TrySend and every choice of select, including any
        sequence of removal requests for subscribed channels. The ledger of what went
        out and came in balances with the list that is left. */
    method Send(out: Outside, value: Value) returns (nsent: nat, ghost l: Ledger)
      requires Valid()
      modifies this, sendCases, out
      ensures Valid() && inbox == []
      ensures Logged(l, out.log, |old(out.log)|) && l.merged == old(Subscribed())
      ensures Balanced(l, Chs(sendCases[..len]), 1, value, nsent)
    {
      MergeInbox();
      ghost var before := sendCases[..len];
      SetValues(sendCases, len, Some(value));
      Starts(before, sendCases[..len], value);
      l := Ledger(old(Subscribed()), multiset{}, multiset{}, multiset{}, {});
      assert out.log[|out.log|..] == [];
      len, nsent, l := Deliver(out, sendCases, len, value, l, |out.log|);
      SetValues(sendCases, len, None);
      Ends(l, sendCases[..len], value, nsent);
    }
  }

  lemma Starts(before: seq<Case>, cs: seq<Case>, value: Value)
    requires CasesOk(before) && Chs(cs) == Chs(before) && forall i :: 1 <= i < |cs| ==> cs[i].val == Some(value)
    ensures Loaded(cs, value)
    ensures Balanced(Ledger(Subs(Chs(before), |before|), multiset{}, multiset{}, multiset{}, {}),
                     Chs(cs), |cs|, value, 0)
  {
  }

  lemma Ends(l: Ledger, cs: seq<Case>, value: Value, nsent: nat)
    requires Balanced(l, Chs(cs), 1, value, nsent) && forall i :: 1 <= i < |cs| ==> cs[i].val == None
    ensures CasesOk(cs)
  {
  }

  /** The loop of Send. `cases` is the length of the still active prefix of the list. */
  method Deliver(out: Outside, a: array<Case>, len: nat, value: Value, ghost l0: Ledger, ghost start: nat)
    returns (n: nat, nsent: nat, ghost l: Ledger)
    requires Sending(a, len, len, value, 0, l0) && Logged(l0, out.log, start)
    modifies out, a
    ensures Sending(a, n, 1, value, nsent, l) && l.merged == l0.merged && Logged(l, out.log, start)
  {
    n, nsent, l := len, 0, l0;
    var cases := len;
    while true
      invariant Sending(a, n, cases, value, nsent, l) && l.merged == l0.merged && Logged(l, out.log, start)
      decreases n + cases
    {
      cases, nsent, l := TrySends(out, a, n, cases, value, nsent, l, start);
      if cases == FIRST_SUB_SEND_CASE {
        break;
      }
      n, cases, nsent, l := SelectOne(out, a, n, cases, value, nsent, l, start);
    }
  }

  /** Select on the cases still active and the removal channel, and act on the choice. */
  method SelectOne(
    out: Outside, a: array<Case>, n0: nat, cases0: nat, ghost value: Value, nsent0: nat, ghost l0: Ledger,
    ghost start: nat)
    returns (n: nat, cases: nat, nsent: nat, ghost l: Ledger)
    requires Sending(a, n0, cases0, value, nsent0, l0) && cases0 > 1 && Logged(l0, out.log, start)
    modifies out, a
    ensures Sending(a, n, cases, value, nsent, l) && l.merged == l0.merged && Logged(l, out.log, start)
    ensures n <= n0 && cases <= cases0 && n + cases < n0 + cases0
  {
    assert forall i :: 1 <= i < n0 ==> a[..n0][i].val == Some(value);
    ghost var log := out.log;
    var chosen, ch := out.Select(a, cases0, n0);
    nsent := nsent0;
    if chosen == 0 {
      n, cases, l := RemoveOnRequest(a, n0, cases0, ch, value, nsent, l0);
      LoggedRemoval(l0, log, start, ch, l.dropped);
      assert Logged(l, out.log, start);
    } else {
      ghost var c := a[chosen].ch;
      assert a[..n0][chosen].val == Some(value);
      LoggedDelivery(l0, log, start, c, value);
      assert out.log == log + [Delivered(c, value)];
      n := n0;
      cases, l := Served(a, n0, cases0, chosen, value, nsent, l0);
      nsent := nsent + 1;
      assert l == l0.(got := l0.got + multiset{c}, values := l0.values + {value});
      assert Logged(l, out.log, start);
    }
  }
}
