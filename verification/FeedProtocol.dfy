/** event/feed.go as a concurrent protocol: subscribers, unsubscribers that may have
    to hand their request to a Send in progress, and the send lock. */
module FeedProtocols {
  import opened Feeds

  // A subscription's life: live; waiting, after its channel was not found in the
  // inbox, to hand over its removal or to get the send lock; gone, once
  // Unsubscribe has returned.
  datatype Phase = Live | Waiting | Gone

  datatype Sub = Sub(ch: Chan, phase: Phase)

  /** The send lock: free, taken by a Send that has not merged the inbox yet, or held
      by a Send whose first `active` cases are still to be served. */
  datatype Lock = Free | Taken | Sending(active: nat, value: Value, nsent: nat, ledger: Ledger)

  datatype State = State(inbox: seq<Chan>, list: seq<Chan>, subs: map<nat, Sub>, lock: Lock, panicked: bool)

  datatype Action =
    | Subscribe(id: nat, ch: Chan)
    | Unsubscribe(id: nat)            // look in the inbox, under its mutex
    | RemoveHoldingLock(id: nat)      // a waiting remove gets the send lock
    | TakeLock
    | Merge(value: Value)
    | Deliver(i: nat)                 // TrySend or select succeeds on active case i
    | TakeRequest(id: nat)            // select receives the request of a waiting remove
    | Release

  /** caseList.find. */
  function FindIndex(s: seq<Chan>, ch: Chan): (index: int)
    ensures -1 <= index < |s|
    ensures index >= 0 ==> s[index] == ch
    ensures index == -1 ==> ch !in s
  {
    if s == [] then -1
    else if s[0] == ch then 0
    else
      var rest := FindIndex(s[1..], ch);
      if rest == -1 then -1 else rest + 1
  }

  /** Delete a waiting subscriber's channel from the list; a channel that is not there
      would make the delete panic. */
  function Removed(s: State, id: nat): State
    requires id in s.subs
  {
    var ch := s.subs[id].ch;
    var index := FindIndex(s.list, ch);
    if index == -1 then s.(panicked := true)
    else
      var lock :=
        if !s.lock.Sending? then s.lock
        else
          var l := s.lock.ledger.(removed := s.lock.ledger.removed + multiset{ch});
          if index < s.lock.active && s.lock.active > 0
          then s.lock.(active := s.lock.active - 1, ledger := l.(dropped := l.dropped + multiset{ch}))
          else s.lock.(ledger := l);
      s.(list := DeleteAt(s.list, index), subs := s.subs[id := Sub(ch, Gone)], lock := lock)
  }

  /** One atomic action; one that is not possible now changes nothing. */
  ghost function Do(s: State, a: Action): State {
    match a
    case Subscribe(id, ch) =>
      if id in s.subs || ch == REMOVE_SUB then s
      else s.(inbox := s.inbox + [ch], subs := s.subs[id := Sub(ch, Live)])
    case Unsubscribe(id) =>
      if id !in s.subs || !s.subs[id].phase.Live? then s
      else
        var ch := s.subs[id].ch;
        var index := FindIndex(s.inbox, ch);
        if index == -1 then s.(subs := s.subs[id := Sub(ch, Waiting)])
        else s.(inbox := DeleteAt(s.inbox, index), subs := s.subs[id := Sub(ch, Gone)])
    case RemoveHoldingLock(id) =>
      if id !in s.subs || !s.subs[id].phase.Waiting? || !s.lock.Free? then s else Removed(s, id)
    case TakeLock => if s.lock.Free? then s.(lock := Taken) else s
    case Merge(value) =>
      if !s.lock.Taken? || |s.list| == 0 then s
      else
        var list := s.list + s.inbox;
        s.(list := list, inbox := [],
           lock := Sending(|list|, value, 0, Ledger(Subs(list, |list|), multiset{}, multiset{}, multiset{}, {})))
    case Deliver(i) =>
      if !s.lock.Sending? || !(1 <= i < s.lock.active <= |s.list|) then s
      else
        var l := s.lock.ledger;
        s.(list := Swapped(s.list, i, s.lock.active - 1),
           lock := s.lock.(active := s.lock.active - 1, nsent := s.lock.nsent + 1,
                           ledger := l.(got := l.got + multiset{s.list[i]}, values := l.values + {s.lock.value})))
    case TakeRequest(id) =>
      if id !in s.subs || !s.subs[id].phase.Waiting? || !s.lock.Sending? || s.lock.active <= 1 then s
      else Removed(s, id)
    case Release => if s.lock.Sending? && s.lock.active == 1 then s.(lock := Free) else s
  }

  ghost function Run(s: State, actions: seq<Action>): State {
    if actions == [] then s else Do(Run(s, actions[..|actions| - 1]), actions[|actions| - 1])
  }

  // ---------------------------------------------------------------- the invariant

  /** Subscriptions on ch whose Unsubscribe has not returned. */
  ghost function Open(subs: map<nat, Sub>, ch: Chan): set<nat> {
    set id | id in subs && subs[id].ch == ch && !subs[id].phase.Gone?
  }

  ghost function Waits(subs: map<nat, Sub>, ch: Chan): set<nat> {
    set id | id in subs && subs[id].ch == ch && subs[id].phase.Waiting?
  }

  /** Each open subscription on ch is in exactly one of inbox and list, and the
      waiting ones are in the list. */
  ghost predicate Counted(s: State, ch: Chan)
    requires |s.list| > 0
  {
    && multiset(s.inbox)[ch] + Subs(s.list, |s.list|)[ch] == |Open(s.subs, ch)|
    && |Waits(s.subs, ch)| <= Subs(s.list, |s.list|)[ch]
  }

  ghost predicate ListOk(s: State) {
    && |s.list| > 0 && s.list[0] == REMOVE_SUB && (forall i :: 1 <= i < |s.list| ==> s.list[i] != REMOVE_SUB)
    && REMOVE_SUB !in s.inbox && (forall id :: id in s.subs ==> s.subs[id].ch != REMOVE_SUB)
  }

  ghost predicate Inv(s: State) {
    && !s.panicked && ListOk(s)
    && (forall ch: Chan :: Counted(s, ch))
    && (s.lock.Sending? ==> Balanced(s.lock.ledger, s.list, s.lock.active, s.lock.value, s.lock.nsent))
  }

  lemma OpenedWaits(subs: map<nat, Sub>, id: nat, ch: Chan, c: Chan)
    requires id !in subs
    ensures Waits(subs[id := Sub(ch, Live)], c) == Waits(subs, c)
  {
  }

  lemma Opened(subs: map<nat, Sub>, id: nat, ch: Chan, c: Chan)
    requires id !in subs
    ensures |Open(subs[id := Sub(ch, Live)], c)| == |Open(subs, c)| + if c == ch then 1 else 0
  {
    var t := subs[id := Sub(ch, Live)];
    assert Open(t, c) == if c == ch then Open(subs, c) + {id} else Open(subs, c);
  }

  lemma StartsWaiting(subs: map<nat, Sub>, id: nat, c: Chan)
    requires id in subs && subs[id].phase.Live?
    ensures var t := subs[id := subs[id].(phase := Waiting)];
            && Open(t, c) == Open(subs, c) && Waits(t, c) <= Open(t, c)
            && |Waits(t, c)| <= |Open(t, c)|
            && (c != subs[id].ch ==> Waits(t, c) == Waits(subs, c))
  {
    var t := subs[id := subs[id].(phase := Waiting)];
    assert Open(t, c) == Open(subs, c);
    SubsetSize(Waits(t, c), Open(t, c));
    assert c != subs[id].ch ==> Waits(t, c) == Waits(subs, c);
  }

  lemma {:induction false} SubsetSize(a: set<nat>, b: set<nat>)
    requires a <= b
    ensures |a| <= |b|
  {
    assert b == a + (b - a);
  }

  lemma Leaves(subs: map<nat, Sub>, id: nat, c: Chan)
    requires id in subs && !subs[id].phase.Gone?
    ensures var t := subs[id := subs[id].(phase := Gone)];
            var one := if c == subs[id].ch then 1 else 0;
            && |Open(t, c)| == |Open(subs, c)| - one
            && |Waits(t, c)| == |Waits(subs, c)| - if subs[id].phase.Waiting? then one else 0
  {
    var t := subs[id := subs[id].(phase := Gone)];
    if c == subs[id].ch {
      assert id in Open(subs, c);
      assert Open(t, c) == Open(subs, c) - {id};
      assert Waits(t, c) == Waits(subs, c) - {id};
    } else {
      assert Open(t, c) == Open(subs, c);
      assert Waits(t, c) == Waits(subs, c);
    }
  }

  lemma InvSubscribe(s: State, id: nat, ch: Chan)
    requires Inv(s)
    ensures Inv(Do(s, Subscribe(id, ch)))
  {
    var t := Do(s, Subscribe(id, ch));
    if id !in s.subs && ch != REMOVE_SUB {
      forall c: Chan
        ensures Counted(t, c)
      {
        assert Counted(s, c);
        Opened(s.subs, id, ch, c);
        OpenedWaits(s.subs, id, ch, c);
        assert multiset(t.inbox) == multiset(s.inbox) + multiset{ch};
      }
    }
  }

  lemma InvUnsubscribe(s: State, id: nat)
    requires Inv(s)
    ensures Inv(Do(s, Unsubscribe(id)))
  {
    var t := Do(s, Unsubscribe(id));
    if id in s.subs && s.subs[id].phase.Live? {
      var ch := s.subs[id].ch;
      var index := FindIndex(s.inbox, ch);
      forall c: Chan
        ensures Counted(t, c)
      {
        assert Counted(s, c);
        if index == -1 {
          StartsWaiting(s.subs, id, c);
          assert multiset(s.inbox)[ch] == 0;
        } else {
          Leaves(s.subs, id, c);
          InboxDeleted(s.inbox, index);
          assert multiset(t.inbox)[c] == multiset(s.inbox)[c] - if c == ch then 1 else 0;
        }
      }
    }
  }

  /** A waiting remove always finds its channel, beyond slot 0. */
  lemma WaitingIsListed(s: State, id: nat)
    requires Inv(s) && id in s.subs && s.subs[id].phase.Waiting?
    ensures 1 <= FindIndex(s.list, s.subs[id].ch) < |s.list|
  {
    var ch := s.subs[id].ch;
    assert Counted(s, ch);
    assert id in Waits(s.subs, ch);
    assert ch in s.list[1..|s.list|];
  }

  /** Taking a waiting subscriber out of list and books keeps the counts. */
  lemma RemovedList(s: State, id: nat, index: nat, lock: Lock)
    requires ListOk(s) && (forall ch: Chan :: Counted(s, ch)) && id in s.subs && s.subs[id].phase.Waiting?
    requires 1 <= index < |s.list| && s.list[index] == s.subs[id].ch
    ensures var t := s.(list := DeleteAt(s.list, index), subs := s.subs[id := s.subs[id].(phase := Gone)],
                        lock := lock);
            ListOk(t) && forall ch: Chan :: Counted(t, ch)
  {
    var ch, list, subs := s.subs[id].ch, DeleteAt(s.list, index), s.subs[id := s.subs[id].(phase := Gone)];
    var t := s.(list := list, subs := subs, lock := lock);
    DeleteRemoves(s.list, index, |s.list|, |s.list|);
    forall c: Chan
      ensures Counted(t, c)
    {
      assert Counted(s, c);
      Leaves(s.subs, id, c);
      assert (Subs(list, |list|) + multiset{ch})[c] == Subs(s.list, |s.list|)[c];
    }
  }

  lemma InvRemoved(s: State, id: nat)
    requires Inv(s) && id in s.subs && s.subs[id].phase.Waiting?
    requires s.lock.Sending? ==> s.lock.active > 1
    ensures Inv(Removed(s, id))
  {
    var t, ch := Removed(s, id), s.subs[id].ch;
    WaitingIsListed(s, id);
    var index := FindIndex(s.list, ch);
    RemovedList(s, id, index, t.lock);
    assert t == s.(list := DeleteAt(s.list, index), subs := s.subs[id := s.subs[id].(phase := Gone)], lock := t.lock);
    if s.lock.Sending? {
      var Sending(m, value, nsent, l) := s.lock;
      Removes(l, s.list, m, value, nsent, index);
      var l' := l.(removed := l.removed + multiset{ch});
      assert t.lock == if index < m then Sending(m - 1, value, nsent, l'.(dropped := l.dropped + multiset{ch}))
                       else Sending(m, value, nsent, l');
      assert Balanced(t.lock.ledger, t.list, t.lock.active, value, nsent);
    }
  }

  lemma InvMerge(s: State, value: Value)
    requires Inv(s)
    ensures Inv(Do(s, Merge(value)))
  {
    var t := Do(s, Merge(value));
    if s.lock.Taken? {
      assert (s.list + s.inbox)[1..] == s.list[1..] + s.inbox;
      assert t.list[1..|t.list|] == s.list[1..|s.list|] + s.inbox;
      forall c: Chan
        ensures Counted(t, c)
      {
        assert Counted(s, c);
      }
    }
  }

  lemma InvDeliver(s: State, i: nat)
    requires Inv(s)
    ensures Inv(Do(s, Deliver(i)))
  {
    var t := Do(s, Deliver(i));
    if s.lock.Sending? && 1 <= i < s.lock.active <= |s.list| {
      var Sending(m, value, nsent, l) := s.lock;
      Delivers(l, s.list, m, value, nsent, i);
      SwappedList(s, i, m, t.lock);
      assert t == s.(list := Swapped(s.list, i, m - 1), lock := t.lock);
      var l' := l.(got := l.got + multiset{s.list[i]}, values := l.values + {value});
      assert t.lock == Sending(m - 1, value, nsent + 1, l');
      assert Balanced(l', t.list, m - 1, value, nsent + 1);
    }
  }

  /** Moving a case to the end of the active prefix changes nobody's count. */
  lemma SwappedList(s: State, i: nat, m: nat, lock: Lock)
    requires ListOk(s) && (forall ch: Chan :: Counted(s, ch)) && 1 <= i < m <= |s.list|
    ensures var t := s.(list := Swapped(s.list, i, m - 1), lock := lock);
            ListOk(t) && forall ch: Chan :: Counted(t, ch)
  {
    var t := s.(list := Swapped(s.list, i, m - 1), lock := lock);
    SwapHides(s.list, i, m, |s.list|);
    forall c: Chan
      ensures Counted(t, c)
    {
      assert Counted(s, c);
    }
  }

  lemma InvStep(s: State, a: Action)
    requires Inv(s)
    ensures Inv(Do(s, a))
  {
    match a {
      case Subscribe(id, ch) => InvSubscribe(s, id, ch);
      case Unsubscribe(id) => InvUnsubscribe(s, id);
      case RemoveHoldingLock(id) =>
        if id in s.subs && s.subs[id].phase.Waiting? && s.lock.Free? {
          InvRemoved(s, id);
        }
      case TakeLock => InvLockOnly(s, Do(s, a));
      case Merge(value) => InvMerge(s, value);
      case Deliver(i) => InvDeliver(s, i);
      case TakeRequest(id) =>
        if id in s.subs && s.subs[id].phase.Waiting? && s.lock.Sending? && s.lock.active > 1 {
          InvRemoved(s, id);
        }
      case Release => InvLockOnly(s, Do(s, a));
    }
  }

  lemma InvLockOnly(s: State, t: State)
    requires Inv(s) && t == s.(lock := t.lock) && (t.lock.Sending? ==> t == s)
    ensures Inv(t)
  {
    forall c: Chan
      ensures Counted(t, c)
    {
      assert Counted(s, c);
    }
  }

  const INITIAL := State([], [REMOVE_SUB], map[], Free, false)

  lemma InitialInv()
    ensures Inv(INITIAL)
  {
  }

  /** In every reachable state each open subscription is in exactly one of inbox and
      sendCases, waiting ones in sendCases, no delete has panicked, and a Send in
      progress has its books balanced. */
  lemma {:induction false} ReachableInv(actions: seq<Action>)
    ensures Inv(Run(INITIAL, actions))
  {
    if actions == [] {
      InitialInv();
    } else {
      ReachableInv(actions[..|actions| - 1]);
      InvStep(Run(INITIAL, actions[..|actions| - 1]), actions[|actions| - 1]);
    }
  }

  /** A channel all of whose Unsubscribe calls have returned receives nothing. */
  lemma NoDeliveryAfterUnsubscribe(actions: seq<Action>, i: nat)
    ensures var s := Run(INITIAL, actions);
            Do(s, Deliver(i)) != s ==> 1 <= i < |s.list| && Open(s.subs, s.list[i]) != {}
  {
    var s := Run(INITIAL, actions);
    ReachableInv(actions);
    if Do(s, Deliver(i)) != s {
      assert Counted(s, s.list[i]);
      assert s.list[i] in s.list[1..|s.list|] by {
        assert s.list[1..|s.list|][i - 1] == s.list[i];
      }
    }
  }

  /** A Send that can release the lock has served every channel that stayed subscribed
      exactly once and every removed one at most once, and counted right. */
  lemma SendIsExact(actions: seq<Action>, ch: Chan)
    ensures var s := Run(INITIAL, actions);
            s.lock.Sending? && s.lock.active == 1 ==>
              var l := s.lock.ledger;
              && |s.list| > 0 && s.lock.nsent == |l.got| && l.values <= {s.lock.value}
              && (l.removed[ch] == 0 ==> l.got[ch] == l.merged[ch])
              && l.got[ch] <= l.merged[ch] <= l.got[ch] + l.removed[ch]
              && Subs(s.list, |s.list|)[ch] + l.removed[ch] == l.merged[ch]
  {
    var s := Run(INITIAL, actions);
    ReachableInv(actions);
    if s.lock.Sending? && s.lock.active == 1 {
      Settled(s.lock.ledger, s.list, s.lock.value, s.lock.nsent, ch);
    }
  }
}
