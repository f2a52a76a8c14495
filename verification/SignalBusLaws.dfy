/** What the contract of the signal bus means to its subscribers. */
module SignalBusLaws {
  import opened SignalBus

  lemma {:induction false} BuiltFromPrefix(h: Handlers, r: Roster, rounds: seq<Round>, n: nat)
    requires n <= |rounds|
    ensures AllEmitted(h, rounds, n) == AllEmitted(h, rounds[..n], n)
    ensures AllCalls(rounds, n) == AllCalls(rounds[..n], n)
    ensures RosterAt(h, r, rounds, n) == RosterAt(h, r, rounds[..n], n)
  {
    assert rounds == rounds[..n] + rounds[n..];
    Prefixes(h, r, rounds[..n], rounds[n..], n);
  }

  lemma {:induction false} SameHistory(h: Handlers, r: Roster, a: seq<Round>, b: seq<Round>, n: nat)
    requires n <= |a| && n <= |b| && a[..n] == b[..n]
    ensures AllEmitted(h, a, n) == AllEmitted(h, b, n) && AllCalls(a, n) == AllCalls(b, n)
    ensures RosterAt(h, r, a, n) == RosterAt(h, r, b, n)
  {
    hide AllEmitted, AllCalls, RosterAt;
    BuiltFromPrefix(h, r, a, n);
    BuiltFromPrefix(h, r, b, n);
  }

  lemma {:induction false} SamePrefix(h: Handlers, sig: Signal, r: Roster, k: nat, a: seq<Round>, b: seq<Round>, n: nat)
    requires BreadthFirst(h, sig, r, k, a) && BreadthFirst(h, sig, r, k, b)
    requires n <= |a| && n <= |b|
    ensures a[..n] == b[..n]
    decreases n
  {
    hide InOrder, AllEmitted, AllCalls, RosterAt;
    if n > 0 {
      SamePrefix(h, sig, r, k, a, b, n - 1);
      SameHistory(h, r, a, b, n - 1);
      assert InOrder(h, sig, r, k, a, n - 1) && InOrder(h, sig, r, k, b, n - 1);
      SameRound(h, sig, r, k, a, b, n - 1);
      assert a[..n] == a[..n - 1] + [a[n - 1]] && b[..n] == b[..n - 1] + [b[n - 1]];
    }
  }

  lemma {:induction false} SameRound(h: Handlers, sig: Signal, r: Roster, k: nat, a: seq<Round>, b: seq<Round>, n: nat)
    requires n < |a| && n < |b| && InOrder(h, sig, r, k, a, n) && InOrder(h, sig, r, k, b, n)
    requires AllEmitted(h, a, n) == AllEmitted(h, b, n) && AllCalls(a, n) == AllCalls(b, n)
    requires RosterAt(h, r, a, n) == RosterAt(h, r, b, n)
    ensures a[n] == b[n]
  {
  }

  lemma {:induction false} PublishedBeforeItsRound(h: Handlers, sig: Signal, r: Roster, k: nat, rounds: seq<Round>, n: nat)
    requires BreadthFirst(h, sig, r, k, rounds) && n < |rounds|
    ensures n <= |AllEmitted(h, rounds, n)|
  {
    assert InOrder(h, sig, r, k, rounds, n);
  }

  lemma {:induction false} NotShorter(h: Handlers, sig: Signal, r: Roster, k: nat, a: seq<Round>, b: seq<Round>)
    requires BreadthFirst(h, sig, r, k, a) && BreadthFirst(h, sig, r, k, b) && Complete(h, a)
    ensures |b| <= |a|
  {
    if |a| < |b| {
      SamePrefix(h, sig, r, k, a, b, |a|);
      BuiltFromPrefix(h, r, b, |a|);
      assert a[..|a|] == a;
      PublishedBeforeItsRound(h, sig, r, k, b, |a|);
    }
  }

  /** The dispatch order is a function of the handlers, the subscribers and the outer signal. */
  lemma {:induction false} DispatchIsDeterministic(h: Handlers, sig: Signal, r: Roster, k: nat, a: seq<Round>, b: seq<Round>)
    requires BreadthFirst(h, sig, r, k, a) && Complete(h, a)
    requires BreadthFirst(h, sig, r, k, b) && Complete(h, b)
    ensures a == b
  {
    NotShorter(h, sig, r, k, a, b);
    NotShorter(h, sig, r, k, b, a);
    SamePrefix(h, sig, r, k, a, b, |a|);
    assert a[..|a|] == a && b[..|b|] == b;
  }

  ghost function Signals(rounds: seq<Round>, n: nat): seq<Signal>
    requires n <= |rounds|
  {
    if n == 0 then [] else Signals(rounds, n - 1) + [rounds[n - 1].signal]
  }

  lemma {:induction false} SignalAt(rounds: seq<Round>, n: nat)
    requires n <= |rounds|
    ensures |Signals(rounds, n)| == n && forall i :: 0 <= i < n ==> Signals(rounds, n)[i] == rounds[i].signal
    decreases n
  {
    if n > 0 {
      SignalAt(rounds, n - 1);
    }
  }

  lemma {:induction false} EmittedGrows(h: Handlers, rounds: seq<Round>, n: nat, m: nat)
    requires n <= m <= |rounds|
    ensures AllEmitted(h, rounds, n) <= AllEmitted(h, rounds, m)
    decreases m
  {
    if n < m {
      EmittedGrows(h, rounds, n, m - 1);
    }
  }

  /** Every signal published during the run has exactly one round, in the order of publication. */
  lemma {:induction false} EachPublishedOnceInOrder(h: Handlers, sig: Signal, r: Roster, k: nat, rounds: seq<Round>)
    requires BreadthFirst(h, sig, r, k, rounds) && Complete(h, rounds)
    ensures Signals(rounds, |rounds|) == [sig] + AllEmitted(h, rounds, |rounds|)
  {
    SignalAt(rounds, |rounds|);
    var all := [sig] + AllEmitted(h, rounds, |rounds|);
    forall i | 0 <= i < |rounds| ensures rounds[i].signal == all[i] {
      EmittedGrows(h, rounds, i, |rounds|);
      assert InOrder(h, sig, r, k, rounds, i);
    }
  }

  lemma {:induction false} RosterStaysValid(h: Handlers, rounds: seq<Round>, r: Roster, n: nat)
    requires r.Valid() && n <= |rounds|
    ensures RosterAt(h, r, rounds, n).Valid()
    decreases n
  {
    if n > 0 {
      RosterStaysValid(h, rounds, r, n - 1);
      RoundKeepsRoster(h, rounds[n - 1], RosterAt(h, r, rounds, n - 1), |rounds[n - 1].listeners|);
    }
  }

  lemma {:induction false} RoundKeepsRoster(h: Handlers, round: Round, r: Roster, n: nat)
    requires r.Valid() && n <= |round.listeners|
    ensures round.RosterAfter(h, r, n).Valid()
    decreases n
  {
    if n > 0 {
      RoundKeepsRoster(h, round, r, n - 1);
      var actions := round.Actions(h, n - 1);
      ActionsKeepRoster(round.RosterAfter(h, r, n - 1), actions, |actions|);
    }
  }

  lemma {:induction false} ActionsKeepRoster(r: Roster, actions: seq<Action>, n: nat)
    requires r.Valid() && n <= |actions|
    ensures Changes(r, actions, n).Valid()
    decreases n
  {
    if n > 0 {
      ActionsKeepRoster(r, actions, n - 1);
      ChangeKeepsRoster(Changes(r, actions, n - 1), actions[n - 1]);
    }
  }

  /** What subscriber `l` is called with in the first `n` calls, in order. */
  ghost function Heard(calls: seq<(SubscriptionId, Signal)>, l: SubscriptionId, n: nat): seq<Signal>
    requires n <= |calls|
  {
    if n == 0 then [] else Heard(calls, l, n - 1) + if calls[n - 1].0 == l then [calls[n - 1].1] else []
  }

  lemma {:induction false} HeardInFront(a: seq<(SubscriptionId, Signal)>, b: seq<(SubscriptionId, Signal)>,
      l: SubscriptionId, n: nat)
    requires n <= |a|
    ensures Heard(a + b, l, n) == Heard(a, l, n)
    decreases n
  {
    if n > 0 {
      HeardInFront(a, b, l, n - 1);
    }
  }

  lemma {:induction false} HeardJoins(a: seq<(SubscriptionId, Signal)>, b: seq<(SubscriptionId, Signal)>,
      l: SubscriptionId, n: nat)
    requires n <= |b|
    ensures Heard(a + b, l, |a| + n) == Heard(a, l, |a|) + Heard(b, l, n)
    decreases n
  {
    if n == 0 {
      HeardInFront(a, b, l, |a|);
    } else {
      HeardJoins(a, b, l, n - 1);
      assert (a + b)[|a| + n - 1] == b[n - 1];
    }
  }

  lemma {:induction false} CallAt(round: Round, n: nat)
    requires n <= |round.listeners|
    ensures |round.Calls(n)| == n && forall j :: 0 <= j < n ==> round.Calls(n)[j] == (round.listeners[j], round.signal)
    decreases n
  {
    if n > 0 {
      CallAt(round, n - 1);
    }
  }

  /** Listeners are distinct, so a round calls each of them once. */
  lemma {:induction false} HeardInRound(round: Round, l: SubscriptionId, at: nat, n: nat)
    requires at < |round.listeners| && round.listeners[at] == l && n <= |round.listeners|
    requires forall i, j :: 0 <= i < j < |round.listeners| ==> round.listeners[i] < round.listeners[j]
    ensures |round.Calls(|round.listeners|)| == |round.listeners|
    ensures Heard(round.Calls(|round.listeners|), l, n) == if at < n then [round.signal] else []
    decreases n
  {
    CallAt(round, |round.listeners|);
    if n > 0 {
      HeardInRound(round, l, at, n - 1);
      assert at < n - 1 ==> round.listeners[at] < round.listeners[n - 1];
      assert n - 1 < at ==> round.listeners[n - 1] < round.listeners[at];
    }
  }

  lemma {:induction false} HeardInAll(h: Handlers, sig: Signal, r: Roster, k: nat, rounds: seq<Round>, l: SubscriptionId,
      n: nat)
    requires BreadthFirst(h, sig, r, k, rounds) && r.Valid() && n <= |rounds|
    requires forall i :: 0 <= i < |rounds| ==> l in rounds[i].listeners
    ensures Heard(AllCalls(rounds, n), l, |AllCalls(rounds, n)|) == Signals(rounds, n)
    decreases n
  {
    hide AllEmitted, RosterAt, InOrder, Heard;
    if n == 0 {
      assert AllCalls(rounds, 0) == [];
      HeardNothing([], l);
    } else {
      HeardInAll(h, sig, r, k, rounds, l, n - 1);
      assert InOrder(h, sig, r, k, rounds, n - 1);
      RosterStaysValid(h, rounds, r, n - 1);
      HeardOnce(h, sig, r, k, rounds, l, n - 1);
      HeardJoins(AllCalls(rounds, n - 1), rounds[n - 1].Calls(|rounds[n - 1].listeners|), l, |rounds[n - 1].listeners|);
    }
  }

  lemma {:induction false} HeardNothing(calls: seq<(SubscriptionId, Signal)>, l: SubscriptionId)
    ensures Heard(calls, l, 0) == []
  {
  }

  lemma {:induction false} HeardOnce(h: Handlers, sig: Signal, r: Roster, k: nat, rounds: seq<Round>, l: SubscriptionId, n: nat)
    requires n < |rounds| && InOrder(h, sig, r, k, rounds, n) && RosterAt(h, r, rounds, n).Valid()
    requires l in rounds[n].listeners
    ensures |rounds[n].Calls(|rounds[n].listeners|)| == |rounds[n].listeners|
    ensures Heard(rounds[n].Calls(|rounds[n].listeners|), l, |rounds[n].listeners|) == [rounds[n].signal]
  {
    hide AllEmitted, RosterAt, AllCalls, Heard;
    var round := rounds[n];
    var at :| 0 <= at < |round.listeners| && round.listeners[at] == l;
    HeardInRound(round, l, at, |round.listeners|);
  }

  /**
   * All subscribers present throughout are called with the same signals in the same order: the
   * outer signal and then everything published during the run.
   */
  lemma {:induction false} SubscribersHearTheSame(h: Handlers, sig: Signal, r: Roster, k: nat, rounds: seq<Round>,
                                                  l: SubscriptionId, m: SubscriptionId)
    requires BreadthFirst(h, sig, r, k, rounds) && Complete(h, rounds) && r.Valid()
    requires forall i :: 0 <= i < |rounds| ==> l in rounds[i].listeners && m in rounds[i].listeners
    ensures var calls := AllCalls(rounds, |rounds|);
      Heard(calls, l, |calls|) == Heard(calls, m, |calls|) == [sig] + AllEmitted(h, rounds, |rounds|)
  {
    HeardInAll(h, sig, r, k, rounds, l, |rounds|);
    HeardInAll(h, sig, r, k, rounds, m, |rounds|);
    EachPublishedOnceInOrder(h, sig, r, k, rounds);
  }
}
