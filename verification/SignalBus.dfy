/** The re-entrant signal bus: signals published by a handler are queued and dispatched afterwards. */
module SignalBus {

  datatype Signal = Signal(kind: int, ticker: string, price: real)

  type SubscriptionId = nat

  /** What a handler may do to the bus while it runs. */
  datatype Action = Publish(signal: Signal) | Subscribe | Unsubscribe(id: SubscriptionId)

  datatype Reaction = Reaction(actions: seq<Action>, throws: bool)

  /**
   * Handlers with arbitrary state of their own: what the `k`-th handler call in the life of the
   * bus does, when it calls subscriber `id` with a signal.
   */
  type Handlers = (nat, SubscriptionId, Signal) -> Reaction

  // ---------------------------------------------------------------- what one round does

  /** The signals published by the first `n` actions. */
  ghost function Published(actions: seq<Action>, n: nat): seq<Signal>
    requires n <= |actions|
  {
    if n == 0 then []
    else Published(actions, n - 1) + if actions[n - 1].Publish? then [actions[n - 1].signal] else []
  }

  datatype Roster = Roster(ids: seq<SubscriptionId>, next: SubscriptionId) {

    ghost predicate Valid() {
      && (forall i, j :: 0 <= i < j < |ids| ==> ids[i] < ids[j])
      && (forall i :: 0 <= i < |ids| ==> ids[i] < next)
    }
  }

  ghost function Without(ids: seq<SubscriptionId>, id: SubscriptionId, n: nat): seq<SubscriptionId>
    requires n <= |ids|
  {
    if n == 0 then [] else Without(ids, id, n - 1) + if ids[n - 1] == id then [] else [ids[n - 1]]
  }

  ghost function Change(r: Roster, a: Action): Roster {
    match a
    case Publish(_) => r
    case Subscribe => Roster(r.ids + [r.next], r.next + 1)
    case Unsubscribe(id) => Roster(Without(r.ids, id, |r.ids|), r.next)
  }

  ghost function Changes(r: Roster, actions: seq<Action>, n: nat): Roster
    requires n <= |actions|
  {
    if n == 0 then r else Change(Changes(r, actions, n - 1), actions[n - 1])
  }

  /** One uninterrupted pass over a snapshot of the subscribers, starting with handler call `first`. */
  datatype Round = Round(signal: Signal, listeners: seq<SubscriptionId>, first: nat) {

    ghost function Actions(h: Handlers, j: nat): seq<Action>
      requires j < |listeners|
    {
      h(first + j, listeners[j], signal).actions
    }

    /** The signals its first `n` handlers publish, in order. */
    ghost function Emitted(h: Handlers, n: nat): seq<Signal>
      requires n <= |listeners|
    {
      if n == 0 then [] else Emitted(h, n - 1) + Published(Actions(h, n - 1), |Actions(h, n - 1)|)
    }

    ghost function RosterAfter(h: Handlers, r: Roster, n: nat): Roster
      requires n <= |listeners|
    {
      if n == 0 then r else Changes(RosterAfter(h, r, n - 1), Actions(h, n - 1), |Actions(h, n - 1)|)
    }

    ghost function Calls(n: nat): seq<(SubscriptionId, Signal)>
      requires n <= |listeners|
    {
      if n == 0 then [] else Calls(n - 1) + [(listeners[n - 1], signal)]
    }
  }

  // ---------------------------------------------------------------- what a whole publish does

  ghost function AllEmitted(h: Handlers, rounds: seq<Round>, n: nat): seq<Signal>
    requires n <= |rounds|
  {
    if n == 0 then [] else AllEmitted(h, rounds, n - 1) + rounds[n - 1].Emitted(h, |rounds[n - 1].listeners|)
  }

  ghost function AllCalls(rounds: seq<Round>, n: nat): seq<(SubscriptionId, Signal)>
    requires n <= |rounds|
  {
    if n == 0 then [] else AllCalls(rounds, n - 1) + rounds[n - 1].Calls(|rounds[n - 1].listeners|)
  }

  ghost function RosterAt(h: Handlers, r: Roster, rounds: seq<Round>, n: nat): Roster
    requires n <= |rounds|
  {
    if n == 0 then r else rounds[n - 1].RosterAfter(h, RosterAt(h, r, rounds, n - 1), |rounds[n - 1].listeners|)
  }

  /**
   * The `n`-th round is the next one in breadth-first order: its signal is the `n`-th of the outer
   * signal and everything emitted in earlier rounds, its listeners are the subscribers at that time.
   */
  ghost predicate InOrder(h: Handlers, sig: Signal, r: Roster, k: nat, rounds: seq<Round>, n: nat)
    requires n < |rounds|
  {
    && n <= |AllEmitted(h, rounds, n)|
    && rounds[n].signal == ([sig] + AllEmitted(h, rounds, n))[n]
    && rounds[n].listeners == RosterAt(h, r, rounds, n).ids
    && rounds[n].first == k + |AllCalls(rounds, n)|
  }

  ghost predicate BreadthFirst(h: Handlers, sig: Signal, r: Roster, k: nat, rounds: seq<Round>) {
    forall n :: 0 <= n < |rounds| ==> InOrder(h, sig, r, k, rounds, n)
  }

  /** Nothing emitted is left without its round. */
  ghost predicate Complete(h: Handlers, rounds: seq<Round>) {
    |rounds| == 1 + |AllEmitted(h, rounds, |rounds|)|
  }

  /** Handlers publish only signals of lower rank, so cascades cannot go on for ever. */
  ghost predicate Falling(h: Handlers, rank: Signal -> nat) {
    forall k: nat, id: SubscriptionId, s: Signal, i: nat ::
      i < |h(k, id, s).actions| && h(k, id, s).actions[i].Publish? ==> rank(h(k, id, s).actions[i].signal) < rank(s)
  }

  ghost predicate Below(rank: Signal -> nat, signals: seq<Signal>, bound: int) {
    forall i :: 0 <= i < |signals| ==> rank(signals[i]) < bound
  }

  lemma {:induction false} EmptyBelow(rank: Signal -> nat, bound: int)
    ensures Below(rank, [], bound)
  {
  }

  lemma {:induction false} BelowJoins(rank: Signal -> nat, a: seq<Signal>, b: seq<Signal>, bound: int)
    requires Below(rank, a, bound) && Below(rank, b, bound)
    ensures Below(rank, a + b, bound)
  {
  }

  lemma {:induction false} PublishedBelow(h: Handlers, rank: Signal -> nat, k: nat, id: SubscriptionId, s: Signal, n: nat)
    requires Falling(h, rank) && n <= |h(k, id, s).actions|
    ensures Below(rank, Published(h(k, id, s).actions, n), rank(s))
    decreases n
  {
    if n > 0 {
      PublishedBelow(h, rank, k, id, s, n - 1);
    }
  }

  lemma {:induction false} WithoutAbsent(ids: seq<SubscriptionId>, id: SubscriptionId, n: nat)
    requires n <= |ids| && forall j :: 0 <= j < n ==> ids[j] != id
    ensures Without(ids, id, n) == ids[..n]
    decreases n
  {
    if n > 0 {
      WithoutAbsent(ids, id, n - 1);
    }
  }

  /** Dropping all entries of an id drops just the one at `i` when ids are unique. */
  lemma {:induction false} WithoutAfter(ids: seq<SubscriptionId>, id: SubscriptionId, i: nat, n: nat)
    requires i < n <= |ids| && ids[i] == id && forall j :: 0 <= j < n && j != i ==> ids[j] != id
    ensures Without(ids, id, n) == ids[..i] + ids[i + 1..n]
    decreases n
  {
    if n == i + 1 {
      WithoutAbsent(ids, id, i);
      assert ids[i + 1..n] == [];
    } else {
      WithoutAfter(ids, id, i, n - 1);
      assert ids[i + 1..n] == ids[i + 1..n - 1] + [ids[n - 1]];
    }
  }

  lemma {:induction false} WithoutKeepsOrder(r: Roster, id: SubscriptionId, n: nat)
    requires r.Valid() && n <= |r.ids|
    ensures forall i, j :: 0 <= i < j < |Without(r.ids, id, n)| ==> Without(r.ids, id, n)[i] < Without(r.ids, id, n)[j]
    ensures forall i :: 0 <= i < |Without(r.ids, id, n)| ==> Without(r.ids, id, n)[i] in r.ids[..n]
    decreases n
  {
    if n > 0 {
      WithoutKeepsOrder(r, id, n - 1);
      var w := Without(r.ids, id, n - 1);
      assert r.ids[..n] == r.ids[..n - 1] + [r.ids[n - 1]];
      forall i | 0 <= i < |w| ensures w[i] in r.ids[..n] && w[i] < r.ids[n - 1] {
        assert w[i] in r.ids[..n - 1];
      }
    }
  }

  lemma {:induction false} ChangeKeepsRoster(r: Roster, a: Action)
    requires r.Valid()
    ensures Change(r, a).Valid()
  {
    if a.Unsubscribe? {
      WithoutKeepsOrder(r, a.id, |r.ids|);
      assert r.ids[..|r.ids|] == r.ids;
    }
  }

  // ---------------------------------------------------------------- building up the rounds

  lemma {:induction false} Prefixes(h: Handlers, r: Roster, rounds: seq<Round>, more: seq<Round>, n: nat)
    requires n <= |rounds|
    ensures AllEmitted(h, rounds + more, n) == AllEmitted(h, rounds, n)
    ensures AllCalls(rounds + more, n) == AllCalls(rounds, n)
    ensures RosterAt(h, r, rounds + more, n) == RosterAt(h, r, rounds, n)
    decreases n
  {
    if n > 0 {
      Prefixes(h, r, rounds, more, n - 1);
    }
  }

  /** The queue holds exactly what has been emitted and not yet dispatched. */
  ghost predicate Queued(h: Handlers, sig: Signal, done: seq<Round>, pending: seq<Signal>) {
    var all := [sig] + AllEmitted(h, done, |done|);
    |done| <= |all| && pending == all[|done|..]
  }

  /** The round that dispatches the front of the queue. */
  ghost function NextOf(h: Handlers, r: Roster, k: nat, done: seq<Round>, deferred: Signal): Round {
    Round(deferred, RosterAt(h, r, done, |done|).ids, k + |AllCalls(done, |done|)|)
  }

  lemma {:induction false} NextExtends(h: Handlers, r: Roster, done: seq<Round>, next: Round)
    ensures AllEmitted(h, done + [next], |done| + 1) == AllEmitted(h, done, |done|) + next.Emitted(h, |next.listeners|)
    ensures AllCalls(done + [next], |done| + 1) == AllCalls(done, |done|) + next.Calls(|next.listeners|)
    ensures RosterAt(h, r, done + [next], |done| + 1) == next.RosterAfter(h, RosterAt(h, r, done, |done|), |next.listeners|)
  {
    hide Round.Emitted, Round.Calls, Round.RosterAfter;
    Prefixes(h, r, done, [next], |done|);
    assert (done + [next])[|done|] == next;
  }

  lemma {:induction false} NextQueued(h: Handlers, sig: Signal, r: Roster, done: seq<Round>, next: Round, waiting: seq<Signal>)
    requires Queued(h, sig, done, [next.signal] + waiting)
    ensures Queued(h, sig, done + [next], waiting + next.Emitted(h, |next.listeners|))
    ensures |done| <= |AllEmitted(h, done, |done|)|
    ensures ([sig] + AllEmitted(h, done, |done|))[|done|] == next.signal
  {
    NextExtends(h, r, done, next);
    hide Round.Emitted, AllEmitted;
    var before, emitted := AllEmitted(h, done, |done|), next.Emitted(h, |next.listeners|);
    var all := [sig] + before;
    assert all[|done|..] == [next.signal] + waiting;
    assert all[|done|] == ([next.signal] + waiting)[0];
    assert waiting == all[|done| + 1..];
    assert [sig] + (before + emitted) == all + emitted;
  }

  lemma {:induction false} NextInOrder(h: Handlers, sig: Signal, r: Roster, k: nat, done: seq<Round>, deferred: Signal,
      waiting: seq<Signal>)
    requires BreadthFirst(h, sig, r, k, done) && Queued(h, sig, done, [deferred] + waiting)
    ensures BreadthFirst(h, sig, r, k, done + [NextOf(h, r, k, done, deferred)])
  {
    var next := NextOf(h, r, k, done, deferred);
    var d := done + [next];
    NextQueued(h, sig, r, done, next, waiting);
    hide AllEmitted, AllCalls, RosterAt, Queued;
    forall n | 0 <= n < |d| ensures InOrder(h, sig, r, k, d, n) {
      Prefixes(h, r, done, [next], n);
      assert n < |done| ==> d[n] == done[n] && InOrder(h, sig, r, k, done, n);
    }
  }

  /**
   * Part-way through a publish: the rounds so far are in order, account for every handler call
   * and every roster change since its start, and what they left over is queued.
   */
  ghost predicate Progress(h: Handlers, sig: Signal, r: Roster, k: nat, done: seq<Round>,
                           pending: seq<Signal>, calls: seq<(SubscriptionId, Signal)>, now: Roster) {
    && done != [] && BreadthFirst(h, sig, r, k, done) && Queued(h, sig, done, pending)
    && calls == AllCalls(done, |done|)
    && now == RosterAt(h, r, done, |done|)
  }

  lemma {:induction false} FirstProgress(h: Handlers, sig: Signal, r: Roster, k: nat)
    ensures var round := Round(sig, r.ids, k); var n := |r.ids|;
      Progress(h, sig, r, k, [round], round.Emitted(h, n), round.Calls(n), round.RosterAfter(h, r, n))
  {
  }

  lemma {:induction false} NextProgress(h: Handlers, sig: Signal, r: Roster, k: nat, done: seq<Round>,
                                        deferred: Signal, waiting: seq<Signal>,
                                        calls: seq<(SubscriptionId, Signal)>, now: Roster)
    requires Progress(h, sig, r, k, done, [deferred] + waiting, calls, now)
    ensures var round := Round(deferred, now.ids, k + |calls|); var n := |now.ids|;
      Progress(h, sig, r, k, done + [round], waiting + round.Emitted(h, n), calls + round.Calls(n), round.RosterAfter(h, now, n))
  {
    var round := NextOf(h, r, k, done, deferred);
    NextInOrder(h, sig, r, k, done, deferred, waiting);
    NextQueued(h, sig, r, done, round, waiting);
    NextExtends(h, r, done, round);
    hide Queued, BreadthFirst;
  }

  /** `left` signals of rank at most `bound` come first in the queue, then only lower ranks. */
  ghost predicate Generations(rank: Signal -> nat, pending: seq<Signal>, bound: int, left: nat) {
    && left <= |pending| && (pending != [] ==> left > 0)
    && (forall i :: 0 <= i < left ==> rank(pending[i]) <= bound)
    && (forall i :: left <= i < |pending| ==> rank(pending[i]) < bound)
  }

  /** Dispatching the front signal, which emits lower ranks only, keeps the generations apart. */
  lemma {:induction false} GenerationsAdvance(rank: Signal -> nat, pending: seq<Signal>, bound: int, left: nat, emitted: seq<Signal>)
    requires pending != [] && Generations(rank, pending, bound, left)
    ensures bound >= 0 && left > 0
    ensures Below(rank, emitted, rank(pending[0])) ==>
      var rest := pending[1..] + emitted;
      if left == 1 then Generations(rank, rest, bound - 1, |rest|) else Generations(rank, rest, bound, left - 1)
  {
    assert rank(pending[0]) <= bound;
  }

  // ---------------------------------------------------------------- the bus

  class SignalBus {
    const handlers: Handlers
    var subscribers: seq<SubscriptionId>
    var inPublish: bool
    var pending: seq<Signal>
    var nextId: SubscriptionId
    /** Every handler call so far; its length numbers the next one. */
    var calls: seq<(SubscriptionId, Signal)>
    ghost var rounds: seq<Round>

    constructor (handlers: Handlers)
      ensures this.handlers == handlers
      ensures Who() == Roster([], 0) && Idle() && calls == [] && rounds == []
    {
      this.handlers := handlers;
      subscribers, nextId := [], 0;
      inPublish, pending := false, [];
      calls, rounds := [], [];
    }

    ghost function Who(): Roster
      reads this
    {
      Roster(subscribers, nextId)
    }

    ghost predicate Idle()
      reads this
    {
      !inPublish && pending == []
    }

    method AddSubscriber() returns (id: SubscriptionId)
      modifies this`subscribers, this`nextId
      ensures id == old(nextId) && Who() == Change(old(Who()), Subscribe)
    {
      id := nextId;
      nextId := nextId + 1;
      subscribers := subscribers + [id];
    }

    /** Removes the first entry with this id; ids are unique, so there is no other. */
    method RemoveSubscriber(id: SubscriptionId)
      requires Who().Valid()
      modifies this`subscribers
      ensures Who() == Change(old(Who()), Unsubscribe(id))
    {
      for i := 0 to |subscribers|
        invariant subscribers == old(subscribers) && Without(subscribers, id, i) == subscribers[..i]
        invariant forall j :: 0 <= j < i ==> subscribers[j] != id
      {
        if subscribers[i] == id {
          WithoutAfter(subscribers, id, i, |subscribers|);
          subscribers := subscribers[..i] + subscribers[i + 1..];
          return;
        }
      }
      assert subscribers[..|subscribers|] == subscribers;
    }

    /**
     * Publishes one signal. From inside a handler it only queues. From outside it returns with the
     * bus idle: every signal published meanwhile has had exactly one round, in breadth-first order.
     * When a handler throws, the bus is idle too and the queue has been dropped.
     */
    method PublishSignal(sig: Signal, ghost rank: Signal -> nat) returns (threw: bool)
      requires Falling(handlers, rank) && Who().Valid()
      requires !inPublish ==> pending == []
      modifies this
      ensures Who().Valid()
      ensures old(inPublish) ==>
        && !threw && inPublish && pending == old(pending) + [sig]
        && unchanged(`subscribers) && unchanged(`nextId) && unchanged(`calls) && unchanged(`rounds)
      ensures !old(inPublish) ==> Idle() && old(rounds) <= rounds
      ensures !old(inPublish) && !threw ==>
        var done := rounds[|old(rounds)|..];
        && BreadthFirst(handlers, sig, old(Who()), |old(calls)|, done) && Complete(handlers, done)
        && calls == old(calls) + AllCalls(done, |done|)
        && Who() == RosterAt(handlers, old(Who()), done, |done|)
      decreases if inPublish then 0 else 5
    {
      if inPublish {
        pending := pending + [sig];
        return false;
      }
      ghost var who, k, before := Who(), |calls|, rounds;
      hide Falling, Roster.Valid;
      threw := DispatchOne(sig, rank);
      if threw {
        return;
      }
      ghost var first := Round(sig, who.ids, k);
      FirstProgress(handlers, sig, who, k);
      ghost var done, heard;
      threw, done, heard := Drain(sig, rank, who, before, old(calls), [first], first.Calls(|who.ids|));
      assert !threw ==> rounds[|before|..] == done;
    }

    /** Dispatches queued signals until none is left or a handler throws. */
    method Drain(sig: Signal, ghost rank: Signal -> nat, ghost who: Roster, ghost before: seq<Round>,
                 ghost base: seq<(SubscriptionId, Signal)>, ghost first: seq<Round>,
                 ghost firstHeard: seq<(SubscriptionId, Signal)>)
      returns (threw: bool, ghost done: seq<Round>, ghost heard: seq<(SubscriptionId, Signal)>)
      requires Falling(handlers, rank) && Who().Valid() && !inPublish
      requires rounds == before + first && calls == base + firstHeard
      requires Progress(handlers, sig, who, |base|, first, pending, firstHeard, Who())
      requires Below(rank, pending, rank(sig))
      modifies this
      ensures Idle() && Who().Valid() && before <= rounds
      ensures !threw ==> rounds == before + done && calls == base + heard
      ensures !threw ==> Progress(handlers, sig, who, |base|, done, [], heard, Who())
      decreases 4
    {
      threw, done, heard := false, first, firstHeard;
      // `left` queued signals belong to the current generation, whose ranks are at most `bound`
      ghost var bound: int, left: nat := rank(sig) - 1, |pending|;
      while pending != []
        invariant Who().Valid() && !inPublish
        invariant rounds == before + done && calls == base + heard
        invariant Progress(handlers, sig, who, |base|, done, pending, heard, Who())
        invariant Generations(rank, pending, bound, left)
        decreases bound, left
      {
        hide Progress, Falling, Generations, Below, Roster.Valid;
        ghost var round, extra;
        threw, round, extra, bound, left := Turn(sig, rank, who, |base|, done, heard, bound, left);
        if threw {
          return;
        }
        done, heard := done + [round], heard + extra;
      }
    }

    /** Takes the front signal off the queue and gives it its round. */
    method Turn(ghost sig: Signal, ghost rank: Signal -> nat, ghost who: Roster, ghost k: nat, ghost done: seq<Round>,
                ghost heard: seq<(SubscriptionId, Signal)>, ghost bound: int, ghost left: nat)
      returns (threw: bool, ghost round: Round, ghost extra: seq<(SubscriptionId, Signal)>,
               ghost bound': int, ghost left': nat)
      requires Falling(handlers, rank) && Who().Valid() && !inPublish && pending != [] && |calls| == k + |heard|
      requires Progress(handlers, sig, who, k, done, pending, heard, Who())
      requires Generations(rank, pending, bound, left)
      modifies this
      ensures Who().Valid() && !inPublish && rounds == old(rounds) + [round] && (threw ==> pending == [])
      ensures !threw ==>
        && calls == old(calls) + extra
        && Progress(handlers, sig, who, k, done + [round], pending, heard + extra, Who())
        && Generations(rank, pending, bound', left')
        && bound >= 0 && (bound' < bound || (bound' == bound && left' < left))
      decreases 3
    {
      hide Progress, Falling, Generations, Below, Roster.Valid;
      var deferred := pending[0];
      ghost var now := Who();
      round := Round(deferred, now.ids, k + |heard|);
      extra := round.Calls(|now.ids|);
      assert pending == [deferred] + pending[1..];
      NextProgress(handlers, sig, who, k, done, deferred, pending[1..], heard, now);
      GenerationsAdvance(rank, pending, bound, left, round.Emitted(handlers, |now.ids|));
      pending := pending[1..];
      threw := DispatchOne(deferred, rank);
      bound', left' := if left == 1 then bound - 1 else bound, if left == 1 then |pending| else left - 1;
    }

    method DispatchOne(sig: Signal, ghost rank: Signal -> nat) returns (threw: bool)
      requires Falling(handlers, rank) && Who().Valid() && !inPublish
      modifies this
      ensures !inPublish && Who().Valid()
      ensures var round := Round(sig, old(subscribers), |old(calls)|);
        rounds == old(rounds) + [round]
      ensures threw ==> pending == []
      ensures !threw ==> var round := Round(sig, old(subscribers), |old(calls)|);
        && pending == old(pending) + round.Emitted(handlers, |round.listeners|)
        && calls == old(calls) + round.Calls(|round.listeners|)
        && Who() == round.RosterAfter(handlers, old(Who()), |round.listeners|)
      ensures !threw ==>
        var round := Round(sig, old(subscribers), |old(calls)|);
        Below(rank, round.Emitted(handlers, |round.listeners|), rank(sig))
      decreases 2
    {
      hide Falling, Below, Changes, Published, Roster.Valid;
      EmptyBelow(rank, rank(sig));
      var subs := subscribers;
      threw := false;
      ghost var round := Round(sig, subs, |calls|);
      rounds := rounds + [round];
      inPublish := true;
      for e := 0 to |subs|
        invariant inPublish && Who().Valid()
        invariant rounds == old(rounds) + [round]
        invariant pending == old(pending) + round.Emitted(handlers, e)
        invariant calls == old(calls) + round.Calls(e) && |round.Calls(e)| == e
        invariant Who() == round.RosterAfter(handlers, old(Who()), e)
        invariant Below(rank, round.Emitted(handlers, e), rank(sig))
      {
        ghost var n := |round.Actions(handlers, e)|;
        PublishedBelow(handlers, rank, |calls|, subs[e], sig, n);
        BelowJoins(rank, round.Emitted(handlers, e), Published(round.Actions(handlers, e), n), rank(sig));
        threw := Handle(subs[e], sig, rank);
        if threw {
          inPublish := false;
          pending := [];
          return;
        }
      }
      inPublish := false;
      return false;
    }

    /** One handler call: performs its actions, then returns or throws. */
    method Handle(id: SubscriptionId, sig: Signal, ghost rank: Signal -> nat) returns (threw: bool)
      requires Falling(handlers, rank) && Who().Valid() && inPublish
      modifies this
      ensures inPublish && Who().Valid() && rounds == old(rounds)
      ensures calls == old(calls) + [(id, sig)]
      ensures var reaction := handlers(|old(calls)|, id, sig);
        && threw == reaction.throws
        && pending == old(pending) + Published(reaction.actions, |reaction.actions|)
        && Who() == Changes(old(Who()), reaction.actions, |reaction.actions|)
      decreases 1
    {
      var reaction := handlers(|calls|, id, sig);
      calls := calls + [(id, sig)];
      for i := 0 to |reaction.actions|
        invariant inPublish && Who().Valid() && rounds == old(rounds) && calls == old(calls) + [(id, sig)]
        invariant pending == old(pending) + Published(reaction.actions, i)
        invariant Who() == Changes(old(Who()), reaction.actions, i)
      {
        ChangeKeepsRoster(Who(), reaction.actions[i]);
        match reaction.actions[i]
        case Publish(s) => var _ := PublishSignal(s, rank);
        case Subscribe => var _ := AddSubscriber();
        case Unsubscribe(gone) => RemoveSubscriber(gone);
      }
      return reaction.throws;
    }
  }
}
