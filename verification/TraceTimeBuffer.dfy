/** The trace-time ring used from one thread: its fields, written one after another. */
module TraceTimeBuffer {
  import opened Domain
  import opened SeqLock

  /** The position after the last store among the first `n` that used slot `x`; 0 if there is none. */
  ghost function LastAt(stored: seq<(nat, nat)>, x: nat, n: nat): (p: nat)
    requires n <= |stored|
    ensures p <= n
    ensures p > 0 ==> SlotOf(stored[p - 1].0) == x
    ensures forall k :: p <= k < n ==> SlotOf(stored[k].0) != x
  {
    if n == 0 then 0 else if SlotOf(stored[n - 1].0) == x then n else LastAt(stored, x, n - 1)
  }

  /** What a lookup of `id` finds after these stores. */
  ghost function Found(stored: seq<(nat, nat)>, id: nat): Option<nat> {
    var p := LastAt(stored, SlotOf(id), |stored|);
    if p > 0 && stored[p - 1].0 == id then Some(stored[p - 1].1) else None
  }

  /** At rest, slot `x` holds the last store that used it. */
  ghost predicate Holds(stored: seq<(nat, nat)>, x: nat, sequence: nat, ns: nat, id: nat) {
    var p := LastAt(stored, x, |stored|);
    && sequence < WRAP && sequence % 2 == 0
    && if p == 0 then id == 0 else (id, ns) == stored[p - 1]
  }

  class TraceTimeBuffer {
    const sequences: array<nat>
    const times: array<nat>
    const ids: array<nat>
    ghost var stored: seq<(nat, nat)>

    ghost predicate Valid()
      reads this, sequences, times, ids
    {
      && sequences.Length == times.Length == ids.Length == SIZE
      && times != ids && sequences != times && sequences != ids
      && (forall i :: 0 <= i < |stored| ==> stored[i].0 != 0)
      && (forall x :: 0 <= x < SIZE ==> Holds(stored, x, sequences[x], times[x], ids[x]))
    }

    constructor ()
      ensures Valid() && stored == []
      ensures fresh(sequences) && fresh(times) && fresh(ids)
    {
      sequences := new nat[SIZE](_ => 0);
      times := new nat[SIZE](_ => 0);
      ids := new nat[SIZE](_ => 0);
      stored := [];
    }

    /** The invalid id 0 is ignored; any other takes over its slot. */
    method Store(id: nat, ns: nat)
      requires Valid()
      modifies this, sequences, times, ids
      ensures Valid()
      ensures stored == if id == 0 then old(stored) else old(stored) + [(id, ns)]
    {
      if id == 0 {
        return;
      }
      hide SlotOf, Holds;
      var x := SlotOf(id);
      var seen := sequences[x];
      sequences[x] := (seen + 1) % WRAP;
      times[x] := ns;
      ids[x] := id;
      sequences[x] := (seen + 2) % WRAP;
      stored := stored + [(id, ns)];
      forall y | 0 <= y < SIZE ensures Holds(stored, y, sequences[y], times[y], ids[y]) {
        if y == x {
          HoldsOwn(old(stored), id, ns, old(sequences[x]), old(times[x]), old(ids[x]));
        } else {
          HoldsOther(old(stored), id, ns, y, sequences[y], times[y], ids[y]);
        }
      }
    }

    method Lookup(id: nat) returns (ns: Option<nat>)
      requires Valid()
      ensures ns == if id == 0 then None else Found(stored, id)
    {
      if id == 0 {
        return None;
      }
      var x := SlotOf(id);
      for retry := 0 to 3
        invariant retry == 0
      {
        var seq1 := sequences[x];
        if seq1 % 2 != 0 {
          continue;
        }
        var storedId := ids[x];
        var time := times[x];
        var seq2 := sequences[x];
        if seq1 == seq2 {
          return if storedId == id then Some(time) else None;
        }
      }
      return None;
    }
  }

  lemma {:induction false} LastAtUnchanged(stored: seq<(nat, nat)>, more: seq<(nat, nat)>, x: nat, n: nat)
    requires n <= |stored|
    ensures LastAt(stored + more, x, n) == LastAt(stored, x, n)
    decreases n
  {
    if n > 0 {
      LastAtUnchanged(stored, more, x, n - 1);
    }
  }

  lemma {:induction false} StoreTakesSlot(stored: seq<(nat, nat)>, id: nat, ns: nat)
    ensures var after := stored + [(id, ns)];
      forall x: nat :: LastAt(after, x, |after|) == if SlotOf(id) == x then |after| else LastAt(stored, x, |stored|)
  {
    forall x: nat ensures LastAt(stored + [(id, ns)], x, |stored|) == LastAt(stored, x, |stored|) {
      LastAtUnchanged(stored, [(id, ns)], x, |stored|);
    }
  }

  lemma {:induction false} HoldsOwn(stored: seq<(nat, nat)>, id: nat, ns: nat, seen: nat, oldNs: nat, oldId: nat)
    requires Holds(stored, SlotOf(id), seen, oldNs, oldId)
    ensures Holds(stored + [(id, ns)], SlotOf(id), (seen + 2) % WRAP, ns, id)
  {
  }

  lemma {:induction false} HoldsOther(stored: seq<(nat, nat)>, id: nat, ns: nat, x: nat, sequence: nat, oldNs: nat, oldId: nat)
    requires Holds(stored, x, sequence, oldNs, oldId) && x != SlotOf(id)
    ensures Holds(stored + [(id, ns)], x, sequence, oldNs, oldId)
  {
    StoreTakesSlot(stored, id, ns);
  }

  /**
   * With no store in progress a lookup agrees with the last store `j` of its id exactly when no
   * later store used the same slot.
   */
  lemma {:induction false} FoundIffNotEvicted(stored: seq<(nat, nat)>, id: nat, j: nat)
    requires j < |stored| && stored[j].0 == id && forall k :: j < k < |stored| ==> stored[k].0 != id
    ensures Found(stored, id) == Some(stored[j].1) <==> forall k :: j < k < |stored| ==> SlotOf(stored[k].0) != SlotOf(id)
    ensures Found(stored, id) == None || Found(stored, id) == Some(stored[j].1)
  {
  }

  /** The completed stores of the first `n` steps of an interleaved run, in order. */
  ghost function Completed(run: seq<Action>, n: nat): seq<(nat, nat)>
    requires n <= |run|
  {
    if n == 0 then []
    else
      var w := At(run, n - 1).writer;
      Completed(run, n - 1) + if run[n - 1].WriterStep? && w.WroteId? then [(w.id, w.ns)] else []
  }

  /** The interleaved machine and the sequential object agree on what a slot holds. */
  lemma {:induction false} LastStoredIsLastCompleted(run: seq<Action>, n: nat, x: nat)
    requires n <= |run|
    ensures var log := Completed(run, n); var p := LastAt(log, x, |log|);
      LastStored(run, n, x) == if p == 0 then None else Some(log[p - 1])
    decreases n
  {
    hide At, SlotOf;
    if n > 0 {
      LastStoredIsLastCompleted(run, n - 1, x);
      var log, w := Completed(run, n - 1), At(run, n - 1).writer;
      if run[n - 1].WriterStep? && w.WroteId? {
        StoreTakesSlot(log, w.id, w.ns);
        assert Completed(run, n) == log + [(w.id, w.ns)];
      } else {
        assert Completed(run, n) == log + [] == log;
      }
    }
  }
}
