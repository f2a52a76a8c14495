/**
 * The trace-time ring as interleaved atomic steps: one writer and any number of readers over
 * slots guarded by a 32-bit sequence word, under sequentially consistent memory.
 */
module SeqLock {
  import opened Domain

  const SIZE: nat := 16384
  const WRAP: nat := 0x1_0000_0000

  /** The slot of a trace id: its low 14 bits. */
  function SlotOf(id: nat): (x: nat)
    ensures x < SIZE
  {
    id % SIZE
  }

  datatype Slot = Slot(sequence: nat, ns: nat, id: nat)

  /** What the writer has done so far of one store, and the sequence value it loaded. */
  datatype Writer =
    | Idle
    | Loaded(id: nat, ns: nat, seen: nat)
    | MarkedOdd(id: nat, ns: nat, seen: nat)
    | WroteNs(id: nat, ns: nat, seen: nat)
    | WroteId(id: nat, ns: nat, seen: nat)

  datatype Reader =
    | Away
    | Trying(id: nat, retry: nat)
    | GotSequence(id: nat, retry: nat, seq1: nat)
    | GotId(id: nat, retry: nat, seq1: nat, storedId: nat)
    | GotNs(id: nat, retry: nat, seq1: nat, storedId: nat, ns: nat)
    | Returned(id: nat, result: Option<nat>)

  datatype State = State(slots: seq<Slot>, writer: Writer, readers: map<nat, Reader>) {

    function Reading(r: nat): Reader {
      if r in readers then readers[r] else Away
    }
  }

  /** One atomic step of the writer or of one reader. */
  datatype Action =
    | BeginStore(id: nat, ns: nat)
    | WriterStep
    | BeginLookup(r: nat, id: nat)
    | ReaderStep(r: nat)

  function Initial(): (s: State)
    ensures |s.slots| == SIZE && forall x :: 0 <= x < SIZE ==> s.slots[x] == Slot(0, 0, 0)
  {
    State(seq(SIZE, _ => Slot(0, 0, 0)), Idle, map[])
  }

  function SetSlot(s: State, x: nat, slot: Slot, w: Writer): State
    requires x < |s.slots|
  {
    State(s.slots[x := slot], w, s.readers)
  }

  function WriterNext(s: State): State
    requires |s.slots| == SIZE
  {
    match s.writer
    case Idle => s
    case Loaded(id, ns, seen) =>
      var x := SlotOf(id);
      SetSlot(s, x, s.slots[x].(sequence := (seen + 1) % WRAP), MarkedOdd(id, ns, seen))
    case MarkedOdd(id, ns, seen) =>
      var x := SlotOf(id);
      SetSlot(s, x, s.slots[x].(ns := ns), WroteNs(id, ns, seen))
    case WroteNs(id, ns, seen) =>
      var x := SlotOf(id);
      SetSlot(s, x, s.slots[x].(id := id), WroteId(id, ns, seen))
    case WroteId(id, ns, seen) =>
      var x := SlotOf(id);
      SetSlot(s, x, s.slots[x].(sequence := (seen + 2) % WRAP), Idle)
  }

  /** A failed attempt: after three of them the lookup gives up. */
  function Retry(id: nat, retry: nat): Reader {
    if retry + 1 < 3 then Trying(id, retry + 1) else Returned(id, None)
  }

  function ReaderNext(s: State, reader: Reader): Reader
    requires |s.slots| == SIZE
  {
    match reader
    case Away => reader
    case Returned(_, _) => reader
    case Trying(id, retry) =>
      var seq1 := s.slots[SlotOf(id)].sequence;
      if seq1 % 2 != 0 then Retry(id, retry) else GotSequence(id, retry, seq1)
    case GotSequence(id, retry, seq1) => GotId(id, retry, seq1, s.slots[SlotOf(id)].id)
    case GotId(id, retry, seq1, storedId) => GotNs(id, retry, seq1, storedId, s.slots[SlotOf(id)].ns)
    case GotNs(id, retry, seq1, storedId, ns) =>
      if s.slots[SlotOf(id)].sequence == seq1 then Returned(id, if storedId == id then Some(ns) else None)
      else Retry(id, retry)
  }

  /** The effect of a step; a step that is not enabled changes nothing. */
  function Next(s: State, a: Action): (s': State)
    requires |s.slots| == SIZE
    ensures |s'.slots| == SIZE
  {
    match a
    case BeginStore(id, ns) =>
      if s.writer.Idle? && id != 0 then s.(writer := Loaded(id, ns, s.slots[SlotOf(id)].sequence)) else s
    case WriterStep => WriterNext(s)
    case BeginLookup(r, id) =>
      if s.Reading(r).Away? || s.Reading(r).Returned?
      then s.(readers := s.readers[r := if id == 0 then Returned(0, None) else Trying(id, 0)]) else s
    case ReaderStep(r) => s.(readers := s.readers[r := ReaderNext(s, s.Reading(r))])
  }

  // ---------------------------------------------------------------- runs and their history

  ghost function At(run: seq<Action>, n: nat): (s: State)
    requires n <= |run|
    ensures |s.slots| == SIZE
  {
    if n == 0 then Initial() else Next(At(run, n - 1), run[n - 1])
  }

  /** The writer's next step stores the sequence word of slot `x`. */
  ghost predicate Ticking(w: Writer, x: nat) {
    (w.Loaded? || w.WroteId?) && SlotOf(w.id) == x
  }

  /** How often the sequence word of slot `x` has been stored in the first `n` steps. */
  ghost function Ticks(run: seq<Action>, n: nat, x: nat): nat
    requires n <= |run|
  {
    if n == 0 then 0
    else Ticks(run, n - 1, x) + if run[n - 1].WriterStep? && Ticking(At(run, n - 1).writer, x) then 1 else 0
  }

  /** The last completed store to slot `x`. */
  ghost function LastStored(run: seq<Action>, n: nat, x: nat): Option<(nat, nat)>
    requires n <= |run|
  {
    if n == 0 then None
    else
      var w := At(run, n - 1).writer;
      if run[n - 1].WriterStep? && w.WroteId? && SlotOf(w.id) == x then Some((w.id, w.ns))
      else LastStored(run, n - 1, x)
  }

  ghost predicate Busy(w: Writer, x: nat) {
    (w.MarkedOdd? || w.WroteNs? || w.WroteId?) && SlotOf(w.id) == x
  }

  /** Slot `x` of a state, after `t` stores of its sequence word, when `last` is its last completed store. */
  ghost predicate Consistent(s: State, x: nat, t: nat, last: Option<(nat, nat)>)
    requires |s.slots| == SIZE && x < SIZE
  {
    var slot := s.slots[x];
    && slot.sequence == t % WRAP
    && (t % 2 == 1 <==> Busy(s.writer, x))
    && (!Busy(s.writer, x) ==>
        if last == None then slot.id == 0 else last == Some((slot.id, slot.ns)))
    && (!s.writer.Idle? && SlotOf(s.writer.id) == x ==>
        && s.writer.id != 0
        && s.writer.seen == (if Busy(s.writer, x) then t - 1 else t) % WRAP
        && ((s.writer.WroteNs? || s.writer.WroteId?) ==> slot.ns == s.writer.ns)
        && (s.writer.WroteId? ==> slot.id == s.writer.id))
  }

  /** What holds of slot `x` after every prefix of every run. */
  ghost predicate SlotOk(run: seq<Action>, n: nat, x: nat)
    requires n <= |run| && x < SIZE
  {
    Consistent(At(run, n), x, Ticks(run, n, x), LastStored(run, n, x))
  }

  lemma {:induction false} RemainderIs(a: nat, q: nat, r: nat)
    requires a == WRAP * q + r && r < WRAP
    ensures a % WRAP == r
  {
  }

  /** Counting modulo the word size, which is even. */
  lemma {:induction false} TicksModWrap(t: nat)
    ensures (t % WRAP + 1) % WRAP == (t + 1) % WRAP
    ensures (t % WRAP) % 2 == t % 2
  {
    var q, r := t / WRAP, t % WRAP;
    assert t == WRAP * q + r;
    if r + 1 < WRAP {
      RemainderIs(t + 1, q, r + 1);
    } else {
      RemainderIs(t + 1, q + 1, 0);
    }
  }

  lemma {:induction false} RemaindersApart(a: nat, b: nat)
    requires a <= b < a + WRAP && a % WRAP == b % WRAP
    ensures a == b
  {
  }

  lemma {:induction false} SlotInitiallyOk(run: seq<Action>, x: nat)
    requires x < SIZE
    ensures SlotOk(run, 0, x)
  {
  }

  lemma {:induction false} SlotAlwaysOk(run: seq<Action>, n: nat, x: nat)
    requires n <= |run| && x < SIZE
    ensures SlotOk(run, n, x)
  {
    hide SlotOk, At, Ticks, LastStored;
    SlotInitiallyOk(run, x);
    for i := 0 to n
      invariant SlotOk(run, i, x)
    {
      if run[i].WriterStep? {
        SlotAfterWriter(run, i, x);
      } else {
        SlotAfterOther(run, i, x);
      }
    }
  }

  lemma {:induction false} SlotAfterOther(run: seq<Action>, n: nat, x: nat)
    requires n < |run| && x < SIZE && SlotOk(run, n, x) && !run[n].WriterStep?
    ensures SlotOk(run, n + 1, x)
  {
    hide SlotOf, Ticking;
    assert At(run, n + 1).slots == At(run, n).slots;
    assert At(run, n + 1).writer == At(run, n).writer || (At(run, n).writer.Idle? && At(run, n + 1).writer.Loaded?);
  }

  lemma {:induction false} SlotAfterWriter(run: seq<Action>, n: nat, x: nat)
    requires n < |run| && x < SIZE && SlotOk(run, n, x) && run[n].WriterStep?
    ensures SlotOk(run, n + 1, x)
  {
    hide SlotOf, Consistent;
    var s, t := At(run, n), Ticks(run, n, x);
    WriterKeeps(s, x, t, LastStored(run, n, x));
    hide WriterNext, Ticking;
    assert At(run, n + 1) == WriterNext(s);
  }

  /** One step of the writer, on its own slot or on another. */
  lemma {:induction false} WriterKeeps(s: State, x: nat, t: nat, last: Option<(nat, nat)>)
    requires |s.slots| == SIZE && x < SIZE && Consistent(s, x, t, last)
    ensures var w := s.writer;
      Consistent(WriterNext(s), x, t + if Ticking(w, x) then 1 else 0,
                 if w.WroteId? && SlotOf(w.id) == x then Some((w.id, w.ns)) else last)
  {
    hide SlotOf;
    if s.writer.Loaded? {
      TicksModWrap(t);
    } else if s.writer.WroteId? && t > 0 {
      TwoSteps(t - 1);
    }
  }

  lemma {:induction false} TwoSteps(t: nat)
    ensures (t % WRAP + 2) % WRAP == (t + 2) % WRAP
  {
  }

  lemma {:induction false} TicksGrow(run: seq<Action>, m: nat, n: nat, x: nat)
    requires m <= n <= |run|
    ensures Ticks(run, m, x) <= Ticks(run, n, x)
    decreases n
  {
    if m < n {
      TicksGrow(run, m, n - 1, x);
    }
  }

  /** Between two moments with the same even number of ticks the slot has not changed. */
  lemma {:induction false} SlotStable(run: seq<Action>, m: nat, n: nat, x: nat)
    requires m <= n <= |run| && x < SIZE
    requires Ticks(run, m, x) == Ticks(run, n, x) && Ticks(run, m, x) % 2 == 0
    ensures At(run, m).slots[x] == At(run, n).slots[x]
  {
    hide At, Ticks, SlotOk;
    for i := m to n
      invariant At(run, m).slots[x] == At(run, i).slots[x]
    {
      TicksGrow(run, m, i, x);
      TicksGrow(run, i, i + 1, x);
      TicksGrow(run, i + 1, n, x);
      SlotAlwaysOk(run, i, x);
      QuietStep(run, i, x);
    }
  }

  lemma {:induction false} QuietStep(run: seq<Action>, n: nat, x: nat)
    requires n < |run| && x < SIZE && SlotOk(run, n, x)
    requires Ticks(run, n, x) == Ticks(run, n + 1, x) && Ticks(run, n, x) % 2 == 0
    ensures At(run, n).slots[x] == At(run, n + 1).slots[x]
  {
  }

  // ---------------------------------------------------------------- lookups

  /** The step at which reader `r` last began a lookup. */
  ghost function BeganAt(run: seq<Action>, n: nat, r: nat): (m: nat)
    requires n <= |run|
    ensures m <= n
  {
    if n == 0 then 0
    else if run[n - 1].BeginLookup? && run[n - 1].r == r && (At(run, n - 1).Reading(r).Away? || At(run, n - 1).Reading(r).Returned?)
    then n
    else BeganAt(run, n - 1, r)
  }

  /** The state in which reader `r` last loaded the sequence word for the first time of an attempt. */
  ghost function LoadedAt(run: seq<Action>, n: nat, r: nat): (m: nat)
    requires n <= |run|
    ensures m <= n
  {
    if n == 0 then 0
    else if run[n - 1] == ReaderStep(r) && At(run, n - 1).Reading(r).Trying? then n - 1
    else LoadedAt(run, n - 1, r)
  }

  ghost predicate Attempting(reader: Reader) {
    reader.GotSequence? || reader.GotId? || reader.GotNs?
  }

  /**
   * While an attempt is under way, it loaded the sequence word inside the lookup, and as long as
   * the slot's ticks have not moved since, what it has read so far is the slot of that moment.
   */
  ghost predicate ReaderOk(run: seq<Action>, n: nat, r: nat)
    requires n <= |run|
  {
    var reader := At(run, n).Reading(r);
    && (reader.Trying? ==> reader.id != 0)
    && (Attempting(reader) ==>
        var x, m := SlotOf(reader.id), LoadedAt(run, n, r);
        && reader.id != 0
        && BeganAt(run, n, r) <= m < n
        && reader.seq1 == At(run, m).slots[x].sequence && reader.seq1 % 2 == 0
        && (Ticks(run, n, x) == Ticks(run, m, x) ==>
            && (!reader.GotSequence? ==> reader.storedId == At(run, m).slots[x].id)
            && (reader.GotNs? ==> reader.ns == At(run, m).slots[x].ns)))
  }

  lemma {:induction false} OtherStep(run: seq<Action>, n: nat, r: nat)
    requires n < |run| && run[n] != ReaderStep(r)
    requires !(run[n].BeginLookup? && run[n].r == r)
    ensures At(run, n + 1).Reading(r) == At(run, n).Reading(r)
    ensures LoadedAt(run, n + 1, r) == LoadedAt(run, n, r) && BeganAt(run, n + 1, r) == BeganAt(run, n, r)
  {
  }

  /** What an attempt has read so far stays what its first load promises, whatever others do. */
  lemma {:induction false} AttemptSurvives(run: seq<Action>, n: nat, r: nat)
    requires n < |run| && ReaderOk(run, n, r)
    requires At(run, n + 1).Reading(r) == At(run, n).Reading(r)
    requires LoadedAt(run, n + 1, r) == LoadedAt(run, n, r) && BeganAt(run, n + 1, r) == BeganAt(run, n, r)
    ensures ReaderOk(run, n + 1, r)
  {
    hide At, LoadedAt, BeganAt;
    var reader := At(run, n).Reading(r);
    if Attempting(reader) {
      TicksGrow(run, LoadedAt(run, n, r), n, SlotOf(reader.id));
      TicksGrow(run, n, n + 1, SlotOf(reader.id));
    }
  }

  lemma {:induction false} ReaderMoves(run: seq<Action>, n: nat, r: nat)
    requires n < |run| && run[n] == ReaderStep(r) && ReaderOk(run, n, r)
    ensures ReaderOk(run, n + 1, r)
  {
    var reader := At(run, n).Reading(r);
    assert At(run, n + 1).Reading(r) == ReaderNext(At(run, n), reader);
    assert BeganAt(run, n + 1, r) == BeganAt(run, n, r);
    assert LoadedAt(run, n + 1, r) == if reader.Trying? then n else LoadedAt(run, n, r);
    hide At, LoadedAt, BeganAt;
    if Attempting(reader) {
      var x, m := SlotOf(reader.id), LoadedAt(run, n, r);
      SlotAlwaysOk(run, m, x);
      TicksModWrap(Ticks(run, m, x));
      TicksGrow(run, m, n, x);
      TicksGrow(run, n, n + 1, x);
      if Ticks(run, n, x) == Ticks(run, m, x) {
        SlotStable(run, m, n, x);
      }
    }
  }

  lemma {:induction false} ReaderBegins(run: seq<Action>, n: nat, r: nat)
    requires n < |run| && run[n].BeginLookup? && run[n].r == r && ReaderOk(run, n, r)
    ensures ReaderOk(run, n + 1, r)
  {
  }

  lemma {:induction false} ReaderStarts(run: seq<Action>, r: nat)
    ensures ReaderOk(run, 0, r)
  {
  }

  lemma {:induction false} ReaderWaits(run: seq<Action>, n: nat, r: nat)
    requires n < |run| && ReaderOk(run, n, r) && run[n] != ReaderStep(r)
    requires !(run[n].BeginLookup? && run[n].r == r)
    ensures ReaderOk(run, n + 1, r)
  {
    hide ReaderOk, SlotOf, At, LoadedAt, BeganAt;
    OtherStep(run, n, r);
    AttemptSurvives(run, n, r);
  }

  lemma {:induction false} ReaderAlwaysOk(run: seq<Action>, n: nat, r: nat)
    requires n <= |run|
    ensures ReaderOk(run, n, r)
    decreases n
  {
    hide ReaderOk, SlotOf, At, LoadedAt, BeganAt;
    if n == 0 {
      ReaderStarts(run, r);
    } else {
      ReaderAlwaysOk(run, n - 1, r);
      if run[n - 1] == ReaderStep(r) {
        ReaderMoves(run, n - 1, r);
      } else if run[n - 1].BeginLookup? && run[n - 1].r == r {
        ReaderBegins(run, n - 1, r);
      } else {
        ReaderWaits(run, n - 1, r);
      }
    }
  }

  /** Reader `r` returns from its lookup at step `n`. */
  ghost predicate Returns(run: seq<Action>, n: nat, r: nat)
    requires n < |run|
  {
    && At(run, n + 1).Reading(r).Returned? && !At(run, n).Reading(r).Returned? && !At(run, n).Reading(r).Away?
  }

  lemma {:induction false} SameTicks(run: seq<Action>, m: nat, n: nat, x: nat)
    requires m <= n <= |run| && x < SIZE
    requires At(run, m).slots[x].sequence == At(run, n).slots[x].sequence
    requires Ticks(run, n, x) - Ticks(run, m, x) < WRAP
    ensures Ticks(run, m, x) == Ticks(run, n, x)
  {
    SlotAlwaysOk(run, m, x);
    SlotAlwaysOk(run, n, x);
    TicksGrow(run, m, n, x);
    RemaindersApart(Ticks(run, m, x), Ticks(run, n, x));
  }

  lemma {:induction false} ReturnStep(run: seq<Action>, n: nat, r: nat)
    requires n < |run| && Returns(run, n, r)
    ensures var before, done := At(run, n).Reading(r), At(run, n + 1).Reading(r);
      done.id == before.id && (done.result.Some? ==>
        && before.GotNs? && before.storedId == before.id && done.result == Some(before.ns)
        && At(run, n).slots[SlotOf(before.id)].sequence == before.seq1)
  {
    hide SlotOf;
  }

  /**
   * A lookup that returns a time returns one that was stored with this very id: at some moment
   * inside the lookup that pair was the committed content of the slot. The sequence word must not
   * wrap around during the lookup.
   */
  lemma {:induction false} LookupLinearizes(run: seq<Action>, n: nat, r: nat) returns (m: nat)
    requires n < |run| && Returns(run, n, r)
    requires var x := SlotOf(At(run, n).Reading(r).id); Ticks(run, n, x) - Ticks(run, BeganAt(run, n, r), x) < WRAP
    ensures var done := At(run, n + 1).Reading(r);
      done.result.Some? ==>
        && BeganAt(run, n, r) <= m <= n
        && Ticks(run, m, SlotOf(done.id)) % 2 == 0
        && LastStored(run, m, SlotOf(done.id)) == Some((done.id, done.result.value))
  {
    ReaderAlwaysOk(run, n, r);
    var reader := At(run, n).Reading(r);
    m := LoadedAt(run, n, r);
    ReturnStep(run, n, r);
    hide At, LoadedAt, BeganAt, SlotOf, Ticks, LastStored, ReaderNext;
    if reader.GotNs? {
      var x := SlotOf(reader.id);
      TicksGrow(run, BeganAt(run, n, r), m, x);
      SlotAlwaysOk(run, m, x);
      TicksModWrap(Ticks(run, m, x));
      if At(run, n).slots[x].sequence == reader.seq1 {
        SameTicks(run, m, n, x);
      }
    }
  }

  /** The attempt under way fails at its next step. */
  ghost predicate AttemptFails(s: State, reader: Reader)
    requires |s.slots| == SIZE
  {
    || (reader.Trying? && s.slots[SlotOf(reader.id)].sequence % 2 != 0)
    || (reader.GotNs? && s.slots[SlotOf(reader.id)].sequence != reader.seq1)
  }

  lemma {:induction false} OnlyReaderReturns(run: seq<Action>, n: nat, r: nat)
    requires n < |run| && Returns(run, n, r)
    ensures run[n] == ReaderStep(r)
    ensures At(run, n + 1).Reading(r) == ReaderNext(At(run, n), At(run, n).Reading(r))
  {
  }

  /**
   * A lookup that returns nothing either saw, at some moment inside the lookup, a slot whose
   * committed content has another id, or its third attempt failed.
   */
  lemma {:induction false} MissExplained(run: seq<Action>, n: nat, r: nat) returns (m: nat)
    requires n < |run| && Returns(run, n, r)
    requires var x := SlotOf(At(run, n).Reading(r).id); Ticks(run, n, x) - Ticks(run, BeganAt(run, n, r), x) < WRAP
    ensures var before, done := At(run, n).Reading(r), At(run, n + 1).Reading(r);
      done.result == None ==>
        || (before.retry >= 2 && AttemptFails(At(run, n), before))
        || (BeganAt(run, n, r) <= m <= n
            && Ticks(run, m, SlotOf(done.id)) % 2 == 0
            && forall ns :: LastStored(run, m, SlotOf(done.id)) != Some((done.id, ns)))
  {
    ReaderAlwaysOk(run, n, r);
    var reader := At(run, n).Reading(r);
    m := LoadedAt(run, n, r);
    OnlyReaderReturns(run, n, r);
    hide At, LoadedAt, BeganAt, SlotOf, Ticks, LastStored;
    if reader.GotNs? && !AttemptFails(At(run, n), reader) {
      var x := SlotOf(reader.id);
      TicksGrow(run, BeganAt(run, n, r), m, x);
      SlotAlwaysOk(run, m, x);
      TicksModWrap(Ticks(run, m, x));
      SameTicks(run, m, n, x);
    }
  }

  /** An attempt fails only when a store to the slot is under way or has moved its sequence word since. */
  lemma {:induction false} FailedAttemptSawStore(run: seq<Action>, n: nat, r: nat)
    requires n <= |run| && AttemptFails(At(run, n), At(run, n).Reading(r))
    ensures var x := SlotOf(At(run, n).Reading(r).id);
      if At(run, n).Reading(r).Trying? then Ticks(run, n, x) % 2 == 1
      else BeganAt(run, n, r) <= LoadedAt(run, n, r) < n && Ticks(run, n, x) != Ticks(run, LoadedAt(run, n, r), x)
  {
    var reader := At(run, n).Reading(r);
    var x, m := SlotOf(reader.id), LoadedAt(run, n, r);
    ReaderAlwaysOk(run, n, r);
    SlotAlwaysOk(run, n, x);
    hide At, LoadedAt, BeganAt, SlotOf, Ticks, LastStored;
    TicksModWrap(Ticks(run, n, x));
    if reader.GotNs? {
      SlotAlwaysOk(run, m, x);
    }
  }

  /** No store to the reader's slot is under way or has happened since its lookup began. */
  ghost predicate Undisturbed(run: seq<Action>, n: nat, r: nat)
    requires n <= |run| && !At(run, n).Reading(r).Away?
  {
    var x, b := SlotOf(At(run, n).Reading(r).id), BeganAt(run, n, r);
    Ticks(run, b, x) % 2 == 0 && Ticks(run, n, x) == Ticks(run, b, x)
  }

  ghost predicate Active(reader: Reader) {
    reader.Trying? || Attempting(reader)
  }

  lemma {:induction false} UndisturbedBefore(run: seq<Action>, n: nat, r: nat)
    requires n < |run| && Active(At(run, n).Reading(r)) && Active(At(run, n + 1).Reading(r))
    requires Undisturbed(run, n + 1, r)
    ensures Undisturbed(run, n, r) && BeganAt(run, n + 1, r) == BeganAt(run, n, r)
    ensures At(run, n + 1).Reading(r).id == At(run, n).Reading(r).id
    ensures At(run, n + 1).Reading(r).retry == At(run, n).Reading(r).retry || AttemptFails(At(run, n), At(run, n).Reading(r))
  {
    hide SlotOf, Ticks;
    TicksGrow(run, BeganAt(run, n, r), n, SlotOf(At(run, n).Reading(r).id));
    TicksGrow(run, n, n + 1, SlotOf(At(run, n).Reading(r).id));
  }

  lemma {:induction false} UndisturbedNeverFails(run: seq<Action>, n: nat, r: nat)
    requires n <= |run| && Active(At(run, n).Reading(r)) && Undisturbed(run, n, r)
    ensures !AttemptFails(At(run, n), At(run, n).Reading(r))
  {
    if AttemptFails(At(run, n), At(run, n).Reading(r)) {
      FailedAttemptSawStore(run, n, r);
      var x, m := SlotOf(At(run, n).Reading(r).id), LoadedAt(run, n, r);
      hide At, LoadedAt, BeganAt, SlotOf, Ticks;
      if At(run, n).Reading(r).GotNs? {
        TicksGrow(run, BeganAt(run, n, r), m, x);
        TicksGrow(run, m, n, x);
      }
    }
  }

  lemma {:induction false} UndisturbedFirstAttempt(run: seq<Action>, n: nat, r: nat)
    requires n <= |run| && Active(At(run, n).Reading(r)) && Undisturbed(run, n, r)
    ensures At(run, n).Reading(r).retry == 0
    decreases n
  {
    if n > 0 && Active(At(run, n - 1).Reading(r)) {
      UndisturbedBefore(run, n - 1, r);
      UndisturbedNeverFails(run, n - 1, r);
      UndisturbedFirstAttempt(run, n - 1, r);
    } else {
      hide SlotOf;
    }
  }

  /**
   * A lookup during which no store touches the slot returns on its first attempt, with exactly
   * the time of the slot's last store when that store had this id, and nothing otherwise.
   */
  lemma {:induction false} QuietLookupExact(run: seq<Action>, n: nat, r: nat)
    requires n < |run| && Returns(run, n, r) && Undisturbed(run, n, r)
    ensures At(run, n).Reading(r).retry == 0
    ensures var done := At(run, n + 1).Reading(r);
      var last := LastStored(run, BeganAt(run, n, r), SlotOf(done.id));
      done.result == if last.Some? && last.value.0 == done.id then Some(last.value.1) else None
  {
    var reader := At(run, n).Reading(r);
    var x, b, m := SlotOf(reader.id), BeganAt(run, n, r), LoadedAt(run, n, r);
    ReaderAlwaysOk(run, n, r);
    UndisturbedNeverFails(run, n, r);
    UndisturbedFirstAttempt(run, n, r);
    OnlyReaderReturns(run, n, r);
    hide At, LoadedAt, BeganAt, SlotOf, Ticks, LastStored;
    if reader.GotNs? {
      TicksGrow(run, b, m, x);
      TicksGrow(run, m, n, x);
      SlotStable(run, b, m, x);
      SlotAlwaysOk(run, b, x);
    }
  }
}
