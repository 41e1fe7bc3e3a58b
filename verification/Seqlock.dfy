/** The player snapshot store. */
module Seqlock {
  // A seqlock with one writer and any number of readers, one atomic operation a
  // step.

  /** The published fields: game mode, x, y, z, yaw, pitch, on-ground. */
  const FIELDS: nat := 7

  type Snapshot = s: seq<int> | |s| == FIELDS witness [0, 0, 0, 0, 0, 0, 0]

  /** The writer is idle, or has stored the first `done` fields of `next`. */
  datatype Writer = Idle | Storing(next: Snapshot, done: nat)

  /** A reader in Load: before its first read of the sequence, with the sequence
      it read and the fields loaded since, or returned. */
  datatype Reader =
    | Start
    | Loading(start: nat, loaded: seq<int>)
    | Returned(start: nat, snapshot: seq<int>)

  /** `versions` is history: the complete snapshots, in the order published. */
  datatype State = State(
    sequence: nat, fields: Snapshot, writer: Writer, readers: map<nat, Reader>, versions: seq<Snapshot>)

  const ZERO: Snapshot := [0, 0, 0, 0, 0, 0, 0]

  const START := State(0, ZERO, Idle, map[], [ZERO])

  datatype Step =
    | BeginStore(snapshot: Snapshot)  // sequence.Add(1)
    | StoreField                      // the next field's Store
    | EndStore                        // sequence.Add(1)
    | BeginLoad(reader: nat)          // a call of Load
    | ReadSequence(reader: nat)       // the first sequence.Load
    | LoadField(reader: nat)          // the next field's Load
    | CheckSequence(reader: nat)      // the second sequence.Load

  predicate Is(st: State, r: nat, loading: bool) {
    r in st.readers && (if loading then st.readers[r].Loading? else st.readers[r].Start?)
  }

  predicate Enabled(st: State, step: Step) {
    match step
    case BeginStore(_) => st.writer.Idle?
    case StoreField => st.writer.Storing? && st.writer.done < FIELDS
    case EndStore => st.writer.Storing? && st.writer.done == FIELDS
    case BeginLoad(r) => r !in st.readers || st.readers[r].Returned?
    case ReadSequence(r) => Is(st, r, false)
    case LoadField(r) => Is(st, r, true) && |st.readers[r].loaded| < FIELDS
    case CheckSequence(r) => Is(st, r, true) && |st.readers[r].loaded| == FIELDS
  }

  function SetReader(st: State, r: nat, reader: Reader): State {
    st.(readers := st.readers[r := reader])
  }

  function Do(st: State, step: Step): State
    requires Enabled(st, step)
  {
    match step
    case BeginStore(s) => st.(sequence := st.sequence + 1, writer := Storing(s, 0))
    case StoreField =>
      var k := st.writer.done;
      st.(fields := st.fields[k := st.writer.next[k]], writer := st.writer.(done := k + 1))
    case EndStore =>
      st.(sequence := st.sequence + 1, writer := Idle, versions := st.versions + [st.writer.next])
    case BeginLoad(r) => SetReader(st, r, Start)
    case ReadSequence(r) => if st.sequence % 2 != 0 then st else SetReader(st, r, Loading(st.sequence, []))
    case LoadField(r) =>
      var reader := st.readers[r];
      SetReader(st, r, reader.(loaded := reader.loaded + [st.fields[|reader.loaded|]]))
    case CheckSequence(r) =>
      var reader := st.readers[r];
      if reader.start == st.sequence && st.sequence % 2 == 0 then SetReader(st, r, Returned(reader.start, reader.loaded))
      else SetReader(st, r, Start)
  }

  predicate Runs(st: State, steps: seq<Step>)
    decreases |steps|
  {
    |steps| == 0 || (Enabled(st, steps[0]) && Runs(Do(st, steps[0]), steps[1..]))
  }

  function Run(st: State, steps: seq<Step>): State
    requires Runs(st, steps)
    decreases |steps|
  {
    if |steps| == 0 then st else Run(Do(st, steps[0]), steps[1..])
  }

  /** The last complete snapshot. */
  function Current(st: State): Snapshot
    requires |st.versions| > 0
  {
    st.versions[|st.versions| - 1]
  }

  // ----- the invariant -----

  /** The sequence counts the stores begun and ended, and the fields are the
      current snapshot, overwritten so far by the one being stored. */
  ghost predicate WriterOk(st: State) {
    && |st.versions| > 0
    && match st.writer
       case Idle =>
         st.sequence == 2 * (|st.versions| - 1) && st.fields == Current(st)
       case Storing(next, done) =>
         && st.sequence == 2 * (|st.versions| - 1) + 1
         && done <= FIELDS
         && (forall k | 0 <= k < FIELDS :: st.fields[k] == if k < done then next[k] else Current(st)[k])
  }

  /** A reader's sequence is even and past, and if it is still the present one
      then what was loaded is of the snapshot that was current when it was read. */
  ghost predicate ReaderOk(st: State, reader: Reader) {
    match reader
    case Start => true
    case Loading(start, loaded) =>
      && start % 2 == 0 && start <= st.sequence && start / 2 < |st.versions| && |loaded| <= FIELDS
      && (start == st.sequence ==> loaded == st.versions[start / 2][..|loaded|])
    case Returned(start, snapshot) =>
      start % 2 == 0 && start / 2 < |st.versions| && snapshot == st.versions[start / 2]
  }

  ghost predicate Inv(st: State) {
    WriterOk(st) && forall r | r in st.readers :: ReaderOk(st, st.readers[r])
  }

  lemma StepKeeps(st: State, step: Step)
    requires Inv(st) && Enabled(st, step)
    ensures Inv(Do(st, step))
    ensures st.versions <= Do(st, step).versions
  {
    var st' := Do(st, step);
    match step
    case LoadField(r) =>
      var reader := st.readers[r];
      var n := |reader.loaded|;
      if reader.start == st.sequence {
        var v := st.versions[reader.start / 2];
        assert v[..n + 1] == v[..n] + [v[n]];
      }
    case CheckSequence(r) =>
      var reader := st.readers[r];
      if reader.start == st.sequence {
        var v := st.versions[reader.start / 2];
        assert v[..FIELDS] == v;
      }
    case EndStore =>
      assert st'.fields == Current(st');
    case _ =>
  }

  lemma {:induction false} RunKeeps(st: State, steps: seq<Step>)
    requires Inv(st) && Runs(st, steps)
    ensures Inv(Run(st, steps))
    ensures st.versions <= Run(st, steps).versions
    decreases |steps|
  {
    hide Inv, Enabled, Do;
    if |steps| > 0 {
      StepKeeps(st, steps[0]);
      RunKeeps(Do(st, steps[0]), steps[1..]);
    }
  }

  /** The snapshot that is current when a reader reads an even sequence is the one
      that sequence stands for. */
  lemma SequenceNamesVersion(steps: seq<Step>, r: nat)
    requires Runs(START, steps) && Is(Run(START, steps), r, false)
    requires Run(START, steps).sequence % 2 == 0
    ensures var st := Run(START, steps);
            && |st.versions| > 0
            && Do(st, ReadSequence(r)).readers[r] == Loading(2 * (|st.versions| - 1), [])
            && st.fields == Current(st)
  {
    RunKeeps(START, steps);
  }

  /** The reader does not read the sequence anew. */
  ghost predicate SameAttempt(steps: seq<Step>, r: nat) {
    forall i | 0 <= i < |steps| :: steps[i] != ReadSequence(r) && steps[i] != BeginLoad(r)
  }

  /** What the reader may be doing in one attempt that began at `start`. */
  predicate Attempt(st: State, r: nat, start: nat) {
    r in st.readers && (st.readers[r].Start? || st.readers[r].start == start)
  }

  lemma {:induction false} AttemptStays(st: State, steps: seq<Step>, r: nat, start: nat)
    requires Runs(st, steps) && Attempt(st, r, start) && SameAttempt(steps, r)
    ensures Attempt(Run(st, steps), r, start)
    decreases |steps|
  {
    if |steps| > 0 {
      assert steps[0] != ReadSequence(r) && steps[0] != BeginLoad(r);
      AttemptStays(Do(st, steps[0]), steps[1..], r, start);
    }
  }

  /** Linearizability: in every interleaving, what Load returns is the complete
      snapshot that was current at its first read of the sequence, which is the
      initial one or one whole Store, never a mixture. */
  lemma LoadIsLinearizable(before: seq<Step>, r: nat, after: seq<Step>)
    requires Runs(START, before) && Is(Run(START, before), r, false)
    requires Run(START, before).sequence % 2 == 0
    requires Runs(Do(Run(START, before), ReadSequence(r)), after)
    requires SameAttempt(after, r)
    ensures var st := Run(START, before);
            var end := Run(Do(st, ReadSequence(r)), after);
            |st.versions| > 0 && (r in end.readers && end.readers[r].Returned? ==> end.readers[r].snapshot == Current(st))
  {
    hide Inv, Run, Runs, SameAttempt;
    var st := Run(START, before);
    StartOk();
    RunKeeps(START, before);
    SequenceNamesVersion(before, r);
    var loading := Do(st, ReadSequence(r));
    StepKeeps(st, ReadSequence(r));
    RunKeeps(loading, after);
    AttemptStays(loading, after, r, 2 * (|st.versions| - 1));
    var end := Run(loading, after);
    if r in end.readers && end.readers[r].Returned? { ReturnedOk(end, r); }
    assert st.versions <= end.versions;
  }

  lemma StartOk()
    ensures Inv(START)
  {
  }

  lemma ReturnedOk(st: State, r: nat)
    requires Inv(st) && r in st.readers && st.readers[r].Returned?
    ensures var reader := st.readers[r];
            reader.start / 2 < |st.versions| && reader.snapshot == st.versions[reader.start / 2]
  {
  }
}
