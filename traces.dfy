/**
 * Sequences of operations on one `PcapNg` handle, and what holds of every
 * such sequence.
 */
module PcapngTraces {
  import opened Wrappers
  import opened PcapNgErrors
  import opened Pcapng

  /** Applies `calls` in order; returns the final state and each call's result. */
  function Run(s: HandleState, calls: seq<Call>): (r: (HandleState, seq<Result>))
    ensures |r.1| == |calls|
    decreases |calls|
  {
    if calls == [] then (s, [])
    else
      var first := Step(s, calls[0]);
      var rest := Run(first.0, calls[1..]);
      (rest.0, [first.1] + rest.1)
  }

  /** `mode` is fixed at construction: no sequence of calls changes it. */
  lemma {:induction false} RunKeepsMode(s: HandleState, calls: seq<Call>)
    ensures Run(s, calls).0.mode == s.mode
    decreases |calls|
  {
    if calls != [] {
      RunKeepsMode(Step(s, calls[0]).0, calls[1..]);
    }
  }

  /**
   * The call log only grows, and once a stream has been opened the handle
   * keeps one: `close` never resets `file_handle`.
   */
  lemma {:induction false} RunAppendsAndStaysOpen(s: HandleState, calls: seq<Call>)
    ensures s.effects <= Run(s, calls).0.effects
    ensures s.fileHandle.Some? ==> Run(s, calls).0.fileHandle.Some?
    decreases |calls|
  {
    if calls != [] {
      RunAppendsAndStaysOpen(Step(s, calls[0]).0, calls[1..]);
    }
  }

  /** The invariant holds after any sequence of calls on a new handle. */
  lemma {:induction false} RunKeepsWellFormed(s: HandleState, calls: seq<Call>)
    requires WellFormed(s)
    ensures WellFormed(Run(s, calls).0)
    decreases |calls|
  {
    if calls != [] {
      StepKeepsWellFormed(s, calls[0]);
      RunKeepsWellFormed(Step(s, calls[0]).0, calls[1..]);
    }
  }

  /** Any sequence of calls on a new handle keeps the invariant. */
  lemma ReachableIsWellFormed(mode: PcapNgOpenMode, calls: seq<Call>)
    ensures WellFormed(Run(Initial(mode), calls).0)
  {
    RunKeepsWellFormed(Initial(mode), calls);
  }

  /** `fopen` succeeded for this call. */
  predicate OpensStream(call: Call) {
    call.Open? && call.fopenResult.Some?
  }

  /**
   * Without a successful open nothing happens: no call touches a stream, the
   * state stays as it is, and every call but `close` fails.
   */
  lemma {:induction false} RunWithoutOpen(s: HandleState, calls: seq<Call>)
    requires s.fileHandle.None?
    requires forall i :: 0 <= i < |calls| ==> !OpensStream(calls[i])
    ensures Run(s, calls).0 == s
    ensures forall i :: 0 <= i < |calls| ==> (Run(s, calls).1[i] == Ok <==> calls[i].Close?)
    decreases |calls|
  {
    if calls != [] {
      var first := Step(s, calls[0]);
      assert first.0 == s && (first.1 == Ok <==> calls[0].Close?);
      RunWithoutOpen(s, calls[1..]);
      forall i | 0 <= i < |calls| ensures Run(s, calls).1[i] == Ok <==> calls[i].Close? {
        if i > 0 {
          assert calls[1..][i - 1] == calls[i];
        }
      }
    }
  }

  /** The calls that write the given records, one each. */
  function WriteCalls(records: seq<Record>): (calls: seq<Call>)
    ensures |calls| == |records|
  {
    if records == [] then [] else [WriteRecord(records[0])] + WriteCalls(records[1..])
  }

  /** The log entries those writes leave on stream `fh`. */
  function WroteAll(fh: FileHandle, records: seq<Record>): (effects: seq<Effect>)
    ensures |effects| == |records|
  {
    if records == [] then [] else [Wrote(fh, records[0])] + WroteAll(fh, records[1..])
  }

  /**
   * In Write or Append mode with a stream open, a sequence of writes all
   * succeed and reach the stream exactly, in the order issued.
   */
  lemma {:induction false} WritesReachStreamInOrder(s: HandleState, records: seq<Record>)
    requires s.mode != Read && s.fileHandle.Some?
    ensures Run(s, WriteCalls(records)).0 == s.(effects := s.effects + WroteAll(s.fileHandle.value, records))
    ensures forall i :: 0 <= i < |records| ==> Run(s, WriteCalls(records)).1[i] == Ok
    decreases |records|
  {
    var fh := s.fileHandle.value;
    var calls := WriteCalls(records);
    if records == [] {
      assert calls == [];
      assert s.effects + WroteAll(fh, records) == s.effects;
    } else {
      var t := s.(effects := s.effects + [Wrote(fh, records[0])]);
      var tail := WriteCalls(records[1..]);
      var rest := Run(t, tail);
      assert Step(s, WriteRecord(records[0])) == (t, Ok);
      assert calls == [WriteRecord(records[0])] + tail;
      RunCons(s, WriteRecord(records[0]), tail);
      assert Run(s, calls) == (rest.0, [Ok] + rest.1);
      WritesReachStreamInOrder(t, records[1..]);
      assert rest.0 == s.(effects := s.effects + WroteAll(fh, records)) by {
        assert WroteAll(fh, records) == [Wrote(fh, records[0])] + WroteAll(fh, records[1..]);
        assert t.effects + WroteAll(fh, records[1..]) == s.effects + WroteAll(fh, records);
      }
      forall i | 0 <= i < |records| ensures Run(s, calls).1[i] == Ok {
        if i > 0 {
          assert ([Ok] + rest.1)[i] == rest.1[i - 1];
        }
      }
    }
  }

  /**
   * In Read mode every write fails with `OperationOnlySupportedInWriteMode`,
   * whether or not a stream is open, and nothing is written.
   */
  lemma {:induction false} ReadModeRejectsWrites(s: HandleState, records: seq<Record>)
    requires s.mode == Read
    ensures Run(s, WriteCalls(records)).0 == s
    ensures forall i :: 0 <= i < |records| ==> Run(s, WriteCalls(records)).1[i] == Err(OperationOnlySupportedInWriteMode)
    decreases |records|
  {
    if records != [] {
      var calls := WriteCalls(records);
      assert calls[1..] == WriteCalls(records[1..]);
      ReadModeRejectsWrites(s, records[1..]);
      forall i | 0 <= i < |records| ensures Run(s, calls).1[i] == Err(OperationOnlySupportedInWriteMode) {
        if i > 0 {
          assert Run(s, calls).1[i] == Run(s, calls[1..]).1[i - 1];
        }
      }
    }
  }

  /** One call, then the rest. */
  lemma RunCons(s: HandleState, call: Call, calls: seq<Call>)
    ensures Run(s, [call] + calls)
         == (Run(Step(s, call).0, calls).0, [Step(s, call).1] + Run(Step(s, call).0, calls).1)
  {
    assert ([call] + calls)[1..] == calls;
  }

  /** Two calls in a row. */
  lemma RunTwo(s: HandleState, first: Call, second: Call)
    ensures Run(s, [first, second])
         == (Step(Step(s, first).0, second).0, [Step(s, first).1, Step(Step(s, first).0, second).1])
  {
    var t := Step(s, first).0;
    var u := Step(t, second);
    assert Run(u.0, []) == (u.0, []);
    RunCons(t, second, []);
    assert [second] + [] == [second];
    RunCons(s, first, [second]);
    assert [first] + [second] == [first, second];
    assert [Step(s, first).1] + ([u.1] + []) == [Step(s, first).1, u.1];
  }

  /**
   * `close` keeps `file_handle`, so a write after it still returns `Ok` and
   * goes to the stream that was just closed.
   */
  lemma WriteAfterCloseReachesClosedStream(s: HandleState, record: Record)
    requires s.mode != Read && s.fileHandle.Some?
    ensures Run(s, [Close, WriteRecord(record)])
         == (s.(effects := s.effects + [FlushedAndClosed(s.fileHandle.value), Wrote(s.fileHandle.value, record)]), [Ok, Ok])
  {
    var fh := s.fileHandle.value;
    RunTwo(s, Close, WriteRecord(record));
    assert s.effects + [FlushedAndClosed(fh)] + [Wrote(fh, record)] == s.effects + [FlushedAndClosed(fh), Wrote(fh, record)];
  }

  /**
   * In the same way, `read_packets` after `close` still returns `Ok` and
   * reads from the stream that was just closed.
   */
  lemma ReadAfterCloseReachesClosedStream(s: HandleState, withCallback: bool)
    requires s.mode == Read && s.fileHandle.Some?
    ensures Run(s, [Close, ReadPackets(withCallback)])
         == (s.(effects := s.effects + [FlushedAndClosed(s.fileHandle.value), ReadAll(s.fileHandle.value, withCallback)]), [Ok, Ok])
  {
    var fh := s.fileHandle.value;
    RunTwo(s, Close, ReadPackets(withCallback));
    assert s.effects + [FlushedAndClosed(fh)] + [ReadAll(fh, withCallback)] == s.effects + [FlushedAndClosed(fh), ReadAll(fh, withCallback)];
  }

  /** Calling `close` twice flushes and closes the same stream twice. */
  lemma CloseTwiceClosesTwice(s: HandleState)
    requires s.fileHandle.Some?
    ensures Run(s, [Close, Close])
         == (s.(effects := s.effects + [FlushedAndClosed(s.fileHandle.value), FlushedAndClosed(s.fileHandle.value)]), [Ok, Ok])
  {
    var fh := s.fileHandle.value;
    RunTwo(s, Close, Close);
    assert s.effects + [FlushedAndClosed(fh)] + [FlushedAndClosed(fh)] == s.effects + [FlushedAndClosed(fh), FlushedAndClosed(fh)];
  }
}
