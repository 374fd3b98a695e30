/**
 * The `PcapNg` handle of src/pcapng.rs: an access mode fixed at construction,
 * an optional open stream, and six operations. `open` calls `fopen` and, in
 * Write mode, writes the header. The three writes and `read_packets` check
 * the mode, then the stream. `close` looks only at the stream.
 *
 * The foreign library is not modelled. Each call it receives on a stream is
 * recorded as an `Effect` in a ghost log, in the order the calls are made.
 */
module Pcapng {
  import opened Wrappers
  import opened PcapNgErrors

  newtype u8 = x: int | 0 <= x < 0x100
  newtype u32 = x: int | 0 <= x < 0x1_0000_0000

  /** `PcapNgOpenMode`: how the file is opened. */
  datatype PcapNgOpenMode = Write | Append | Read

  /** A non-null `*mut FILE` returned by `fopen`; a null result is `None`. */
  datatype FileHandle = FileHandle(id: nat)

  /** What one of the three write operations hands to the library. */
  datatype Record =
    | Custom(data: seq<u8>)
    | Packet(data: seq<u8>)
    | PacketWithTime(data: seq<u8>, timestamp: u32)

  /** One foreign call made on an open stream. */
  datatype Effect =
    | WroteHeader(fh: FileHandle)                   // libpcapng_write_header_to_file
    | Wrote(fh: FileHandle, record: Record)         // a custom block fwrite, or an enhanced packet writer
    | ReadAll(fh: FileHandle, withCallback: bool)   // libpcapng_fp_read, userdata non-null iff withCallback
    | FlushedAndClosed(fh: FileHandle)              // fflush then fclose
  {
    /** The call puts bytes into the file. */
    predicate IsWrite() { WroteHeader? || Wrote? }
  }

  /** The abstract state of a handle: its two fields and the calls made so far. */
  datatype HandleState = HandleState(mode: PcapNgOpenMode, fileHandle: Option<FileHandle>, effects: seq<Effect>)

  /** One public operation applied to a handle, with the outcome of `fopen` for `open`. */
  datatype Call =
    | Open(fopenResult: Option<FileHandle>)
    | WriteRecord(record: Record)
    | ReadPackets(withCallback: bool)
    | Close

  // ---------------------------------------------------------------------------
  // What the file receives

  /** The writes, in order, that went to the stream `fh`. */
  function StreamOf(effects: seq<Effect>, fh: FileHandle): (w: seq<Effect>)
    ensures |w| <= |effects|
    ensures forall i :: 0 <= i < |w| ==> w[i].IsWrite() && w[i].fh == fh
  {
    if effects == [] then []
    else
      var last := effects[|effects| - 1];
      StreamOf(effects[..|effects| - 1], fh) + (if last.IsWrite() && last.fh == fh then [last] else [])
  }

  lemma StreamOfAppend(effects: seq<Effect>, e: Effect, fh: FileHandle)
    ensures StreamOf(effects + [e], fh)
         == StreamOf(effects, fh) + (if e.IsWrite() && e.fh == fh then [e] else [])
  {
    assert (effects + [e])[..|effects|] == effects;
  }

  /** Whatever went to `fh` begins with the section header. */
  ghost predicate StartsWithHeader(effects: seq<Effect>, fh: FileHandle) {
    var w := StreamOf(effects, fh);
    w == [] || w[0] == WroteHeader(fh)
  }

  /** Which calls a handle of the given mode can make at all. */
  predicate Permitted(mode: PcapNgOpenMode, e: Effect) {
    match e
    case WroteHeader(_) => mode == Write
    case Wrote(_, _) => mode != Read
    case ReadAll(_, _) => mode == Read
    case FlushedAndClosed(_) => true
  }

  /**
   * The invariant every reachable handle state keeps: nothing reaches a stream
   * before a successful open; only Write mode writes headers, Read mode writes
   * nothing and only Read mode reads; in Write mode every stream that was
   * written to begins with its header, and the current stream has one.
   */
  ghost predicate WellFormed(s: HandleState) {
    && (s.fileHandle.None? ==> s.effects == [])
    && (forall i :: 0 <= i < |s.effects| ==> Permitted(s.mode, s.effects[i]))
    && (s.mode == Write ==> forall fh :: StartsWithHeader(s.effects, fh))
    && (s.mode == Write && s.fileHandle.Some? ==> StreamOf(s.effects, s.fileHandle.value) != [])
  }

  // ---------------------------------------------------------------------------
  // The operations, as functions of the handle state

  /** `PcapNg::new`. */
  function Initial(mode: PcapNgOpenMode): (s: HandleState)
    ensures s.mode == mode && s.fileHandle == None && s.effects == []
    ensures WellFormed(s)
  {
    HandleState(mode, None, [])
  }

  /** `open`: `fopenResult` is what `fopen(path, FopenMode(mode))` returned. */
  function OpenStep(s: HandleState, fopenResult: Option<FileHandle>): (r: (HandleState, Result))
    ensures r.0.mode == s.mode
    ensures fopenResult.None? ==> r == (s, Err(FileOpenError))
    ensures fopenResult.Some? ==> r.1 == Ok && r.0.fileHandle == fopenResult
    ensures fopenResult.Some? && s.mode == Write ==> r.0.effects == s.effects + [WroteHeader(fopenResult.value)]
    ensures s.mode != Write ==> r.0.effects == s.effects
  {
    match fopenResult
    case None => (s, Err(FileOpenError))
    case Some(fh) =>
      var effects := if s.mode == Write then s.effects + [WroteHeader(fh)] else s.effects;
      (HandleState(s.mode, fopenResult, effects), Ok)
  }

  /**
   * The `fopen` mode string that `open` passes: its first letter is the C
   * access mode, `w` (create or truncate), `a` (append) or `r` (read only),
   * and it has no `+`, so the stream is opened for writing only or for
   * reading only, never for both.
   */
  function FopenMode(mode: PcapNgOpenMode): (m: string)
    ensures |m| >= 1
    ensures '+' !in m
    ensures m[0] == 'w' <==> mode == Write
    ensures m[0] == 'a' <==> mode == Append
    ensures m[0] == 'r' <==> mode == Read
  {
    match mode
    case Write => "wb"
    case Append => "a"
    case Read => "r"
  }

  /** `write_custom`, `write_packet` and `write_packet_with_time`. */
  function WriteStep(s: HandleState, record: Record): (r: (HandleState, Result))
    ensures r.0.mode == s.mode && r.0.fileHandle == s.fileHandle
    ensures r.1 == Err(OperationOnlySupportedInWriteMode) <==> s.mode == Read
    ensures r.1 == Err(FileNotOpen) <==> s.mode != Read && s.fileHandle.None?
    ensures r.1.Err? ==> r.0 == s
    ensures r.1 == Ok ==> s.fileHandle.Some? && r.0.effects == s.effects + [Wrote(s.fileHandle.value, record)]
    ensures s.mode != Read && s.fileHandle.Some? ==> r.1 == Ok
  {
    if s.mode == Read then (s, Err(OperationOnlySupportedInWriteMode))
    else match s.fileHandle
      case Some(fh) => (s.(effects := s.effects + [Wrote(fh, record)]), Ok)
      case None => (s, Err(FileNotOpen))
  }

  /** `read_packets`: `withCallback` tells whether a user callback was given. */
  function ReadPacketsStep(s: HandleState, withCallback: bool): (r: (HandleState, Result))
    ensures r.0.mode == s.mode && r.0.fileHandle == s.fileHandle
    ensures r.1 == Err(OperationOnlySupportedInReadMode) <==> s.mode != Read
    ensures r.1 == Err(FileNotOpen) <==> s.mode == Read && s.fileHandle.None?
    ensures r.1.Err? ==> r.0 == s
    ensures r.1 == Ok ==> s.fileHandle.Some? && r.0.effects == s.effects + [ReadAll(s.fileHandle.value, withCallback)]
    ensures s.mode == Read && s.fileHandle.Some? ==> r.1 == Ok
    ensures forall fh :: StreamOf(r.0.effects, fh) == StreamOf(s.effects, fh)
  {
    if s.mode != Read then (s, Err(OperationOnlySupportedInReadMode))
    else match s.fileHandle
      case Some(fh) =>
        var e := ReadAll(fh, withCallback);
        var r := (s.(effects := s.effects + [e]), Ok);
        assert forall g :: StreamOf(r.0.effects, g) == StreamOf(s.effects, g) by {
          forall g ensures StreamOf(r.0.effects, g) == StreamOf(s.effects, g) {
            StreamOfAppend(s.effects, e, g);
          }
        }
        r
      case None => (s, Err(FileNotOpen))
  }

  /** `close`: flush and close the stream if one was opened; `file_handle` is kept. */
  function CloseStep(s: HandleState): (r: HandleState)
    ensures r.mode == s.mode && r.fileHandle == s.fileHandle
    ensures s.fileHandle.None? ==> r == s
    ensures s.fileHandle.Some? ==> r.effects == s.effects + [FlushedAndClosed(s.fileHandle.value)]
  {
    match s.fileHandle
    case Some(fh) => s.(effects := s.effects + [FlushedAndClosed(fh)])
    case None => s
  }

  /** Any one operation; `close`, which returns nothing, reports `Ok`. */
  function Step(s: HandleState, call: Call): (r: (HandleState, Result))
    ensures r.0.mode == s.mode
    ensures s.effects <= r.0.effects && |r.0.effects| <= |s.effects| + 1
    ensures r.1.Err? ==> r.0 == s
    ensures s.fileHandle.Some? ==> r.0.fileHandle.Some?
  {
    match call
    case Open(fopenResult) => OpenStep(s, fopenResult)
    case WriteRecord(record) => WriteStep(s, record)
    case ReadPackets(withCallback) => ReadPacketsStep(s, withCallback)
    case Close => (CloseStep(s), Ok)
  }

  /** Appending a call that is not a write leaves every stream's writes as they were. */
  lemma NonWriteKeepsStreams(effects: seq<Effect>, e: Effect)
    requires !e.IsWrite()
    ensures forall fh :: StreamOf(effects + [e], fh) == StreamOf(effects, fh)
  {
    forall fh ensures StreamOf(effects + [e], fh) == StreamOf(effects, fh) {
      StreamOfAppend(effects, e, fh);
    }
  }

  /** In Write mode, a write to a stream whose writes already begin with a header keeps every stream headed. */
  lemma WriteKeepsHeaders(effects: seq<Effect>, e: Effect)
    requires forall fh :: StartsWithHeader(effects, fh)
    requires e.IsWrite()
    requires e.WroteHeader? || StreamOf(effects, e.fh) != []
    ensures forall fh :: StartsWithHeader(effects + [e], fh)
    ensures StreamOf(effects + [e], e.fh) != []
  {
    forall fh ensures StartsWithHeader(effects + [e], fh) {
      StreamOfAppend(effects, e, fh);
      assert StartsWithHeader(effects, fh);
    }
    StreamOfAppend(effects, e, e.fh);
  }

  lemma OpenKeepsWellFormed(s: HandleState, fopenResult: Option<FileHandle>)
    requires WellFormed(s)
    ensures WellFormed(OpenStep(s, fopenResult).0)
  {
    if fopenResult.Some? && s.mode == Write {
      WriteKeepsHeaders(s.effects, WroteHeader(fopenResult.value));
    }
  }

  lemma WriteKeepsWellFormed(s: HandleState, record: Record)
    requires WellFormed(s)
    ensures WellFormed(WriteStep(s, record).0)
  {
    if s.mode == Write && s.fileHandle.Some? {
      WriteKeepsHeaders(s.effects, Wrote(s.fileHandle.value, record));
    }
  }

  lemma ReadPacketsKeepsWellFormed(s: HandleState, withCallback: bool)
    requires WellFormed(s)
    ensures WellFormed(ReadPacketsStep(s, withCallback).0)
  {
  }

  lemma CloseKeepsWellFormed(s: HandleState)
    requires WellFormed(s)
    ensures WellFormed(CloseStep(s))
  {
    if s.fileHandle.Some? {
      var t := CloseStep(s);
      NonWriteKeepsStreams(s.effects, FlushedAndClosed(s.fileHandle.value));
      if s.mode == Write {
        forall fh ensures StartsWithHeader(t.effects, fh) {
          assert StartsWithHeader(s.effects, fh);
        }
      }
    }
  }

  /** Every operation keeps the invariant. */
  lemma StepKeepsWellFormed(s: HandleState, call: Call)
    requires WellFormed(s)
    ensures WellFormed(Step(s, call).0)
  {
    match call
    case Open(fopenResult) => OpenKeepsWellFormed(s, fopenResult);
    case WriteRecord(record) => WriteKeepsWellFormed(s, record);
    case ReadPackets(withCallback) => ReadPacketsKeepsWellFormed(s, withCallback);
    case Close => CloseKeepsWellFormed(s);
  }

  // ---------------------------------------------------------------------------
  // The handle itself

  class PcapNg {
    const filePath: string
    const mode: PcapNgOpenMode
    var fileHandle: Option<FileHandle>
    /** Every foreign call made through this handle, oldest first. */
    ghost var effects: seq<Effect>
    /** The `(path, mode string)` of every `fopen` call, successful or not. */
    ghost var fopenCalls: seq<(string, string)>

    ghost function View(): HandleState
      reads this
    {
      HandleState(mode, fileHandle, effects)
    }

    ghost predicate Valid()
      reads this
    {
      WellFormed(View())
    }

    /** `PcapNg::new`: nothing is opened yet. */
    constructor (path: string, mode: PcapNgOpenMode)
      ensures Valid()
      ensures filePath == path && this.mode == mode
      ensures View() == Initial(mode) && fopenCalls == []
    {
      filePath := path;
      fileHandle := None;
      this.mode := mode;
      effects := [];
      fopenCalls := [];
    }

    /** `open`; `fopenResult` is the outcome of `fopen(filePath, FopenMode(mode))`. */
    method Open(fopenResult: Option<FileHandle>) returns (r: Result)
      requires Valid()
      modifies this`fileHandle, this`effects, this`fopenCalls
      ensures Valid()
      ensures fopenCalls == old(fopenCalls) + [(filePath, FopenMode(mode))]
      ensures (View(), r) == OpenStep(old(View()), fopenResult)
    {
      OpenKeepsWellFormed(View(), fopenResult);
      fopenCalls := fopenCalls + [(filePath, FopenMode(mode))];
      var fh := fopenResult;
      if fh.None? {
        r := Err(FileOpenError);
      } else {
        if mode == Write {
          effects := effects + [WroteHeader(fh.value)];
        }
        fileHandle := fh;
        r := Ok;
      }
    }

    /** `write_custom`: a custom block carrying `data`. */
    method WriteCustom(data: seq<u8>) returns (r: Result)
      requires Valid()
      modifies this`effects
      ensures Valid()
      ensures (View(), r) == WriteStep(old(View()), Custom(data))
    {
      WriteKeepsWellFormed(View(), Custom(data));
      if mode == Read {
        return Err(OperationOnlySupportedInWriteMode);
      }
      match fileHandle {
        case Some(fh) =>
          effects := effects + [Wrote(fh, Custom(data))];
          r := Ok;
        case None =>
          r := Err(FileNotOpen);
      }
    }

    /** `write_packet`: an enhanced packet block without a timestamp. */
    method WritePacket(data: seq<u8>) returns (r: Result)
      requires Valid()
      modifies this`effects
      ensures Valid()
      ensures (View(), r) == WriteStep(old(View()), Packet(data))
    {
      WriteKeepsWellFormed(View(), Packet(data));
      if mode == Read {
        return Err(OperationOnlySupportedInWriteMode);
      }
      match fileHandle {
        case Some(fh) =>
          effects := effects + [Wrote(fh, Packet(data))];
          r := Ok;
        case None =>
          r := Err(FileNotOpen);
      }
    }

    /** `read_packets`: `withCallback` is `callback_fn.is_some()`. */
    method ReadPackets(withCallback: bool) returns (r: Result)
      requires Valid()
      modifies this`effects
      ensures Valid()
      ensures (View(), r) == ReadPacketsStep(old(View()), withCallback)
    {
      ReadPacketsKeepsWellFormed(View(), withCallback);
      if mode != Read {
        return Err(OperationOnlySupportedInReadMode);
      }
      match fileHandle {
        case Some(fh) =>
          effects := effects + [ReadAll(fh, withCallback)];
          r := Ok;
        case None =>
          r := Err(FileNotOpen);
      }
    }

    /** `write_packet_with_time`: an enhanced packet block with `timestamp`. */
    method WritePacketWithTime(data: seq<u8>, timestamp: u32) returns (r: Result)
      requires Valid()
      modifies this`effects
      ensures Valid()
      ensures (View(), r) == WriteStep(old(View()), PacketWithTime(data, timestamp))
    {
      WriteKeepsWellFormed(View(), PacketWithTime(data, timestamp));
      if mode == Read {
        return Err(OperationOnlySupportedInWriteMode);
      }
      match fileHandle {
        case Some(fh) =>
          effects := effects + [Wrote(fh, PacketWithTime(data, timestamp))];
          r := Ok;
        case None =>
          r := Err(FileNotOpen);
      }
    }

    /** `close`: flushes and closes the stream, but leaves `fileHandle` set. */
    method Close()
      requires Valid()
      modifies this`effects
      ensures Valid()
      ensures View() == CloseStep(old(View()))
    {
      CloseKeepsWellFormed(View());
      match fileHandle {
        case Some(fh) =>
          effects := effects + [FlushedAndClosed(fh)];
        case None =>
      }
    }
  }

  // ---------------------------------------------------------------------------
  // The read callback trampoline

  /** The arguments the user's `CbFn` is called with. */
  datatype Block = Block(blockCounter: u32, blockType: u32, blockTotalLength: u32, bytes: seq<u8>)

  /**
   * `callback`: `data` is the memory the library passes, `userCallback` tells
   * whether `userdata` is non-null. The result is the C return value and the
   * call made to the user's function, if any.
   */
  function Callback(blockCounter: u32, blockType: u32, blockTotalLength: u32, data: seq<u8>, userCallback: bool)
    : (r: (int, Option<Block>))
    requires 8 <= blockTotalLength
    requires blockTotalLength as int - 8 <= |data|
    ensures r.0 == 0
    ensures r.1.Some? <==> userCallback
    ensures r.1.Some? ==> && r.1.value.blockCounter == blockCounter
                          && r.1.value.blockType == blockType
                          && r.1.value.blockTotalLength == blockTotalLength
                          && |r.1.value.bytes| + 8 == blockTotalLength as int
                          && r.1.value.bytes <= data
  {
    var bytes := data[..blockTotalLength as int - 8];
    if userCallback then (0, Some(Block(blockCounter, blockType, blockTotalLength, bytes))) else (0, None)
  }

  /** The bytes forwarded depend only on the first `blockTotalLength - 8` bytes of `data`. */
  lemma CallbackReadsOnlyPayload(blockCounter: u32, blockType: u32, blockTotalLength: u32, data: seq<u8>, data': seq<u8>)
    requires 8 <= blockTotalLength
    requires blockTotalLength as int - 8 <= |data| && blockTotalLength as int - 8 <= |data'|
    requires data[..blockTotalLength as int - 8] == data'[..blockTotalLength as int - 8]
    ensures Callback(blockCounter, blockType, blockTotalLength, data, true)
         == Callback(blockCounter, blockType, blockTotalLength, data', true)
  {
  }
}
