# libpcapng-rs: the `PcapNg` handle, modelled in Dafny

`libpcapng-rs` is a Rust wrapper around the C library libpcapng. It creates,
appends to and reads PCAPNG capture files. Its logic is the `PcapNg` handle
in `src/pcapng.rs`. A handle has an access mode (`Write`, `Append` or `Read`)
that is fixed when it is built, and an optional open `FILE*`. Six operations
act on it: `open`, `write_custom`, `write_packet`, `write_packet_with_time`,
`read_packets` and `close`.

- `open` does not look at the current stream. It calls `fopen` with a mode
  string chosen by the access mode. If that fails it returns
  `FileOpenError`; otherwise it writes the header in Write mode and stores
  the stream.
- The three writes and `read_packets` check the mode first, then whether a
  stream is open, and return a typed `PcapNgError` on either failure.
  Otherwise they hand the data to libpcapng (a write) or start the C reader
  (`read_packets`) and return `Ok`. `write_custom` sizes, allocates and fills
  its block buffer before it looks at the stream, so it makes those calls
  even when it then returns `FileNotOpen`.
- `close` ignores the mode. If a stream was ever opened, it calls `fflush`
  and then `fclose` on it.

The `callback` trampoline passes each block that the C reader parses on to
the user's Rust callback.

## How the model is built

- `error.dfy` (module `PcapNgErrors`) holds the error enum of `src/error.rs`
  and `Result`, which stands for `crate::Result<()>`.
- `pcapng.dfy` (module `Pcapng`) is the handle.
  - `HandleState` is the abstract state: the mode, the optional `FileHandle`
    (a non-null `FILE*`), and `effects`. `effects` is the log of every foreign
    call made on a stream: `WroteHeader`, `Wrote` (a custom block, a packet, or
    a packet with a timestamp), `ReadAll` (`libpcapng_fp_read`) and
    `FlushedAndClosed` (`fflush` followed by `fclose`).
  - `OpenStep`, `WriteStep`, `ReadPacketsStep` and `CloseStep` give each
    operation as a function of that state. `Step` dispatches over them.
  - `WellFormed` is the invariant that every reachable state keeps.
  - The class `PcapNg` has `const mode`, `var fileHandle` and a ghost
    `effects` log. Each of its methods ensures that its new state and its
    result are exactly those of the matching step function.
  - `Callback` is the trampoline, written as a function.
- `traces.dfy` (module `PcapngTraces`) runs any sequence of operations with
  `Run` and proves what holds for every such sequence.
- `lib_tests.dfy` (module `LibTests`) replays the crate's own test
  `write_and_read_test` on the class.

The outcome of `fopen` is a parameter of `Open`: `None` stands for a null
pointer, and `Some(fh)` for a stream that was opened. `FopenMode` gives the
mode string `open` passes to `fopen` ("wb", "a" or "r"). The class logs each
`fopen` call, with its path and that mode string, in the ghost field
`fopenCalls`. `close` returns
nothing in Rust; in `Step` and `Run` it reports `Ok`.

### Behaviour of the code that the model keeps

- `close` does not reset `file_handle`. So after `close`, the three writes
  hand their data to a `FILE*` that `fclose` has already released, and
  `read_packets` does the same in Read mode. In C that is undefined
  behaviour. If the foreign call returns at all, the Rust code then returns
  `Ok`, never `FileNotOpen` (`WriteAfterCloseReachesClosedStream`,
  `ReadAfterCloseReachesClosedStream`).
- A second `close` passes the released `FILE*` to `fflush` and `fclose`
  again, which is undefined behaviour too (glibc usually aborts on a double
  `fclose`). The model records the two calls the Rust code makes
  (`CloseTwiceClosesTwice`).
- `read_packets` ignores what `libpcapng_fp_read` returns and always reports
  `Ok` once a stream is open. A malformed or truncated file never reaches the
  caller as an error. In the same way, the writes ignore what `fwrite` and the
  libpcapng writers return.
- `open` on a handle that already holds a stream opens again and replaces
  `file_handle`, without closing the earlier `FILE*`, which leaks (the log
  records no `FlushedAndClosed` for it). In Write mode it writes a header
  again, to the new stream.
- `FileCloseError` and `UnknownError` are declared but never returned.

## Model

| member | source | states |
|---|---|---|
| `Pcapng.Initial` | src/pcapng.rs:29-35 | a new handle has the given mode, no stream and an empty call log, and satisfies the invariant |
| `Pcapng.PcapNg.constructor` | src/pcapng.rs:29-35 | `new` keeps the path and mode and starts in the `Initial` state, with no stream and no `fopen` call made |
| `Pcapng.OpenStep` | src/pcapng.rs:57-63 | a failed `fopen` gives `FileOpenError` and changes nothing; a successful one stores the stream and gives `Ok`; a header is written exactly when the mode is Write; the mode never changes |
| `Pcapng.FopenMode` | src/pcapng.rs:42-55 | the C access letter of the mode string is `w` (create or truncate) exactly in Write mode, `a` (append) exactly in Append mode and `r` exactly in Read mode, and the string has no `+`, so Read mode opens read only and the other two write only |
| `Pcapng.PcapNg.Open` | src/pcapng.rs:38-65 | `open` always calls `fopen` once, with the handle's path and `FopenMode(mode)`; it changes the handle and returns exactly as `OpenStep` says, and keeps the invariant |
| `Pcapng.WriteStep` | src/pcapng.rs:68-85 | `OperationOnlySupportedInWriteMode` if and only if the mode is Read, with or without a stream; `FileNotOpen` if and only if the mode is Write or Append and no stream is open; an error changes nothing; with a stream open in Write or Append mode the result is `Ok`, whatever the foreign call returns, and exactly one record with the given data is appended to that stream; mode and stream are kept |
| `Pcapng.PcapNg.WriteCustom` | src/pcapng.rs:68-85 | `write_custom` acts as `WriteStep` with a custom record of `data`, and keeps the invariant |
| `Pcapng.PcapNg.WritePacket` | src/pcapng.rs:88-102 | `write_packet` acts as `WriteStep` with a packet record of `data`, and keeps the invariant |
| `Pcapng.PcapNg.WritePacketWithTime` | src/pcapng.rs:121-135 | `write_packet_with_time` acts as `WriteStep` with a record of `data` and `timestamp`, and keeps the invariant |
| `Pcapng.ReadPacketsStep` | src/pcapng.rs:105-118 | `OperationOnlySupportedInReadMode` if and only if the mode is not Read; `FileNotOpen` if and only if the mode is Read and no stream is open; with a stream open in Read mode the result is `Ok`, whatever the C reader returns, with one read call on the open stream that records whether a callback was given; no stream receives a write in any case |
| `Pcapng.PcapNg.ReadPackets` | src/pcapng.rs:105-118 | `read_packets` acts as `ReadPacketsStep`, and keeps the invariant |
| `Pcapng.CloseStep` | src/pcapng.rs:138-145 | without a stream, `close` changes nothing; with one, it flushes and closes that stream; it never resets `file_handle` and never changes the mode |
| `Pcapng.PcapNg.Close` | src/pcapng.rs:138-145 | `close` acts as `CloseStep`, and keeps the invariant |
| `Pcapng.Step` | src/pcapng.rs:38-145 | no operation changes the mode; the call log only grows, by at most one call; a call that returns an error leaves the state as it was; a handle that holds a stream keeps one |
| `Pcapng.OpenKeepsWellFormed` | src/pcapng.rs:57-63 | `open` keeps the invariant; in Write mode the new stream's writes begin with the header just written |
| `Pcapng.WriteKeepsWellFormed` | src/pcapng.rs:78-83 | the three writes keep the invariant; a record goes only to a stream that was opened, after its header in Write mode |
| `Pcapng.ReadPacketsKeepsWellFormed` | src/pcapng.rs:106-117 | `read_packets` keeps the invariant |
| `Pcapng.CloseKeepsWellFormed` | src/pcapng.rs:138-145 | `close` keeps the invariant |
| `Pcapng.StepKeepsWellFormed` | src/pcapng.rs:38-145 | every operation keeps the invariant: nothing reaches a stream before a successful open; only Write mode writes headers; Read mode writes nothing; only Read mode reads; in Write mode each stream's writes begin with its header |
| `Pcapng.Callback` | src/pcapng.rs:149-157 | returns 0; calls the user's function exactly when `userdata` is non-null; passes the counter, block type and total length on unchanged, with a payload of `block_total_length - 8` bytes taken from the start of `data` |
| `Pcapng.CallbackReadsOnlyPayload` | src/pcapng.rs:151 | what the callback passes on depends only on the first `block_total_length - 8` bytes at `data` |
| `PcapngTraces.RunKeepsMode` | src/pcapng.rs:20-35 | no sequence of operations changes the mode that `new` fixed |
| `PcapngTraces.RunAppendsAndStaysOpen` | src/pcapng.rs:138-145 | over any sequence of operations, the call log only grows, and once a stream has been opened the handle keeps one |
| `PcapngTraces.RunKeepsWellFormed` | src/pcapng.rs:38-145 | any sequence of operations keeps the invariant |
| `PcapngTraces.ReachableIsWellFormed` | src/pcapng.rs:29-145 | every state reached from `new` by any sequence of operations satisfies the invariant |
| `PcapngTraces.RunWithoutOpen` | src/pcapng.rs:78-83 | without a successful `open`, no sequence of operations changes the handle or touches a stream, and every operation except `close` returns an error |
| `PcapngTraces.WritesReachStreamInOrder` | src/pcapng.rs:78-130 | in Write or Append mode with a stream open, any sequence of writes all return `Ok`, and the stream receives exactly those records in the order they were issued |
| `PcapngTraces.ReadModeRejectsWrites` | src/pcapng.rs:69-71 | in Read mode, every write in any sequence returns `OperationOnlySupportedInWriteMode` and the handle is left as it was |
| `PcapngTraces.WriteAfterCloseReachesClosedStream` | src/pcapng.rs:138-145 | after `close`, a write hands its data to the stream that was just closed and, if that foreign call returns, returns `Ok` |
| `PcapngTraces.ReadAfterCloseReachesClosedStream` | src/pcapng.rs:105-118 | in Read mode, after `close`, `read_packets` reads from the stream that was just closed and, if the C reader returns, returns `Ok` |
| `PcapngTraces.CloseTwiceClosesTwice` | src/pcapng.rs:138-145 | two calls to `close` pass the same stream to `fflush` and `fclose` twice |
| `LibTests.WriteSession` | src/lib.rs:99-102 | a Write-mode handle: `open` calls `fopen` with "wb" and returns `Ok`, `write_custom` returns `Ok`; the stream receives the header, the custom block and the close |
| `LibTests.ReadSession` | src/lib.rs:103-106 | a Read-mode handle: `open` calls `fopen` with "r" and returns `Ok`, `read_packets` returns `Ok`; the stream receives one read with a callback and the close |
| `LibTests.WriteAndReadTest` | src/lib.rs:97-108 | the crate's test: Write-mode open, `write_custom`, `close`, then Read-mode open and `read_packets` all return `Ok`. The write stream receives the header, the custom block and the close; the read stream receives one read with a callback and the close |

## Left out

- The PCAPNG format itself is not modelled. It lives in libpcapng, behind
  `libpcapng_custom_data_block_size`, `libpcapng_custom_data_block_write`,
  `libpcapng_write_header_to_file`, the two `libpcapng_write_enhanced_packet_*`
  writers and `libpcapng_fp_read`. That covers the block layouts, the padding,
  the length written twice in each block, the enterprise number of custom
  blocks, and the read loop that calls `callback` once per block. Its source is
  not part of this model. Each call appears only as an entry in the call log.
- File I/O is not modelled. `fopen`, `fwrite`, `fflush` and `fclose` are libc
  calls. The outcome of `fopen` is a parameter, and the other three appear as
  log entries. The truncation that the "wb" mode causes is not modelled.
- The path-to-C-string conversion in `open` is not modelled, and neither are
  the branches of the `debian` feature, which differ only in pointer casts.
- Raw memory is not modelled: the custom-block buffer that `write_custom`
  allocates with `malloc` and never frees, the `transmute` of the callback
  pointer, and `slice::from_raw_parts`. `write_custom` allocates and fills that
  buffer even when it then returns `FileNotOpen`. That leak is not visible in
  the model.
- Every foreign call is assumed to return. The model does not capture a
  crash or undefined behaviour inside libc or libpcapng, which is what a
  call on a stream that `fclose` has already released risks (a write or
  `read_packets` after `close`, a second `close`). The `Ok` results the
  model gives after `close` hold only if those calls return.
- The user's callback is a Rust function with arbitrary side effects.
  `Callback` returns the call it makes instead of making it.
- `Pcapng.Callback` requires `block_total_length >= 8`, and at least
  `block_total_length - 8` readable bytes at `data`. Below 8, the source's
  `usize` subtraction underflows, which panics in a debug build and reads out
  of bounds otherwise. The model does not represent that case.
- The build script and the generated bindings of `libpcapng-sys` are not
  modelled. The crate-level documentation in `src/lib.rs` is not modelled
  either.
