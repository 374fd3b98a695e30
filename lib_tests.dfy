/** The crate's own test (`write_and_read_test` in src/lib.rs), on the model. */
module LibTests {
  import opened Wrappers
  import opened PcapNgErrors
  import opened Pcapng

  /** The file the test writes and reads back. */
  const TestPath: string := "test.pcapng"

  /** The bytes of "this is a test". */
  function ThisIsATest(): (b: seq<u8>)
    ensures |b| == 14
  {
    [116, 104, 105, 115, 32, 105, 115, 32, 97, 32, 116, 101, 115, 116]
  }

  /** The first half of the test: Write-mode open, `write_custom`, `close`. */
  method WriteSession(stream: FileHandle)
    returns (results: seq<Result>, ghost opens: seq<(string, string)>, ghost written: seq<Effect>)
    ensures results == [Ok, Ok]
    ensures opens == [(TestPath, "wb")]
    ensures written == [WroteHeader(stream), Wrote(stream, Custom(ThisIsATest())), FlushedAndClosed(stream)]
  {
    var writer := new PcapNg(TestPath, Write);
    var r1 := writer.Open(Some(stream));
    var r2 := writer.WriteCustom(ThisIsATest());
    writer.Close();
    results, opens, written := [r1, r2], writer.fopenCalls, writer.effects;
  }

  /** The second half: Read-mode open, `read_packets` with a callback, `close`. */
  method ReadSession(stream: FileHandle)
    returns (results: seq<Result>, ghost opens: seq<(string, string)>, ghost read: seq<Effect>)
    ensures results == [Ok, Ok]
    ensures opens == [(TestPath, "r")]
    ensures read == [ReadAll(stream, true), FlushedAndClosed(stream)]
  {
    var reader := new PcapNg(TestPath, Read);
    var r1 := reader.Open(Some(stream));
    var r2 := reader.ReadPackets(true);
    reader.Close();
    results, opens, read := [r1, r2], reader.fopenCalls, reader.effects;
  }

  /**
   * `write_and_read_test`: the write session, then the read session.
   * `writeStream` and `readStream` are what the two `fopen` calls return;
   * both succeed, as the test expects.
   */
  method WriteAndReadTest(writeStream: FileHandle, readStream: FileHandle)
    returns (results: seq<Result>, ghost opens: seq<(string, string)>, ghost written: seq<Effect>, ghost read: seq<Effect>)
    ensures results == [Ok, Ok, Ok, Ok]
    ensures opens == [(TestPath, "wb"), (TestPath, "r")]
    ensures written == [WroteHeader(writeStream), Wrote(writeStream, Custom(ThisIsATest())), FlushedAndClosed(writeStream)]
    ensures read == [ReadAll(readStream, true), FlushedAndClosed(readStream)]
  {
    var w, wOpens, wEffects := WriteSession(writeStream);
    var r, rOpens, rEffects := ReadSession(readStream);
    results, opens, written, read := w + r, wOpens + rOpens, wEffects, rEffects;
  }
}
