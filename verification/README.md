# Sensor acquisition core, modelled in Dafny

This project models the acquisition core of a sensor-polling program in Dafny. The program reads a lab instrument over a serial link in two ways:

- plain Modbus holding-register reads;
- a proprietary fixed-length frame that ends in a CRC-16.

It queues each poll's samples for the active mode (SIN or DDS). A processing step then moves each batch into two bounded buffers: the raw samples with millisecond timestamps, and the block averages. While downloading, the step also writes the samples to a CSV file. A second, older logger buffers rows in memory and writes them to a CSV file 500 at a time.

The model has five modules:

- `Common` (`common.dfy`): bytes, 16-bit registers, `Option`, and the big-endian register of two bytes.
- `Crc16` (`crc16.dfy`): the CRC that `calculate_crc` requests from crcmod, written out bit by bit. It covers the check value and the detection of every single-byte change.
- `DataApi` (`data_api.dfy`): `decode_data`, `read_modbus` and `read_custom_data`. The device and the Modbus transport are parameters.
- `Acquisition` (`custom_data.dfy`): the `CustomData` object as a class. It has the bounded deques, the block-average loop, one processing step, the poll step, mode switching, start and stop.
- `CsvLog` (`csv_log.dfy`): `ModbusData` as a class. It covers the 500-row flush, finalisation and the `%H:%M:%S` time column.

Integers are unbounded. The bit widths that matter are explicit: `bv8` bytes, `bv16` registers and `bv32` quantities. A FLOAT32 value is kept as its 32-bit pattern. Reading that pattern as a number follows the binary32 format of IEEE 754-2008, section 3.4. That reading is not modelled: the processing step takes it as a parameter (`binary32`). Block averages are computed over exact reals.

Threads are modelled as steps that each run to completion:

- The processor loop is a sequence of `ProcessStep` calls.
- The scheduler is the `scheduledPoll` field: the delay of the `refresh` it holds, if any.
- The wall clock is the `now` argument of `Refresh`.

## Model

| member | source | states |
|---|---|---|
| Common.BigEndianWord | data_api.py:158-160 | a register is `hi * 256 + lo`; both bytes are recovered from it |
| Crc16.CalculateCrc | data_api.py:89-97 | the reflected CRC over the generator 0x8005 with crcmod's init/xor-out convention; the empty input gives the initial value 0 |
| Crc16.ValidateCrc | data_api.py:100-105 | `validate_crc(d, c)` holds iff `CalculateCrc(d) == c`; an accepted CRC rejects every copy of `d` with one byte changed |
| Crc16.CheckValue | data_api.py:89-97 | over the ASCII digits "123456789" the CRC is 0xB4C8, the catalogue check value of these parameters |
| Crc16.RegisterConcat | data_api.py:94 | feeding `p + q` equals feeding `p` and then `q` |
| Crc16.RegisterInjective | data_api.py:94 | two different registers stay different after the same data |
| Crc16.SingleByteChangeDetected | data_api.py:100-105 | changing any one byte changes the CRC, so `validate_crc` against the original CRC fails |
| DataApi.DecodeData | data_api.py:26-40 | a result exists iff the register count is 1 for UINT16 and 2 otherwise; UINT16 is the register itself; the value is a float exactly for FLOAT32 |
| DataApi.DecodeLowWordFirst | data_api.py:27-38 | a 32-bit quantity is `registers[1] * 65536 + registers[0]`: big-endian bytes, little-endian word order |
| DataApi.DecodeEncode | data_api.py:33-38 | decoding the low-word-first register pair of any 32-bit quantity gives it back, as UINT32 and as FLOAT32 |
| DataApi.EncodeDecode | data_api.py:33-38 | splitting a decoded register pair gives the registers back |
| DataApi.DecodeOnePointZero | data_api.py:36-38 | the pair `[0x0000, 0x3F80]` decodes to the FLOAT32 pattern of 1.0 |
| DataApi.ReadModbus | data_api.py:43-71 | reads `RegisterCount(t)` registers; a result exists iff the transport returns that many registers (error response or exception gives `[]`); the result is their decoding |
| DataApi.ParseFrame | data_api.py:129-176 | a result needs an accepted command, a frame of exactly the total length, and (unless CRC checking is off) a matching CRC; UINT16 gives `[]`, the other types give `ceil(D/4)` values |
| DataApi.ReadCustomData | data_api.py:129-176 | the imperative reader returns exactly `ParseFrame` of what the device does with the command and the read |
| DataApi.ReadPayload | data_api.py:156-173 | splitting and decoding the payload equals `DecodePayload` |
| DataApi.SplitWords | data_api.py:156-160 | the word loop fails iff the payload has odd length; otherwise word k is `payload[2k] * 256 + payload[2k+1]` |
| DataApi.DecodeRegisters | data_api.py:161-173 | the decode loop gives `ceil(D/4)` values, value k from registers 2k (low) and 2k+1 (high); it fails when the registers run out; UINT16 gives nothing |
| DataApi.Word32OfBytes | data_api.py:158-171 | four payload bytes p0 p1 p2 p3 give the 32-bit pattern p2 p3 p0 p1 |
| DataApi.DecodedPayloadAt | data_api.py:156-171 | value k of a decoded payload comes from payload bytes 4k .. 4k+3 in the order 2, 3, 0, 1 |
| DataApi.ReferencePayload | data_api.py:140-156 | in the reference layout (header of at least 5 bytes, CRC after the payload, payload a multiple of 4) the payload is `frame[5 .. 5+D]`, the CRC is the last two bytes big-endian and covers everything before them |
| DataApi.ReferenceLayoutOutcome | data_api.py:140-173 | in the reference layout a frame of the right length fails only on its CRC, and otherwise decodes its whole payload |
| DataApi.ReferenceLayoutParse | data_api.py:140-173 | in the reference layout the read fails iff CRC checking is on and `CalculateCrc(frame[..n-2]) != frame[n-2] * 256 + frame[n-1]`; otherwise value k is read from `frame[5+4k+2], frame[5+4k+3], frame[5+4k], frame[5+4k+1]` |
| DataApi.PayloadValues | data_api.py:156-171 | every value decoded from `frame[5 ..]` reads its four frame bytes in the order 2, 3, 0, 1 |
| DataApi.UnalignedPayloadRejected | data_api.py:156-173 | when the payload size D is not a multiple of 4, decoding a UINT32 or FLOAT32 payload of at most D bytes always fails: an odd payload cannot be split, and an even one has fewer registers than the `ceil(D/4)` values need |
| DataApi.UnalignedLayoutRejected | data_api.py:129-176 | so with such a payload size every UINT32 or FLOAT32 read returns `None`, whatever the device sends |
| DataApi.CrcMismatchRejected | data_api.py:146-151 | with CRC checking on, a frame whose CRC field disagrees gives `None` |
| DataApi.CorruptedFrameRejected | data_api.py:146-151 | with CRC checking on, changing any one byte of a frame whose CRC checks out makes the read fail |
| Acquisition.Bounded | custom_data.py:51-62 | a `deque(maxlen=cap)` keeps the last `min(n, cap)` entries of what was appended |
| Acquisition.BoundedAppend | custom_data.py:101 | appending to a trimmed deque and trimming equals trimming once at the end |
| Acquisition.BoundedKeepsNewest | custom_data.py:101 | newly appended entries that fit are the newest entries of the deque, in order |
| Acquisition.Enqueued | custom_data.py:196-200 | a `None` or empty response leaves the queue alone; otherwise the batch is appended, the oldest batch is evicted from a full queue, and the length stays at most 10 |
| Acquisition.ChunkCountIsCeiling | custom_data.py:103-104 | `range(0, n, AVG)` visits `ceil(n / AVG)` chunk starts |
| Acquisition.BlockMeansCount | custom_data.py:103-107 | there is one block mean per chunk that `range(0, n, AVG)` visits, so `ceil(n / AVG)` of them |
| Acquisition.BlockMeansAt | custom_data.py:103-107 | block mean k is the mean of `xs[k*AVG .. min(n, (k+1)*AVG)]`, so the last chunk may be shorter |
| Acquisition.BlockAverages | custom_data.py:103-107 | the averaging loop, with its non-empty-chunk check, returns exactly the block means |
| Acquisition.Consumed | custom_data.py:92-118 | an empty queue changes nothing; otherwise the oldest batch is removed, CSV rows are appended iff downloading, and both buffers stay within their capacities |
| Acquisition.ConsumedRawSample | custom_data.py:96-101 | sample i of the consumed batch sits at its place at the end of the raw buffer, stamped `t + i` ms |
| Acquisition.ConsumedBlockMean | custom_data.py:103-114 | mean k of the consumed batch sits at its place at the end of the averaged buffer, stamped `t + k*AVG` ms, and is the mean of its chunk |
| Acquisition.StampedMeanAt | custom_data.py:103-112 | stamped block mean k of a batch has time `t + k*AVG` and averages the chunk that starts at `k*AVG` |
| Acquisition.ConsumedTracks | custom_data.py:92-118 | a processing step keeps each buffer equal to the newest part of everything ever appended to it, and the queue within 10 |
| Acquisition.EnqueuedTracks | custom_data.py:196-200 | a poll touches only the queue and keeps it within 10 |
| Acquisition.CustomData.constructor | custom_data.py:35-73 | both queues and buffers empty, both files open, raw capacity `range*frequency`, averaged capacity that divided by AVG, nothing running, no poll scheduled |
| Acquisition.CustomData.GetProcessedData | custom_data.py:78-83 | the active mode's averaged buffer, at most its capacity long |
| Acquisition.CustomData.GetOriginalData | custom_data.py:85-90 | the active mode's raw buffer, at most its capacity long |
| Acquisition.CustomData.ProcessData | custom_data.py:92-118 | the imperative step on one mode's structures returns exactly `Consumed` |
| Acquisition.CustomData.ProcessStep | custom_data.py:120-138 | a step reads the mode once and consumes from that mode's structures; the other mode's are unchanged; the capacity invariant is kept |
| Acquisition.CustomData.Start | custom_data.py:141-143 | a thread that is not started starts (and ends at once if stop was requested); a live one is left alone; a finished one cannot be restarted (`ok` false) |
| Acquisition.CustomData.SetDownload | custom_data.py:145-146 | sets the download flag |
| Acquisition.CustomData.Refresh | custom_data.py:177-207 | the clock is `now` on the first poll and then advances by `CUSTOM_PROTOCO_FREQUENCY`; SIN polls with its command as FLOAT32 and DDS with its command as UINT32; only the active mode's queue receives the batch; the next poll is scheduled iff running |
| Acquisition.CustomData.SetMode | custom_data.py:148-154 | sets the mode and `running`; only the call that turns `running` on starts the processor (an unstarted one becomes alive, or finished if stop was requested) and polls once, queueing the poll on the new mode's channel and leaving the other channel unchanged; any other call changes nothing else |
| Acquisition.CustomData.Stop | custom_data.py:156-175 | stops polling and processing, cancels the scheduled poll, and closes each file that is still open, so each file is closed exactly once over any number of calls |
| CsvLog.FormatHms | data.py:15-16 | `%H:%M:%S` is eight characters with colons at positions 2 and 5 |
| CsvLog.ParseFormat | data.py:15-16 | every time of day reads back from its formatted string |
| CsvLog.FormatParse | data.py:15-16 | a string that parses is exactly the formatting of what it parses to |
| CsvLog.FormatInjective | data.py:15-16 | distinct times of day never give the same time column |
| CsvLog.ModbusData.constructor | data.py:9-12 | a fresh file, nothing written, an empty buffer |
| CsvLog.ModbusData.AddData | data.py:14-21 | appends the row `[time, int, float]`; when that makes 500 rows, all are written in order and the buffer is emptied; written rows followed by the buffer are every row added, the buffer stays under 500, and rows are written in whole chunks of 500 |
| CsvLog.ModbusData.Finalize | data.py:23-27 | writes the buffered rows and closes the file; afterwards every row added has been written exactly once; a second call fails when rows remain buffered, because the writer's file is closed |

## Left out

- The serial device, the Modbus client, logging, `client.connect()` and `bytes.fromhex` are not modelled. The device is a parameter: whether writing the command succeeds, and which bytes a read returns.
- `get_fake_data` and the `FAKE_CUSTOM_DATA` branch of `read_custom_data` (data_api.py:117-131): these are random test data.
- `write_modbus` (data_api.py:74-86): a register write, not part of the acquisition path.
- `decode_data`'s `TypeError` branch: the Dafny `DataType` has only the three supported kinds.
- Acquisition.AsReal: reading a FLOAT32 pattern as a number is left to the `binary32` parameter instead of IEEE 754. Averages are exact real arithmetic, not double-precision rounding.
- Acquisition.RawCapacity: `DISPLAY_TIME_RANGE` and `DATA_FREQUENCY` are natural numbers. The `int()` truncation of a fractional product is not modelled.
- Acquisition.CustomData.constructor: `DATA_PRINT_AVG_COUNT >= 1` is a precondition. The source divides by it when sizing the averaged buffers (custom_data.py:58), and `range` rejects a step of 0 (custom_data.py:104).
- Threads, the lock, `time.sleep(0.05)` and `join(timeout=5)` are modelled as whole steps. The processor's loop is a sequence of `ProcessStep` calls, and `Stop` assumes that `join` returns after the loop ended.
- Writing a CSV row after `stop` closed the file is not modelled, because `ProcessStep` is not called once the processor has finished.
- `get_processed_data` and `get_original_data` return the live deque, which later steps keep changing. The model returns the buffer's value at the time of the call.
- Acquisition.CustomData.Refresh: the next poll is scheduled after `SLEEP_TIME_MS`, but the logical clock advances by `CUSTOM_PROTOCO_FREQUENCY` (custom_data.py:186 versus 206). The model keeps the two separate, as the source does.
- Acquisition.CustomData.Refresh: times are whole milliseconds (`now`, `clockStepMs`, `sleepTimeMs` are integers). `datetime.now()` (custom_data.py:184) carries microseconds, and `CUSTOM_PROTOCO_FREQUENCY` and `SLEEP_TIME_MS` may be fractional; sub-millisecond times and fractional periods are not modelled.
- `__del__` of `CustomData` (custom_data.py:75-76) only calls `stop`, which is `Stop`. When the finaliser runs is not modelled.
- Acquisition.CustomData.Start: the `RuntimeError` that `set_mode` propagates when the processor thread has already ended is the result `ok == false`.
- CsvLog.ModbusData.AddData: `time.strftime` is modelled for the hour, minute and second of a time of day. How the CSV writer renders a row as text is not modelled; the file is the sequence of rows handed to the writer. `AddData` requires the file to be open, because only the finaliser closes it.
- Crc16.CalculateCrc: crcmod expects a polynomial with its leading term (0x18005 for a 16-bit CRC). The literal 0x8005 at data_api.py:91 may therefore be rejected by crcmod with an exception. `read_custom_data` would then catch that exception and return `None` for every frame while CRC checking is on. crcmod is not part of this model, so the model computes the CRC the parameters describe. With crcmod's convention that the register starts at `initCrc ^ xorOut`, that is CRC-16/USB (register start 0xFFFF, final xor 0xFFFF), not CRC-16/MAXIM. The sample frame in test.py:10 ends in `07 6B`, which is the CRC-16/MODBUS of the 807 bytes before it (0x6B07), sent low byte first. `validate_crc` reads that field big-endian as 0x076B and compares it with the CRC-16/USB value 0x94F8, so that frame is accepted only with `DISABLE_CRC` set.
