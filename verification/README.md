# Verified model of the security system's configuration and message path

The program reads a table of devices from an INI file and then serves key/value messages: a smoke
monitor, a voice module and a socket put messages on a queue, a receiver takes them off and starts a
thread for each, and the thread looks the key up in the table and drives a GPIO pin. This project
models that path in Dafny and proves what it keeps.

* `Text`, `Ini` - strings, and the meaning of an INI text: cutting it into lines, what one line
  means, and the fold of the lines over section, open name, error and calls. A handler is a function
  from the calls it has received so far to its answer; every deterministic handler with private state
  is of that form.
* `CString`, `IniParser` - the parser as it works: a line buffer edited in place, two name buffers of 50
  bytes, a reader, a buffer that may grow. Pointers are indices. Proved equal to `Ini` for every
  configuration and text, whatever the buffers contained before.
* `Grammar` - the shapes of lines, written with characters, and what each shape means; proved to cover every
  line. `Reader`, `Runs`, `Errors`, `InlineComments`, `LineLaws`, `Delivered`, `FileLines`, `Writer` - laws of
  whole parses.
* `Numbers`, `Scanning`, `Devices`, `DeviceList`, `DeviceRoundTrip` - number scanning, the device table on values
  and as a linked list, and the round trip from a table through text to the list.
* `Handler`, `Runtime`, `Reachable`, `Settle`, `Schedules`, `Overlap` - one handler thread as code, the system as steps that
  interleave in any order, and runs that bring handlers to given points and to their ends.
* `Dispatch` - which messages start a handler, byte by byte.
* `FaceGate`, `Serial`, `GuardedPins`, `KnownKeys`, `OverlapPins`, `SmokeAlarm`, `OverlapAlarm` - the safety
  results. The program starts a detached thread per message (`src/receive_interface.c:324`), so handlers may
  overlap. Each of the three questions - may a handler meet the null device (`src/receive_interface.c:209`),
  is a guarded pin high at rest, does the alarm show the last sample - is answered for handlers one at a
  time and for overlapping ones, the latter with the exact condition on table, messages and samples.

Characters are Dafny `char`s. C's bytes are those below 256, so each statement over all strings covers
every byte string. A C string is a string without NUL.

`dafny verify dfyconfig.toml` checks the whole project.

Where code and documentation differ, the model follows the code:

* `inc/ini.h` promises the line number of the first error; the code counts buffer loads
  (`src/ini.c:168`), so a line longer than the buffer shifts the number. `FileLines.LongCommentMiscounts`
  gives a text whose malformed line 2 is reported as 3, and `FileLines.ErrorIsFileLine` says for which
  texts and configurations the promise is kept. `inc/ini.h:113-114` asks for lines at least 3 shorter than
  the buffer, and that text is outside this limit; for texts within it the number is right by
  `FileLines.FittingTextIsNumberedRight`.
* `inc/ini.h` speaks of comments starting with `;`; by default a line starting with `#` is one as well.
* `inc/ini.h:73-75` promises the same name for each continuation line. A name longer than 49 characters
  is delivered in full with its own pair and cut to 49 with its continuation lines:
  `Writer.SameNameIffItFits`, and `Writer.LongNameIsCut` for an input.

## Model

| member | source | states |
|---|---|---|
| IniParser.ParseString | src/ini.c:294-301 | for every valid configuration, NUL-free text and handler, the in-place parser returns the error and makes exactly the handler calls of the line-by-line meaning; nothing depends on what the buffers held before |
| IniParser.ParseStream | src/ini.c:108-244 | the same for a reader standing anywhere in its text, with fixed, heap or growing buffer and with or without stopping at the first error |
| IniParser.ParseLine | src/ini.c:168-233 | one loaded line: mark skipped, trimmed in place, recognised, and section, open name, error and calls updated as the line means |
| IniParser.ParseTrimmed | src/ini.c:176-233 | precedence of comment, continuation, header and pair; a blank line is a comment |
| IniParser.ParseHeader | src/ini.c:187-201 | the section is the text up to the closing bracket cut to 49, and the open name is forgotten; an unclosed header changes neither |
| IniParser.SplitPair | src/ini.c:202-216 | name and value come out trimmed and without inline comment although both are cut inside one buffer; without a separator the line is untouched |
| IniParser.ParsePair | src/ini.c:202-233 | a pair is delivered under its section and becomes the open name; a line without separator is a name without value |
| IniParser.ParseNoValue | src/ini.c:222-232 | a name without value is delivered only while there is no error, is an error when values are required, and leaves the open name |
| IniParser.StringReader.Read | src/ini.c:268-291 | one read delivers the next chunk, terminated, moves the reader behind it, and fails without effect at the end or without room |
| IniParser.GrowLine | src/ini.c:148-165 | the realloc loop assembles the line and ends with the buffer size that the pure loop computes; it terminates |
| CString.RStripInPlace | src/ini.c:59-65 | the string loses exactly its trailing spaces and no byte outside it changes |
| CString.LSkipFrom | src/ini.c:68-73 | the pointer stops at the first visible character |
| CString.FindCharsOrComment | src/ini.c:78-93 | the loop with its was_space flag stops where the position-wise search stops |
| Ini.FindFromSpec | src/ini.c:78-93 | that search finds the first position that is one of the characters or an inline-comment prefix right after a space |
| LineLaws.LineMeansIff | src/ini.c:168-233 | a line means exactly what its layout says, where a layout is a byte-order mark, spaces, a shape and spaces, and every line has one |
| Grammar.LayoutDecides | src/ini.c:170-186 | mark and outer spaces are dropped; below an open name an indented line that is no comment continues the value |
| Grammar.SettingSays | src/ini.c:202-216 | name, spaces, '=' or ':', spaces, value, spaces, inline comment: a pair of that name and that value |
| Grammar.ValueSays | src/ini.c:208-215 | the value is the text between the spaces behind the separator, in front of an inline comment |
| Grammar.TitleSays | src/ini.c:187-193 | a bracketed section is a header of that section, whatever follows the bracket |
| Grammar.BareSays | src/ini.c:222-232 | text without separator in front of an inline comment or the end is a name without value |
| Grammar.SpacesAre | src/ini.c:59-73 | spaces are the six white-space characters of the C locale, carriage return included |
| LineLaws.LineIsRead | src/ini.c:146-237 | a line that fits the buffer, anywhere in a text, does to the whole parse what its layout says |
| LineLaws.LayoutInsensitivity | src/ini.c:168-233 | lines that differ only in layout - spaces around separator and value, text behind a header, comments - can be exchanged without changing the whole parse |
| LineLaws.CrlfIsNewline | src/ini.c:59-65 | a line means the same with CR LF as with LF |
| LineLaws.CrlfInsensitivity | src/ini.c:146-237 | any run of lines that leaves room for it can end in CR LF instead of LF: calls, section, open name, error and line count of the whole parse stay |
| LineLaws.DefaultsMean | inc/ini.h:76-155 | what the default flags make of comments, inline comments, indented lines, missing values and long names |
| CString.StrNCpy0 | src/ini.c:97-105 | the destination holds the source cut to what fits, terminated |
| Reader.ChunksSpec | src/ini.c:268-291 | chunks concatenate to the text, are non-empty and at most num-1 bytes, have a newline only at the end, and are maximal |
| Reader.ChunksUnique | src/ini.c:268-291 | no other cut of the text has these properties |
| Reader.GrowIsChunk | src/ini.c:148-165 | doubling the buffer while the line does not fit assembles the line that a full-size buffer would hold |
| Reader.GrowingSeesTheSameLines | src/ini.c:147-166 | although the grown size persists from line to line, all lines are those of a fixed buffer, from any initial size of at least 2 |
| Reader.GrowingAgreesWithFixed | src/ini.c:147-166 | so whole parses with a growing and with a fixed buffer end in the same state, for every handler |
| Runs.ParseInTwoParts | src/ini.c:146-237 | parsing a+b, where a ends a line, is parsing a and resuming on b from the state reached |
| Runs.CommentInsertion | src/ini.c:168-186 | a blank or comment line inserted at any line boundary leaves all calls, the section and the open name, and shifts only later error numbers, by one |
| Runs.StopOnFirstErrorTruncates | src/ini.c:235-236 | with stopping on, the calls are a prefix and the error number is the same, for every stateful handler |
| Runs.BomInvariance | src/ini.c:170-175 | a byte-order mark in front of a text whose first line leaves room for it changes neither calls nor result |
| Errors.ErrorIsFirstFailure | src/ini.c:184-236 | the result is 0 exactly when no line is malformed and no call is rejected, and otherwise the number of the first line where either happens |
| FileLines.ErrorIsFileLine | src/ini.c:168 | that number is a line of the file, whatever the handler answers, if and only if every load that can be the first to fail has only loads ending in a newline before it; which loads these are depends on text and configuration alone |
| FileLines.NumberIsRightIff | src/ini.c:168 | for one handler: the number is never too small, and right exactly when all earlier loads end in a newline |
| FileLines.RejectedThere | src/ini.c:184-236 | every load that leads to a call or is malformed, with no malformed load before it, is the first failure under some handler |
| FileLines.LongCommentMiscounts | src/ini.c:168 | with the default flags and any handler, 250 semicolons, a newline and a bare name return 3, and the bare name is line 2 of the file |
| FileLines.FittingTextIsNumberedRight | src/ini.c:168 | the number is right for every handler when all lines of the text fit the buffer |
| InlineComments.InlineCommentInsensitivity | src/ini.c:204-215 | space, comment prefix and any text appended to a pair line that still fits leave the whole parse unchanged |
| InlineComments.LineIgnoresComment | src/ini.c:78-93 | the same for one line, including the last one without newline |
| Delivered.CallsFollowLines | src/ini.c:176-236 | for every configuration, stopping or not: section and open name are those of the last header and last pair since, cut to 49, among the lines read; the calls are exactly those these lines ask for, in order, each continuation under the open name; the handler's answers matter only to names without value, which stop at the first error, and to where a stopping parse ends |
| Delivered.DeliveredText | src/ini.c:176-221 | in every parse each call comes from a line of the text: sections have at most 49 characters, values are trimmed and on one line, names of pairs are trimmed at any length, and the name of a continuation is the last pair's trimmed name cut to 49 |
| Delivered.ValuesPresent | src/ini.c:222-232 | when values are required, every call has one |
| Writer.RoundTrip | src/ini.c:146-237 | printed headers, pairs and continuation lines are parsed back to the original calls in order with result 0 |
| Writer.ReadBackIffWritable | src/ini.c:176-221 | a printed statement is read back as what was printed if and only if it meets the writer's condition |
| Writer.SameNameIffItFits | src/ini.c:181-218 | a pair and its continuation line are delivered under the same name if and only if the name has at most 49 characters |
| Writer.LongNameIsCut | src/ini.c:181-218 | with the default flags, a name of 50 characters comes back under two names |
| Scanning.HexRoundTrip | src/receive_interface.c:39 | %x scanning inverts hexadecimal printing on every int |
| Scanning.DecRoundTrip | src/receive_interface.c:44 | %d scanning and atoi invert decimal printing on every int |
| Scanning.ScanHexReads | src/receive_interface.c:39 | on every text: spaces, sign, optional 0x or 0X, hexadecimal digits, any tail scan as the hexadecimal number of the digits, prefix or not; nothing without a digit |
| Scanning.ScanDecReads | src/receive_interface.c:44-75 | on every text: spaces, sign, decimal digits, any tail scan as the number of the digits; without a digit %d leaves the field and atoi gives 0 |
| Scanning.EveryHex | src/receive_interface.c:39 | every text has such parts |
| Scanning.NumberIgnoresCase | src/receive_interface.c:39 | capital hexadecimal digits count as small ones |
| Scanning.NumberIsPrinted | src/receive_interface.c:39-44 | digits denote the number whose printed digits they are |
| Devices.BuilderSemantics | src/receive_interface.c:12-83 | after any calls the list has one device per maximal run of equal sections, neighbours differ, and each field is the last meaningful setting of its run or 0 |
| Devices.LookupSpec | src/gdevice.c:21-41 | lookup returns the first device with the key, and none exactly when there is none |
| Devices.LookupFindsLastDefined | src/gdevice.c:30-39 | on a list built by the handler, that is the last device of the file with this key |
| DeviceList.FindGdeviceByKey | src/gdevice.c:21-41 | the walk over the linked list returns the node that lookup on values names |
| DeviceList.Pins.SetGpioGdeviceStatus | src/gdevice.c:43-65 | mode and level of the device's pin, unless a field is -1; -1 for no device |
| DeviceList.DeviceTable.OpenSection | src/receive_interface.c:16-30 | a new zeroed node in front exactly when the head is missing or has another name; the other nodes stay |
| DeviceList.DeviceTable.AssignField | src/receive_interface.c:35-76 | the setting of each name changes its field: key by %x, pin by %d, mode and status 1 or 0 by their words, the two switches by atoi; other names and unreadable values change nothing |
| DeviceList.DeviceTable.GdeviceIniHandler | src/receive_interface.c:12-83 | the linked list after a call is the value-level list after that call; the handler returns 1 |
| DeviceList.StoreStatus | src/receive_interface.c:147-160 | the device found for the key gets the new status; nodes and their order stay |
| DeviceList.UpdateKeepsTheRest | src/receive_interface.c:160 | a status update changes no key, no other device and no later lookup |
| DeviceList.ReceiveInit | src/receive_interface.c:85-91 | the list after parsing any text is the list built from the calls of the parse; sections fit the name buffer |
| DeviceRoundTrip.TableRoundTrip | src/receive_interface.c:12-83 | printing a table and parsing it rebuilds the table reversed, all fields equal, if and only if neighbours have different names |
| DeviceRoundTrip.DefaultTableRoundTrip | inc/ini.h:76-155 | the same with the default flags, for all int values, with nothing asked of the names but that they fit a header |
| DeviceRoundTrip.PrintedTableNulFree | src/receive_interface.c:12-83 | a printed table of NUL-free names is a C string, so the in-place parser may read it |
| DeviceRoundTrip.RestoreTable | src/receive_interface.c:85-91 | in-place parser and list-building handler run on a printed table leave the linked list of the table reversed, if and only if neighbours have different names |
| Handler.ReceiveThreadHandler | src/receive_interface.c:141-266 | an undisturbed handler: idle key nothing; a key the table does not have ends in the null device and changes nothing; without face check the pin takes the level; with it the pin moves only on a score above 0.5 and is raised again, and the key byte becomes 0x47 or 0x46; keys, scores and levels stand in the contract as numbers |
| Handler.UndisturbedThread | src/receive_interface.c:141-266 | a thread of the step system that runs alone does what that code does, and crashes exactly when that code meets the null device |
| Handler.HandledMeans | src/receive_interface.c:160-187 | level, key byte and pins after a message, as numbers, for a device with and without face check |
| Dispatch.TakeDispatches | src/receive_interface.c:308-326 | a message starts a handler exactly when bytes 0, 1, 4 and 5 are 0xAA, 0x55, 0x55 and 0xAA, one handler with bytes 2 and 3 as key and value; any other message leaves only the queue |
| Dispatch.StrayMessagesDoNothing | src/receive_interface.c:308-326 | from any run the messages that fail this test can be deleted: devices, pins, handlers, writes and the other messages stay |
| FaceGate.OnlyPassedThreadsWrite | src/receive_interface.c:157-187 | in every interleaving, mode and level of a pin all of whose devices are face-checked are written only by threads whose own score is above 0.5, and modes and levels come from logged writes alone |
| FaceGate.HandlersEnd | src/receive_interface.c:123-269 | in every interleaving a handler is at its end after at most 13 steps of its own, whatever the others do in between |
| KnownKeys.SerialCrashFreeIff | src/receive_interface.c:141-209 | with handlers one at a time, no handler ever meets the null device if and only if every message that starts one carries the idle key or a key of the table |
| KnownKeys.OverlapCrashFreeIff | src/receive_interface.c:141-209 | with overlapping handlers, the same if and only if the table has every key that may be looked up: those of the messages, the idle key if it is sent beside another, and 0x46 and 0x47 if a message asks for the face check |
| KnownKeys.LockAndFan | src/receive_interface.c:172-187 | a face-checked lock and a fan, one message for each: never a crash one at a time, but one when they overlap and the outcome 0x46 replaces the fan's key |
| KnownKeys.ComesToRest | src/receive_interface.c:308-326 | with known keys and handlers one at a time, every reachable state leads to an empty queue and no active handler by steps of receiver and handlers alone |
| GuardedPins.GuardedPinIsHighWhenFree | src/receive_interface.c:261-266 | such a pin that starts high is high whenever no handler is at work on it, as long as the handlers of the devices on this pin do not overlap, whatever other handlers do |
| GuardedPins.GuardedPinIsHighAtRest | src/receive_interface.c:261-266 | so with handlers one at a time it is high whenever none is active |
| OverlapPins.GuardedPinIsHighIff | src/receive_interface.c:141-266 | with overlapping handlers, such a pin that starts high is high whenever no handler is at work on it, and equally whenever the system is at rest, if and only if no message has value 0 under any key, or no key that may be looked up leads to a device on the pin |
| OverlapPins.OverlapLeavesPinLow | src/receive_interface.c:160-266 | so unlock messages for a lock alone can leave its pin low with the queue empty and no handler active |
| SmokeAlarm.SmokeGet | src/smoke_interface.c:31-70 | for any samples and any failing sends: an alarm for each low sample, an all-clear exactly where low goes to high, and nothing else |
| SmokeAlarm.MonitorAgrees | src/smoke_interface.c:31-70 | the monitor of the step system sends the same messages |
| SmokeAlarm.AlarmShowsLastSample | src/receive_interface.c:308-326 | with reliable sends and handlers one at a time, once the queue is empty and no handler is active the alarm's pin equals the last sample, if one was low, whatever other messages were served |
| OverlapAlarm.StartsShowLastSample | src/receive_interface.c:308-326 | with overlapping handlers the pin still shows the last sample at rest, if the sensor never reads high after low and no other message but one that starts the alarm starts a handler |
| OverlapAlarm.OverlapShowsLastSampleIff | src/receive_interface.c:308-326 | for known keys and a pin that is not low at first, that condition is exact |
| OverlapAlarm.ClearMisleads | src/gdevice.c:57-60 | after an all-clear the pin can be left with the wrong level even without other messages: a handler that has read the status before the others writes it last |
| OverlapAlarm.FanSilencesAlarm | src/receive_interface.c:141-160 | one message for the fan can take the key of the alarm's message, and smoke leaves the alarm's pin high |

## Left out

- `ini_parse`, `ini_parse_file` (src/ini.c:247-264): file opening and `fgets`; the string reader takes their place.
- The new-section handler call (src/ini.c:194): its flag is a static false.
- Allocation failure and custom allocators: allocation succeeds.
- `int` overflow of `lineno` and of `error`: both are unbounded here.
- An initial buffer larger than `ini_max_line` in growing mode: the code would shrink the buffer below its contents; the configurations considered exclude it. With an initial size of 1 the reader never delivers anything.
- DeviceList.GDevice: `dev_name` is a string of fewer than 128 characters instead of an array.
- DeviceList.ReceiveInit: the handler runs on the calls after the parse instead of inside it; its answer is always 1, so the parse is the same.
- Scanning.ScanHexReads: numbers that do not fit 32 bits are undefined in C; what is said of them follows a 64-bit C library (saturate, then keep the low 32 bits).
- Runtime: messages have six bytes; a shorter message, which would leave older bytes in the receiver's buffer, is not modelled, nor is the limit of the queue.
- Runtime: `set_gpio_gdevice_status` reads the status twice before it writes the pin; the two reads are one step here, and the write is another. Reading the value byte and storing the status is one step, and so are the receiver's check, copy and thread start.
- OverlapAlarm.OverlapShowsLastSampleIff: messages with a key that the table does not have are excluded; handlers that look such a key up crash, and `KnownKeys` says when that can happen.
- SmokeAlarm.AlarmShowsLastSample: senders other than the smoke monitor do not use key 0x45.
- Runtime: use of the null device (absent key) ends only that thread, as crashed, where the process would end; runs without a crash are those of `KnownKeys`.
- Handler.ReceiveThreadHandler: speech output (`src/receive_interface.c:209-244`) and display text (`src/receive_interface.c:247-259`) are not modelled; neither writes the table, the pins or the message.
- The face score is an oracle; speech output, OLED text, serial port, socket and the operating system's queue are not modelled.
- `src/control.c`, `src/main.c`: the controller list and start-up are not modelled.
- `ini/`: copies of the parser and the device code.
