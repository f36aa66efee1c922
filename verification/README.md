# uart_to_ftdi_i2c in Dafny

A Dafny model of `uart_to_ftdi_i2c`. The program emulates an NXP SC18IM704
UART-to-I2C bridge on an FTDI MPSSE cable. It listens on a serial line for
frames of the form `S <address byte> <length> ... <terminator>`. By design,
each command becomes an I2C write or read through the MPSSE library, and the
bytes of a read go back over the serial line. As written, the direction test
holds for every address byte, so every command is served as a write: no I2C
read is issued and nothing is sent back (`BridgeProps.AsWrittenNeverReads`;
see Findings). `FtdiI2C.read` is moreover a stub that never reaches the
library. As written, `main` also fails before the loop starts (see Left out).
The model covers the loop as if that setup had succeeded.

The model has three layers, following the program:

- **Status and option words** (`ft_status.dfy`, `ctypes_veneer.dfy`):
  - the `FT_Status` enumeration and its `__str__` rendering;
  - `wrapped_function`'s status check;
  - the start/stop option words of `I2C_DeviceRead` and `I2C_DeviceWrite`;
  - the transfer-count assertions;
  - `to_dataclass` and the thin wrappers over the library's entry points.

  A foreign entry point is recorded as a `DllCall` value holding its converted
  arguments. Its outcome is a `Reply`: the status it returns and the value it
  leaves in its out-parameter, both supplied by the caller. A Python function
  becomes an `Exchange`: the calls it issued, in order, and what it returned
  or raised. ctypes' silent wrap-around into `c_uint32` and `c_ubyte` is
  written out as `U32` and `U8`. An `FtdiError` is kept as the status it was
  raised for; its text, `str(status)`, is that status's rendering, and the
  rendering determines the status.
- **The package front end** (`pylibmpsse.dfy`): `get_channels` and the
  `FtdiI2C` context manager. `mytypes.dfy` holds the `DeviceListInfo` record.
- **The frame engine** (`bridge.dfy`): the loop of `main` written as a pure
  transition function.
  - `Step` takes a state and one input, and returns the next state and the
    actions taken.
  - An input is one of: the answer to the pending serial read (bytes, or a
    timeout), the outcome of the pending I2C call, or the operator's Ctrl-C.
  - The actions are: the serial read that was issued (count and timeout),
    I2C calls, bytes written back, the idle log line, and the channel close
    done by the `with` block.
  - `Run` folds `Step` over a sequence of inputs. It goes through `Turn`,
    under which an input that answers nothing the loop is blocked on changes
    nothing; the theorems about frames also prove that their inputs fit.
  - `Conforms` says that each input answers what the loop is actually blocked
    on.

`frames.dfy` defines the frame grammar on its own: commands, frames, the
inputs they produce and the trace the protocol prescribes for them. It proves
that the engine follows that grammar frame by frame and across frames.
`scenarios.dfy` works through concrete byte sequences.

The engine takes a `Variant` parameter:

- `AsWritten` is the code as it stands.
- `Corrected` repairs the two defects listed under Findings: the direction
  test and the stop flag.

The theorems about frames hold for both variants. The scenario lemmas show
where the two differ.

## Where the code departs from SC18IM704 framing

A host that follows the SC18IM704 framing sketched above would expect
different behaviour in the following cases. The model follows the code in
each case.

- An address-phase timeout does `continue` (line 94). The engine stays in the
  address phase under the bounded timeout; it does not go back to Idle. A
  host that gives up and sends a fresh `'S'` therefore has it read as an
  address byte (`Scenarios.AddrTimeoutSwallowsStart`).
- An exception from an I2C call is not caught: only `KeyboardInterrupt` is.
  A failed transfer ends the loop, and the `with` block closes the channel on
  the way out. It does not abandon only the frame.
- The idle branch logs a variable that only the write branch binds
  (line 125). The model logs and stays in Idle.

## Model

| member | source | states |
|---|---|---|
| Base.U32 | uart_to_ftdi_i2c/pylibmpsse_i2c/ctypes_veneer.py:145 | a `c_uint32` conversion keeps every in-range value and otherwise wraps modulo 2^32 |
| FtStatus.Code | uart_to_ftdi_i2c/pylibmpsse_i2c/ctypes_veneer.py:25-45 | each member's value is its position in declaration order (0..18); only `FT_OK` is 0 |
| FtStatus.FromCode | uart_to_ftdi_i2c/pylibmpsse_i2c/ctypes_veneer.py:99 | `FT_Status(code)` succeeds exactly for 0..18 and yields the member with that value |
| FtStatus.CodeRoundTrip | uart_to_ftdi_i2c/pylibmpsse_i2c/ctypes_veneer.py:25-45 | value and member determine each other |
| FtStatus.Name | uart_to_ftdi_i2c/pylibmpsse_i2c/ctypes_veneer.py:27-45 | every member name starts with `FT_` and has more after it |
| FtStatus.TitleFrom | uart_to_ftdi_i2c/pylibmpsse_i2c/ctypes_veneer.py:49 | `str.title` (ASCII): a letter is upper-cased after an uncased character and lower-cased after a cased one; other characters are unchanged |
| FtStatus.RenderBody | uart_to_ftdi_i2c/pylibmpsse_i2c/ctypes_veneer.py:49 | replace-then-title keeps the length, removes every underscore, and agrees with the name up to case, with underscores turned into spaces |
| FtStatus.Render | uart_to_ftdi_i2c/pylibmpsse_i2c/ctypes_veneer.py:47-49 | the message is the name without its `FT_` prefix, with no underscore left |
| FtStatus.RenderRoundTrip | uart_to_ftdi_i2c/pylibmpsse_i2c/ctypes_veneer.py:47-49 | upper-casing the message and turning spaces back into underscores recovers the name |
| FtStatus.RenderInjective | uart_to_ftdi_i2c/pylibmpsse_i2c/ctypes_veneer.py:47-49 | distinct statuses render to distinct messages |
| FtStatus.RenderDeviceNotFound | uart_to_ftdi_i2c/pylibmpsse_i2c/ctypes_veneer.py:49 | `FT_DEVICE_NOT_FOUND` renders as `Device Not Found` |
| CtypesVeneer.CheckStatus | uart_to_ftdi_i2c/pylibmpsse_i2c/ctypes_veneer.py:97-106 | a call passes exactly when it returns `FT_OK`, and its status is handed back; any other member raises `FtdiError` for that member, whose text is the member's rendering; a value outside the enumeration raises `ValueError` |
| CtypesVeneer.CheckStatusMessageIdentifies | uart_to_ftdi_i2c/pylibmpsse_i2c/ctypes_veneer.py:97-101 | two failing calls raise the same error, or `FtdiError`s with the same text, only if they returned the same code |
| CtypesVeneer.ReadOptions | uart_to_ftdi_i2c/pylibmpsse_i2c/ctypes_veneer.py:181 | the read word lies in 0..3; bit 0 is start, bit 1 is stop, bit 4 is clear |
| CtypesVeneer.WriteOptions | uart_to_ftdi_i2c/pylibmpsse_i2c/ctypes_veneer.py:196 | the write word lies in 16..19; bit 0 is start, bit 1 is stop, bit 4 is set |
| CtypesVeneer.OptionWordsDistinct | uart_to_ftdi_i2c/pylibmpsse_i2c/ctypes_veneer.py:181 | each encoding is injective in (start, stop), and no read word equals a write word |
| CtypesVeneer.UpToNul | uart_to_ftdi_i2c/pylibmpsse_i2c/ctypes_veneer.py:75-76 | `string_at` yields a NUL-free prefix that stops at the first NUL, or the whole array |
| CtypesVeneer.UpToNulUnique | uart_to_ftdi_i2c/pylibmpsse_i2c/ctypes_veneer.py:75-76 | that prefix is the only one with these properties |
| CtypesVeneer.ToDataclass | uart_to_ftdi_i2c/pylibmpsse_i2c/ctypes_veneer.py:68-78 | numeric fields and the handle are copied; serial and description are the NUL-free prefixes of their 16- and 64-byte arrays, `UpToNul` of each array, which stop only at the first NUL or at the array's end and are the only prefixes that do (`UpToNulUnique`) |
| CtypesVeneer.GetNumChannels | uart_to_ftdi_i2c/pylibmpsse_i2c/ctypes_veneer.py:126-134 | one `I2C_GetNumChannels` call; on success the count the library left behind, otherwise the status error |
| CtypesVeneer.GetChannelInfo | uart_to_ftdi_i2c/pylibmpsse_i2c/ctypes_veneer.py:137-146 | one `I2C_GetChannelInfo` call for the wrapped index (0 by default); on success the converted record, otherwise the status error |
| CtypesVeneer.OpenChannel | uart_to_ftdi_i2c/pylibmpsse_i2c/ctypes_veneer.py:149-152 | one `I2C_OpenChannel` call; on success the handle it produced, otherwise the status error (`FtdiError` for 1..18, `ValueError` outside) |
| CtypesVeneer.ChannelConfigFor | uart_to_ftdi_i2c/pylibmpsse_i2c/ctypes_veneer.py:155-159 | clock rate, latency and options are stored as given when in range; pin fields stay zero |
| CtypesVeneer.InitChannel | uart_to_ftdi_i2c/pylibmpsse_i2c/ctypes_veneer.py:155-160 | one `I2C_InitChannel` call on the handle with that configuration; success exactly on `FT_OK`, otherwise the status error |
| CtypesVeneer.CloseChannel | uart_to_ftdi_i2c/pylibmpsse_i2c/ctypes_veneer.py:163-164 | one `I2C_CloseChannel` call on the handle; success exactly on `FT_OK`, otherwise the status error |
| CtypesVeneer.ReadDevice | uart_to_ftdi_i2c/pylibmpsse_i2c/ctypes_veneer.py:167-190 | a negative count raises `ValueError` from `bytes(count)` with no library call; otherwise one `I2C_DeviceRead` with the read word; success exactly when the status is `FT_OK` and the whole count transferred; a bad status raises before the count assertion |
| CtypesVeneer.WriteDevice | uart_to_ftdi_i2c/pylibmpsse_i2c/ctypes_veneer.py:193-197 | one `I2C_DeviceWrite` of all the data with the write word; success exactly when the status is `FT_OK` and every byte transferred |
| Pylibmpsse.GetChannels | uart_to_ftdi_i2c/pylibmpsse_i2c/__init__.py:6-13 | the count query, then channels 0, 1, ... in order; success exactly when every call passes, with one converted record per channel; otherwise the first failing call's error, and nothing after it |
| Pylibmpsse.Construct | uart_to_ftdi_i2c/pylibmpsse_i2c/__init__.py:27-29 | open the channel, then initialise the handle it returned at the frequency with latency 16; success exactly when both pass; otherwise the open's status error, or the init's when the open passed; the handle is never closed on the way |
| Pylibmpsse.Exit | uart_to_ftdi_i2c/pylibmpsse_i2c/__init__.py:35-36 | closes exactly the stored handle; a failing close raises its status error |
| Pylibmpsse.Write | uart_to_ftdi_i2c/pylibmpsse_i2c/__init__.py:38-39 | forwards address, data, start and stop unchanged to `write_device` on the stored handle; a bad status raises its status error, then a short transfer raises the assertion |
| Pylibmpsse.ReadIgnoresArguments | uart_to_ftdi_i2c/pylibmpsse_i2c/__init__.py:41-42 | the `read` stub issues no call and returns `None`, whatever its arguments |
| Pylibmpsse.Lifecycle | uart_to_ftdi_i2c/pylibmpsse_i2c/__init__.py:27-39 | every call after the open uses the handle the open returned, and the exit closes that handle |
| Bridge.IsWrite | uart_to_ftdi_i2c/uart_to_ftdi_i2c.py:91 | the direction test as written holds for every byte |
| Bridge.Addr | uart_to_ftdi_i2c/uart_to_ftdi_i2c.py:92 | the 7-bit address is the address byte floor-divided by two |
| Bridge.Pending | uart_to_ftdi_i2c/uart_to_ftdi_i2c.py:83-114 | only the idle read has no timeout; every read asks for at least one byte |
| Bridge.Step | uart_to_ftdi_i2c/uart_to_ftdi_i2c.py:80-129 | a serial answer first completes the pending read; the loop ends exactly on Ctrl-C or an exception from the I2C call, and then it only closes the channel |
| BridgeProps.LowBitRoundTrip | uart_to_ftdi_i2c/uart_to_ftdi_i2c.py:91-92 | with the low-bit test, decoding inverts the host's encoding of (address, direction), and every byte is such an encoding |
| BridgeProps.AsWrittenMisreadsReads | uart_to_ftdi_i2c/uart_to_ftdi_i2c.py:91 | as written, a host's read request decodes as a write |
| BridgeProps.StopFlagVariants | uart_to_ftdi_i2c/uart_to_ftdi_i2c.py:107-114 | as written, a terminator stops exactly when it is `'S'` (0x53), in both branches; corrected, exactly `'S'` chains; the variants disagree on every byte |
| BridgeProps.StepIssuesAtMostOneCall | uart_to_ftdi_i2c/uart_to_ftdi_i2c.py:98-121 | a step issues at most one I2C call, and one exactly when it starts waiting for the bus |
| BridgeProps.IdleBytes | uart_to_ftdi_i2c/uart_to_ftdi_i2c.py:83-85 | in Idle, `'S'` opens the address phase; any other byte is logged and dropped without bus or serial traffic |
| BridgeProps.ReadTimeouts | uart_to_ftdi_i2c/uart_to_ftdi_i2c.py:83-113 | the idle read waits forever; every in-frame read is bounded |
| BridgeProps.AddrTimeoutRetries | uart_to_ftdi_i2c/uart_to_ftdi_i2c.py:88-94 | an address-phase timeout reads another pair and stays in the address phase |
| BridgeProps.FrameTimeoutAbandons | uart_to_ftdi_i2c/uart_to_ftdi_i2c.py:100-117 | a timeout in the write or read phase abandons the frame without any I2C call |
| BridgeProps.WritePhaseCompletes | uart_to_ftdi_i2c/uart_to_ftdi_i2c.py:102-109 | the `len + 1` bytes split into a payload of exactly `len` bytes and a terminator; one I2C write of that payload, with start set and stop from the terminator |
| BridgeProps.ReadPhaseCompletes | uart_to_ftdi_i2c/uart_to_ftdi_i2c.py:112-118 | one I2C read of `len` bytes, with start set and stop from the terminator |
| BridgeProps.BusReturns | uart_to_ftdi_i2c/uart_to_ftdi_i2c.py:118-123 | after the call, stop returns to Idle and no stop to the address phase; a read sends back exactly the returned bytes, a write nothing |
| BridgeProps.BusRaises | uart_to_ftdi_i2c/uart_to_ftdi_i2c.py:76-129 | an exception from the call ends the loop and closes the channel |
| BridgeProps.RunPrepend | uart_to_ftdi_i2c/uart_to_ftdi_i2c.py:80-81 | a run is its first turn followed by the rest |
| BridgeProps.ConformsAppend | uart_to_ftdi_i2c/uart_to_ftdi_i2c.py:80-81 | two input sequences fit back to back exactly when the second fits where the first leaves the loop |
| BridgeProps.RunAppend | uart_to_ftdi_i2c/uart_to_ftdi_i2c.py:80-81 | running two input sequences back to back chains the states and concatenates the actions |
| BridgeProps.AsWrittenNeverReads | uart_to_ftdi_i2c/uart_to_ftdi_i2c.py:91 | as written, from any state outside a read, no input sequence leads to an I2C read or to serial output |
| Frames.CommandRun | uart_to_ftdi_i2c/uart_to_ftdi_i2c.py:86-123 | one well-formed command from the address phase does exactly what the protocol prescribes; it ends in Idle on a stop and back in the address phase otherwise |
| Frames.ChainRun | uart_to_ftdi_i2c/uart_to_ftdi_i2c.py:86-123 | a frame's commands are served in order, and the engine is back in Idle after the last |
| Frames.FrameRun | uart_to_ftdi_i2c/uart_to_ftdi_i2c.py:80-123 | a whole frame from Idle does exactly the prescribed trace and ends in Idle |
| Frames.FrameBehaviour | uart_to_ftdi_i2c/uart_to_ftdi_i2c.py:85-123 | a frame makes exactly one I2C call per command, in order, each with start set and the terminator's stop; the host gets back exactly the read replies, concatenated |
| Frames.SingleCommand | uart_to_ftdi_i2c/uart_to_ftdi_i2c.py:85-123 | `'S'` and one command make its one call, then end in Idle on a stop and in the address phase otherwise |
| Frames.NoiseRun | uart_to_ftdi_i2c/uart_to_ftdi_i2c.py:83-85 | bytes other than `'S'` in Idle are dropped without bus or serial traffic |
| Frames.Resynchronises | uart_to_ftdi_i2c/uart_to_ftdi_i2c.py:83-85 | noise before a frame changes nothing the frame does |
| Frames.Session | uart_to_ftdi_i2c/uart_to_ftdi_i2c.py:80-123 | frames in a row are served independently: calls and replies concatenate frame by frame, with Idle between frames |
| Frames.RepeatedFrame | uart_to_ftdi_i2c/uart_to_ftdi_i2c.py:98-109 | the same frame twice yields the same I2C calls twice |
| Scenarios.RepeatedStartStopsAsWritten | uart_to_ftdi_i2c/uart_to_ftdi_i2c.py:107 | as written, `S 0x54 0x02 0x00 0x00 S` writes with stop set and ends the frame |
| Scenarios.RepeatedStartChains | uart_to_ftdi_i2c/uart_to_ftdi_i2c.py:107 | corrected, the same bytes write without stop and wait for the next command |
| Scenarios.ReadFrameServed | uart_to_ftdi_i2c/uart_to_ftdi_i2c.py:111-121 | corrected, `S 0x55 0x05 S` reads five bytes from 0x2A without stop and sends exactly those bytes back |
| Scenarios.ReadFrameTakenAsWrite | uart_to_ftdi_i2c/uart_to_ftdi_i2c.py:91 | as written, the same bytes wait for six bytes of write data, time out, and neither read the bus nor answer |
| Scenarios.AddrTimeoutSwallowsStart | uart_to_ftdi_i2c/uart_to_ftdi_i2c.py:88-94 | after an address-phase timeout a fresh `'S'` is decoded as the address byte 0x53 |
| Scenarios.WriteThroughAdapter | uart_to_ftdi_i2c/uart_to_ftdi_i2c.py:109 | an engine write is one `I2C_DeviceWrite` with option word 17 or 19; the loop survives it exactly when the status is `FT_OK` and every byte transferred |
| Scenarios.RepeatedStartOnTheWire | uart_to_ftdi_i2c/uart_to_ftdi_i2c.py:107-109 | the first scenario's write carries option word 19 as written and 17 corrected |

## Left out

- `_process_arguments` (argument parsing, the pickled port setting in the home directory): configuration I/O, not protocol logic.
- Loading the library and the platform check: the entry points are foreign code, and each is modelled as a recorded call plus a caller-supplied reply.
- `main` as written never reaches the loop. Line 27 calls `getattr(obj, 'com')` on a `dict` without a default, which raises `AttributeError` on both the pickle path and the fresh-`dict()` path. Line 77 passes `arguments.port`, which argparse never sets, since the option at lines 36-40 is `--uart`. That raises `AttributeError` after the `FtdiI2C` has been built, and its `__exit__` closes the channel. The model starts at line 80 as if both had succeeded.
- The serial port is modelled only through its reads and writes. It would be opened at 9600 baud and closed when the `with` block ends, but as written it is never opened (line 77, above). The model records only the I2C channel's close.
- The real-time length of the bounded timeout (0.7 s): only the difference between no timeout and a bounded one is modelled.
- Bridge.Step: a serial read is either complete or a timeout. pyserial returns a short read when the timeout expires; the model follows the code's `except` clauses, which expect a timeout exception.
- Bridge.Step: the idle log line records no text. Line 125 formats a name that only the write branch binds, so before the first write it would raise a `NameError`. The model logs and stays in Idle.
- Bridge.Step: Ctrl-C is an input taken between turns only. An interrupt in the middle of an I2C call is not distinguished.
- Bridge.Step: the close done on exit always succeeds in the model. A failing close inside `__exit__` would replace the exception being propagated.
- Pylibmpsse.Read: `FtdiI2C.read` is a stub that returns `None`, and its `start` default is the type `bool`, which is truthy. The engine's read branch takes the bus's bytes as an input instead of calling the stub. As written that branch is unreachable (`BridgeProps.AsWrittenNeverReads`); run with the stub, `uart.write(None)` would raise.
- CtypesVeneer.ReadDevice: the bytes `read_device` hands back (the `c_char_p` buffer) are not modelled; only the call, the status check and the count assertion are.
- CtypesVeneer.ToDataclass: serial number and description stay bytes. Their UTF-8 decoding (and its possible `UnicodeDecodeError`) is not modelled.
- CtypesVeneer.ChannelConfigFor: the frequency is an integer. `int(frequency)` truncating a float such as `100e3` is not modelled; the default is taken as 100000.
- A `c_void_p` handle of NULL comes back to Python as `None`; the model's handle is always an integer.

## Findings

| source | as written | input that shows it | evidently intended | confidence | as-written member | corrected member |
|---|---|---|---|---|---|---|
| uart_to_ftdi_i2c/uart_to_ftdi_i2c.py:91 | `write = addr % 1 == 0` holds for every byte, so every frame is served as a write | `S 0x55 0x05 S`: a read of five bytes from 0x2A | `addr % 2 == 0`: an even address byte writes, an odd one reads | high; not executed | Scenarios.ReadFrameTakenAsWrite | Scenarios.ReadFrameServed |
| uart_to_ftdi_i2c/uart_to_ftdi_i2c.py:107 | `next_char_stop = next_char == ord('S')` (and the same test at line 114): a terminator `'S'` sets stop and ends the frame | `S 0x54 0x02 0x00 0x00 S`: a write chained by a repeated start | `'S'` is a repeated start, so stop is clear and the loop returns to the address phase; any other terminator stops | medium; not executed | Scenarios.RepeatedStartStopsAsWritten | Scenarios.RepeatedStartChains |
