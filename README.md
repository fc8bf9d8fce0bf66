# Lumina-TUI in Dafny

Lumina-TUI drives WiZ smart bulbs from the terminal. It sends JSON commands over UDP port 38899 and offers a bubbletea interface with these entries:
- power toggle;
- colour grid and hex colour entry;
- brightness steps;
- a sleep timer that survives the interface by spawning a detached worker copy of the program;
- a "Discover Devices" view, which only shows a status line: the interface never starts a scan.

The program also holds `discoverDevices`, a broadcast scan for bulbs that nothing in the interface calls.

This project models the program's core and proves what it promises:

- `Numbers`: `strconv.Atoi` and `strconv.Itoa` over decimal strings and 64-bit integers, with their round trip, and Go's int64 wrap-around.
- `HexColor`: `hexToRGB`, which trims one `#`, guards the length and decodes through `encoding/hex`. It also holds the formatting that writes a colour back, with the round trip through both.
- `Dispatch`: the `wizPayload`, its marshalling and the three-attempt `sendCommand` loop with its sleeps. The network is an oracle listing what happens to each attempt.
- `Discovery`: `discoverDevices`. The broadcast socket and the successive reads are oracles. Reading past the end of the list is the read deadline.
- `Address`: `validateConfig` and its ordered guards. `net.ParseIP` is read as an IPv4 dotted-quad scanner.
- `Flags`: what Go's `flag` package does with the four flags `main` declares: `-timer`, `-ip`, `-port` and `-off`.
- `Entry`: `main`. It covers the flag parse, the version-word loop, the timer worker (validate, sleep the int64 duration, one `setState`, exit 1) and the choice between the config file and the environment.
- `Tui`:
  - `initialModel` and every transition of `Update`, in the same layering as the Go switch statements.
  - `Update` has a value receiver, so each handler takes a `Model` and returns the changed copy. It changes fields one by one, and a power or brightness change is reverted when its send fails.
  - The text field's new value, the network outcomes and the worker's start error are inputs.
  - Sends, the config save and the worker launch are returned as effects.

Every key press keeps the invariant `Tui.Valid`: the cursors stay in range, and the brightness stays on the 10..100 grid in steps of 10.

Each key press also keeps the frame `Tui.KeyStepKeeps`:
- at most one external action;
- every send goes to the configured address;
- the power flag changes only through a delivered command;
- the brightness changes only through a delivered command, and by one step;
- the discovered devices are left alone.

The detached worker's argument list, written by `startDetachedTimer`, is proved to parse back through `main`'s flags to the same timer and address. Given an address that validates, that worker then sleeps, sends `setState` with state false once, and exits 1; given one that does not, it exits without sending.

Behaviour kept as the code has it, where a description of the program might suggest otherwise:
- `-v` and `--version` in flag position are undefined flags, so `flag.Parse` exits 2 before the version loop runs. The loop still finds them as the value of `-ip` or `-port`, or after the first non-flag argument. It finds a bare `version` as a non-flag argument, after the first non-flag argument, or as the value of `-ip` or `-port`. As the value of `-timer` or of `-off=`, `version` makes `flag.Parse` exit 2 first.
- `sendCommand` sleeps 100 ms and then 200 ms between attempts. The backoff is linear, not exponential, and there is no sleep after the last attempt.
- `sendCommand` does not validate the address.
- Discovery does not deduplicate replies. A read error after valid replies discards them. A reply whose MAC is shorter than four characters makes `mac[len(mac)-4:]` panic, which is modelled as the `Panicked` outcome.
- `detachedTimer` is set even when the worker fails to start. When the in-process timer then fires, nothing sends the power-off.
- The setup view stores the IP and port without validating them. A timer started with an address `validateConfig` refuses spawns a worker that exits at once, 0 for a version word as IP or port and 1 otherwise, without sleeping or sending. The in-process timer is marked detached, so the light is never turned off.
- `time.Duration(mins) * time.Minute` is an int64 product. Above 153722867 minutes it wraps, both in the worker's sleep and in the interface's timer; 153722868 minutes wraps to a negative duration, so the sleep returns at once.
- `strconv.Atoi` reports a range error, not a syntax error, for text whose leading digits exceed the unsigned 64-bit range before a bad character. Every caller treats both errors alike.
- The "Discover Devices" view and its `r` key only set the status; `discoverDevices` is never called, so the device list stays empty for the whole session and enter in that view changes nothing.
- The help view handles no key except ctrl+c.
- In the timer view, `q` is typed into the field and also returns to the menu.

## Model

| member | source | states |
|---|---|---|
| `Numbers.WrapInt64` | main.go:89 | The int64 result of an overflowing product: the one 64-bit value congruent to the exact one modulo 2^64, equal to it whenever it fits. |
| `Numbers.Atoi` | main.go:42-49 | A result is returned only for an optional sign followed by decimal digits; anything else is an error. The value lies in the 64-bit range, and its sign agrees with the text. |
| `Numbers.ShortTextSyntaxError` | main.go:42-45 | Text of at most 20 characters that is not a signed run of digits is a syntax error. |
| `Numbers.OverflowBeforeSyntax` | main.go:42-45 | More than 20 digits without a leading zero, followed by a bad character, are a range error: the overflow is met before the bad character. |
| `Numbers.NatDigits` | tui.go:128 | Itoa writes at least one digit, all digits, with no leading zero. |
| `Numbers.NatDigitsValue` | tui.go:128 | The digits written for n read back as n. |
| `Numbers.Itoa` | tui.go:128 | strconv.Itoa: a minus sign for a negative number, then the digits of its magnitude; its shape and round trip are the lemmas beside it. |
| `Numbers.AtoiItoa` | tui.go:128 | For every 64-bit integer, strconv.Atoi of strconv.Itoa is the same number. |
| `Numbers.ItoaShape` | tui.go:128 | Itoa's output is non-empty. It is all digits for n >= 0, and a '-' followed by digits for n < 0. |
| `HexColor.HexToRGB` | wiz.go:146-156 | The result is a colour exactly when the input is six hexadecimal digits, optionally after one '#'. |
| `HexColor.HexToRGBLength` | wiz.go:147-150 | Any length other than six after trimming one '#' is the "invalid hex" error, and only that length is. |
| `HexColor.HexToRGBValue` | wiz.go:151-155 | An accepted colour reads its last six characters as three bytes, high nibble first. |
| `HexColor.HexToRGBFirstBadByte` | wiz.go:151-154 | Six characters that are not all hexadecimal fail with encoding/hex's error for the first bad character. |
| `HexColor.HexRoundTrip` | wiz.go:146-156 | Every colour, written with or without '#' and in upper or lower case, reads back as itself. |
| `Dispatch.Marshal` | wiz.go:104-108 | Marshalling fails exactly when a parameter is not JSON-encodable, and then with the marshal error. |
| `Dispatch.MarshalRoundTrip` | wiz.go:13-16 | A marshalled payload carries exactly its method name and parameters. |
| `Dispatch.BuiltPayloadsEncode` | tui.go:283 | The setState, colour and dimming parameter bags the program builds always marshal. |
| `Dispatch.SetStateWire` | main.go:92-93 | The power command's wire form is {"method":"setState","params":{"state":s}}. |
| `Dispatch.JoinHostPort` | wiz.go:110 | The address ends with ":" and the port. A host without ':' comes first unchanged; a host with ':' comes first between brackets. |
| `Dispatch.AttemptError` | wiz.go:117-131 | A failed attempt i is reported 1-based with the address: a dial failure as a connect error, a write failure as a send error. |
| `Dispatch.FirstWritten` | wiz.go:114-140 | Finds the first attempt whose write succeeds, or reports that none of the three does. |
| `Dispatch.BackoffLog` | wiz.go:118-134 | After k failed attempts the sleeps are 100 ms times the attempt number, with none after the third attempt. |
| `Dispatch.BackoffSchedule` | wiz.go:118-120 | The sleeps are 100 ms and then 200 ms, 300 ms in all when every attempt fails. |
| `Dispatch.BackoffLogLinear` | wiz.go:114-134 | After k failed attempts, the i-th sleep is (i+1)*100 ms. There are min(k, 2) sleeps. |
| `Dispatch.SendCommand` | wiz.go:103-143 | Marshal once, then dial and write up to three times, sleeping between failures. It returns nil on the first written datagram, which carries the marshalled payload. Otherwise it returns the last attempt's connect or send error. It fails exactly when the payload cannot be encoded or no attempt is written. |
| `Discovery.ReplyMac` | wiz.go:81-88 | A reply yields a MAC exactly when it unmarshals to a map whose "result" is a map holding a string "mac". |
| `Discovery.DeviceFor` | wiz.go:89-93 | The device records the sender IP, the MAC, and "WiZ-" plus the MAC's last four characters. |
| `Discovery.DevicesOf` | wiz.go:94 | The devices of a run of replies, appended in arrival order; there are at most as many devices as replies. |
| `Discovery.CutIndex` | wiz.go:71-97 | Locates the read that ends the loop. Every read before it is a packet that does not panic. |
| `Discovery.ListenOutcome` | wiz.go:71-97 | The scan lists at most one device per read. A failure carries the cause of a read error that occurred, and a panic a MAC shorter than four characters. Without read errors and short MACs the scan always ends with its device list. |
| `Discovery.DiscoverDevices` | wiz.go:32-100 | A socket or broadcast failure returns that error. Otherwise the query is broadcast to 255.255.255.255:38899 and the read loop ends as ListenOutcome says: the devices in arrival order at the deadline, the read error, or the short-MAC panic. The loop reads once more than the packets it consumed. |
| `Discovery.CutAt` | wiz.go:71-79 | The loop stops at the first read that is not a complete packet. |
| `Discovery.DevicesOfAppend` | wiz.go:94 | Devices accumulate in arrival order across any split of the replies. |
| `Discovery.RepeatedReplyKept` | wiz.go:87-95 | A reply received twice yields its device twice. |
| `Discovery.DeviceNames` | wiz.go:89-93 | Every device is named "WiZ-" plus the last four characters of its MAC. |
| `Discovery.NoResponders` | wiz.go:74-77 | With no replies, the scan ends at the deadline with an empty list, not an error. |
| `Discovery.ReadErrorDiscards` | wiz.go:78 | A read error after valid replies returns the error and no devices. |
| `Discovery.CutAfterReadable` | wiz.go:71-79 | A run of complete packets is never cut before its end. |
| `Address.ScanIPv4` | main.go:34 | Accepted text holds only digits and dots, ends with a digit, and starts with one when scanned from the start. |
| `Address.IsIPLiteral` | main.go:34 | An accepted IP is non-empty, made of digits and dots, and starts and ends with a digit. |
| `Address.ValidateConfig` | main.go:29-52 | The address is accepted exactly for an IPv4 literal with a port Atoi reads in [1, 65535]. Otherwise the result is the first failing guard's error, in the order empty IP, invalid IP, empty port, non-number, out of range. |
| `Address.PortBoundaries` | main.go:47-49 | Ports 0 and 65536 are out of range. |
| `Address.PortLimitsAccepted` | main.go:42-51 | Ports 1 and 65535 are accepted. |
| `Address.PortSigns` | main.go:42-45 | "+80" is accepted and "-1" is out of range, since Atoi takes a sign. " 80" is not a number. |
| `Address.IPCheckedFirst` | main.go:30-36 | An unusable IP is reported whatever the port. |
| `Address.IPv4Examples` | main.go:34-36 | net.ParseIP refuses leading zeros, fields over 255, and missing, extra or empty fields. |
| `Flags.ParseBool` | main.go:70 | strconv.ParseBool as `-off=<value>` uses it: 1, t, T, TRUE, true and True are true; 0, f, F, FALSE, false and False are false; anything else is invalid. |
| `Flags.ParseFlags` | main.go:66-73 | Defines what flag.Parse does with the four declared flags; its properties are the lemmas below. |
| `Flags.ParseLeavesSuffix` | main.go:73 | Parsing consumes a prefix of the arguments: the arguments left over are a suffix of the input. |
| `Flags.ValueFlagTakesNextArgument` | main.go:68-73 | `--ip v` and `--port v` take the next argument verbatim and go on parsing after it. |
| `Flags.TimerFlagTakesNextArgument` | main.go:67-73 | `--timer N` sets the timer to the number N denotes. |
| `Flags.OffFlagAlone` | main.go:70-73 | A bare `--off` sets off to true and consumes nothing else. |
| `Entry.FindVersionWord` | main.go:76-81 | The loop finds a version word exactly when some argument is "-v", "--version" or "version". |
| `Entry.LoadConfig` | main.go:104-142 | The configuration comes from the config file when it can be read, otherwise from WIZ_IP and WIZ_PORT. An empty port defaults to 38899. Setup is needed exactly when the file does not decode or the pair does not validate. With setup not needed, the final pair validates. |
| `Entry.RunMain` | main.go:54-152 | A flag error exits 2 and help exits 0. A version word exits 0. A positive timer exits 1: it returns at once for an address that does not validate, and otherwise sleeps the int64 duration of the timer's minutes and sends setState with state !off once. Anything else starts the session on the loaded configuration. |
| `Entry.MinutesDuration` | main.go:89 | `time.Duration(n) * time.Minute`: n times 60 000 000 000 nanoseconds, wrapped to int64; also the interface's timer at tui.go:354. |
| `Entry.MinutesDurationExact` | main.go:89 | A non-negative minute count converts to its exact nanoseconds exactly when it is at most 153722867. |
| `Entry.MinutesDurationWraps` | main.go:89-91 | 153722868 minutes converts to a negative duration. |
| `Entry.VersionFlagsUndefined` | main.go:73-81 | `-v` and `--version` fail flag parsing as undefined flags, while `version` is left as an argument that the version loop sees. |
| `Entry.VersionAsTimerValueFails` | main.go:68-81 | `--timer version` fails flag parsing, so the program exits 2 before the version loop runs. |
| `Entry.VersionAsOffValueFails` | main.go:70-81 | `-off=version` fails flag parsing, so the program exits 2 before the version loop runs. |
| `Entry.ValidAddressIsNoVersionWord` | main.go:76-77 | An address that validates is never a version word. |
| `Entry.ItoaIsNoVersionWord` | tui.go:128 | The timer value Itoa writes is never a version word. |
| `Entry.WorkerArgsVersionWord` | main.go:76-81 | With a timer value that is no version word, the worker's argument list holds a version word exactly when its IP or port is one. |
| `Tui.Valid` | tui.go:213-384 | Defines the invariant: the menu, colour and device cursors stay in range, and the brightness stays on the 10..100 grid. |
| `Tui.KeyStepKeeps` | tui.go:170-393 | Defines the frame of a key press: at most one action, sends only to the configured address, power and brightness changed only by a delivered command, devices untouched. |
| `Tui.InitialModel` | tui.go:76-110 | The first model is valid. It opens on setup exactly when setup is needed, otherwise on the menu. It starts off, at brightness 100, with no timer and no devices. |
| `Tui.SessionStart` | main.go:139-145 | The first model built from the (ip, port, needsSetup) that main hands the session opens on the menu only for an address that validates. |
| `Tui.PaletteParses` | tui.go:44-52 | The grid holds 21 swatches, and every swatch's hex is a colour hexToRGB accepts. |
| `Tui.PaletteFirstQuarter` | tui.go:45-46 | Swatches 0 to 4 are well-formed colours. |
| `Tui.PaletteSecondQuarter` | tui.go:46-48 | Swatches 5 to 9 are well-formed colours. |
| `Tui.PaletteThirdQuarter` | tui.go:48-49 | Swatches 10 to 14 are well-formed colours. |
| `Tui.PaletteLastQuarter` | tui.go:50-51 | Swatches 15 to 20 are well-formed colours. |
| `Tui.PaletteColor` | tui.go:281-282 | The colour hexToRGB reads from the swatch under the cursor; the ignored error never happens, by PaletteParses. |
| `Tui.WorkerArgv` | tui.go:128 | The worker's argument list holds a version word exactly when the IP or the port is one. |
| `Tui.WorkerArgvRoundTrip` | tui.go:128 | main's flags parse the worker's argument list back to the same timer, IP and port, with off set and nothing left over. |
| `Tui.DetachedWorker` | main.go:76-100 | A version word as IP or port exits 0, and any other address that does not validate exits 1, both without sleeping or sending. For a valid address the worker sleeps the int64 duration of mins minutes, sends setState with state false once to that address, and exits 1. |
| `Tui.SendFrom` | tui.go:225 | An Update send goes to the model's address with the given payload, and fails exactly when no attempt is written. |
| `Tui.FinishTimerResult` | tui.go:151-164 | Defines the end of the timer: the timer stops and the light is taken as off. A detached timer only shows "in background" and sends nothing. Otherwise one setState(false) goes to the model's address, and the status is "Timer finished" exactly when it is delivered, else the failure. |
| `Tui.FinishTimer` | tui.go:151-164 | Its whole result is FinishTimerResult, and it keeps the invariant. |
| `Tui.SetupKeyResult` | tui.go:171-205 | Defines a setup key's result: the first enter takes the IP or 192.168.1.2, the second takes the port or 38899, saves and opens the menu; esc quits; other keys edit the field. |
| `Tui.SetupKey` | tui.go:171-205 | Its result is SetupKeyResult: enter takes the IP, falling back to 192.168.1.2, then the port, falling back to 38899. The second enter saves the configuration and opens the menu. Esc quits, and other keys edit the field. |
| `Tui.TogglePower` | tui.go:223-234 | Power is flipped and sent. It is reverted when the send fails, so it changes exactly when the command is delivered. |
| `Tui.OpenEntry` | tui.go:235-257 | Entries 1 to 6 open their views, with a cleared field for hex and timer. Discovery shows "Discovering". Entry 7 quits. |
| `Tui.MenuSelectResult` | tui.go:221-257 | Defines selecting a menu entry: entry 0 sends setState with the flipped power and, when delivered, flips it with the PowerOn/PowerOff status, else only reports the failure; entries 1 to 6 open their view and change nothing else but the cleared field (hex, timer) or the "Discovering" status; entry 7 quits. |
| `Tui.MenuSelect` | tui.go:221-257 | Its whole result is MenuSelectResult: entry 0 sends the flipped power and changes the power flag and status only as delivery decides; entries 1 to 6 open their views and send nothing; entry 7 quits. |
| `Tui.MoveMenuCursor` | tui.go:213-220 | Up and down move the menu cursor one entry, never past either end. |
| `Tui.MenuKeyResult` | tui.go:209-258 | Defines a menu key's result: q quits, up and down move the cursor within the eight entries, enter or space is MenuSelectResult, other keys change nothing. |
| `Tui.MenuKey` | tui.go:209-258 | Its whole result is MenuKeyResult: q quits and the arrows move. Enter or space toggles power on entry 0, opens the entry's view on entries 1 to 6, and quits on entry 7. Other keys change nothing. |
| `Tui.MoveColorCursor` | tui.go:264-279 | The colour cursor moves a row of three or a single swatch, and only when it stays on the palette. |
| `Tui.ApplyColor` | tui.go:282-289 | A colour is sent as setPilot at the current brightness. Only a delivered command changes the current colour and the power flag. |
| `Tui.ColorKeyResult` | tui.go:260-291 | Defines a colour-grid key's result: esc or q back, arrows move on the grid, enter sends the swatch as setPilot and on delivery makes it current with the light on. |
| `Tui.ColorKey` | tui.go:260-291 | Esc or q returns to the menu and the arrows move. Enter sends the swatch's colour and returns to the menu. Other keys change nothing. |
| `Tui.SubmitHex` | tui.go:297-311 | An invalid colour only reports "Invalid Hex". A valid one is sent, and on delivery becomes the current colour. Either way the view returns to the menu. |
| `Tui.HexKeyResult` | tui.go:293-315 | Defines a hex-entry key's result: esc back, enter reports an invalid colour or sends a valid one as setPilot, which on delivery becomes current; other keys edit the field. |
| `Tui.HexKey` | tui.go:293-315 | Esc returns to the menu and other keys edit the field. Enter returns to the menu: an invalid colour only reports "Invalid Hex"; a valid one is sent as setPilot at the current brightness and, when delivered, becomes the current colour and turns the light on. |
| `Tui.BrightnessDown` | tui.go:321-330 | Above 10, the brightness drops one step, is sent, and is reverted when the send fails. |
| `Tui.BrightnessUp` | tui.go:331-340 | Below 100, the brightness rises one step, is sent, and is reverted when the send fails. |
| `Tui.BrightnessStepResult` | tui.go:321-340 | Defines one brightness step to a level: setPilot with that dimming is sent; on delivery the level and "Brightness" status change and nothing else, otherwise only the failure is shown. |
| `Tui.BrightnessKeyResult` | tui.go:317-341 | Defines a brightness key's result: esc, q or enter back; left below-or-at 10 and right at-or-above 100 change nothing; otherwise left and right are a BrightnessStepResult of one step. |
| `Tui.BrightnessKey` | tui.go:317-341 | Its whole result is BrightnessKeyResult: esc, q or enter returns to the menu. Left and right send setPilot with the next level within 10..100, which changes the level and status only when delivered. Other keys change nothing. |
| `Tui.SubmitTimer` | tui.go:347-360 | A positive minute count starts the timer for the int64 duration of those minutes and the spinner, marks the timer detached and launches the worker; a launch failure is only reported. Anything else changes nothing but the view. |
| `Tui.TimerKeyResult` | tui.go:343-368 | Defines a timer-entry key's result: esc back, enter starts the timer and the worker for a positive count (as SubmitTimer), other keys edit the field, and q also leaves. |
| `Tui.TimerKey` | tui.go:343-368 | Esc returns to the menu and other keys edit the field; q also returns to the menu. Enter returns to the menu: a positive minute count starts the timer and the spinner for its int64 duration, marks it detached and launches the worker, reporting a launch failure; anything else changes nothing more. |
| `Tui.MoveDeviceCursor` | tui.go:377-384 | The device cursor moves one device, never past either end. |
| `Tui.SelectDevice` | tui.go:385-391 | With devices present, the one under the cursor becomes the target IP and the menu opens. Otherwise nothing changes. |
| `Tui.DiscoveryKeyResult` | tui.go:370-392 | Defines a discovery key's result: esc or q back, r only shows "Discovering", the arrows move over the devices, enter takes the selected device's IP with the "Selected" status and opens the menu, or changes nothing without devices. |
| `Tui.DiscoveryKey` | tui.go:370-392 | Its whole result is DiscoveryKeyResult: esc or q returns to the menu, r shows "Discovering", the arrows move, and enter selects the device under the cursor and opens the menu. Other keys change nothing. |
| `Tui.KeyResult` | tui.go:170-393 | Defines what a key other than ctrl+c does: the result predicate of the current view's handler; the help view ignores keys. |
| `Tui.KeyUpdate` | tui.go:170-393 | Every key other than ctrl+c, in every view, has exactly the result its view's handler defines (KeyResult), and keeps the invariant and the frame. |
| `Tui.Update` | tui.go:141-396 | ctrl+c quits from anywhere, and every other key has the KeyResult of its view. Spinner ticks continue only while a timer runs. A finished timer has exactly the FinishTimerResult: the whole new model, the single setState(false) to the model's address when not detached, and the status as delivery decides. The invariant holds after every message, and no message changes the discovered devices. |

## Left out

- Rendering (`View`), styling, icons and the spinner and text-input widgets' internals are not modelled. The field's new value after a key is an input (`typed`). The spinner and the field's blink are the returned tasks.
- Sockets, sleeps and timeouts are not modelled. The outcomes of sends and reads are oracle sequences, and the sleeps are a ghost log in milliseconds.
- The 1024-byte read buffer is not modelled: a datagram is taken whole.
- Discovery's unreachable marshal failure of its fixed query is not modelled.
- JSON is modelled as values rather than text, so key order and escaping are not modelled.
- Strings are sequences of characters, so byte-level UTF-8 is not modelled.
- Flags.ParseFlags: `-timer` is read with strconv.Atoi (base 10), while flag.Int uses base 0 and also accepts 0x, 0o, 0b, leading-zero octal and underscores.
- Flags.ParseFlags: only the four flags main declares are modelled, and the flag package's usage output is not.
- Address.ValidateConfig: IPv6 literals, which net.ParseIP accepts, are not modelled and are treated as invalid.
- Entry.RunMain: writing the config file, printing and the `p.Run` error exit are not modelled. Only the saved (ip, port) is recorded, as an effect.
- Entry.RunMain: the `Version` string is declared elsewhere in the program and is not part of this model.
- `getConfigPath` and the `.env` loader are not modelled. The config file's state and the two environment variables are inputs.
- `startDetachedTimer` is modelled only as a recorded `Spawn` effect and a start error. That covers the failures of os.Executable and of exec.Command's Start, plus process detachment. The worker it starts is modelled by `Tui.DetachedWorker`.
