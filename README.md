# TermKeyboard key translator, modelled in Dafny

TermKeyboard reads keys decoded from a terminal and replays them as key
events on a Linux uinput virtual keyboard. This project models the part of
`kbd.c` that holds the logic:

- `fill_keymap`, which spreads the compact `kmap` table over a dense array
  of `MAP_SIZE` (10000) slots indexed by codepoint;
- the key-code declarations of `configure_dev`;
- `send_event`, modelled as appending an `(type, code, value)` triple to a
  ghost event log of the device;
- the body of the main loop: the Ctrl-A prefix mode (`ctrla`), the quit key,
  the dispatch on the class of the key, and the ordered events that bracket
  the main key with Ctrl and with the Shift or Alt its keymap slot asks for;
- the loop itself over the results of `termkey_waitkey`;
- `get_opts`.

Modules, one per component:

- `Uinput` (uinput.dfy): event triples, the `Device` class (declared event
  types and key codes, created flag, ghost event log), and the reference
  theory the translator is proved against: a *chord* presses a bracket of
  keys outermost first and releases them in reverse order, each change
  followed by a report; `Synced` says every key event is followed by a
  `SYN_REPORT`; `HeldAfter` computes which keys the kernel considers held.
- `Keymap` (keymap.dfy): the tables of keymap.h as parameters, the
  specification `Filled` of the dense array, and `FillKeymap`, the in-place
  loop over an `array<Slot>`.
- `DeviceConfig` (device_config.dfy): `Configure` and its three declaration
  loops, and `DeclaredCodes`, the declarations in the order they are issued.
- `Translate` (translate.dfy): decoded keys, the control-flow decision
  `Decide`, the emitted events `KeyEvents`, the specification `StepSpec`
  of one pass of the loop body, and the `Translator` class whose `Step`
  method sends the events through the device.
- `Session` (session.dfy): the loop `Run`, its specification `RunSpec`, and
  `RunSession`, the sequence `main` runs from `fill_keymap` on.
- `Options` (options.dfy): `get_opts` and its `strncmp`.

Constants not defined in kbd.c are taken from the headers it includes:
`EV_SYN` 0, `EV_KEY` 1, `SYN_REPORT` 0, `KEY_LEFTCTRL` 29, `KEY_LEFTSHIFT`
42, `KEY_LEFTALT` 56 (linux/input-event-codes.h), `TERMKEY_KEYMOD_CTRL` 4
(libtermkey), `EINTR` 4. A C bit mask is modelled as the set of positions of
its 1 bits, so `(a & b) != 0` is `a * b != {}`; this is exact.

In these places kbd.c does something a reader might not expect; the model
follows the code:

- A second Ctrl+A in the prefix mode is not swallowed. It clears the mode and
  falls through to emission, so it is sent as Ctrl held around the keymap
  chord of 'A' or 'a' (`Translate.SecondPrefixKeySent`, `Session.PrefixTwice`).
- Keymap slots that `kmap` does not name are not zero. The array is an
  uninitialised stack array, so the model takes it as a caller-supplied array
  with arbitrary contents.
- `fill_keymap` does not check usercodes against `MAP_SIZE`, and the
  `fnmap`/`keysymmap` lookups are not bounds-checked. The keymap lookup of a
  printable key checks only the upper bound `MAP_SIZE`, not that the codepoint
  is non-negative. These are preconditions (`UsercodesBelow`, `Indexable`,
  `StepDefined`, `RunDefined`).
- A Ctrl key beyond the dense keymap is not dropped whole. Its Ctrl press has
  been sent before the `continue`, and the Ctrl release is skipped, so Ctrl
  stays held (`Translate.DroppedKeyEvents`).
- In the prefix mode, a Function or Keysym key with Ctrl whose number is 'A'
  or 'a' passes the prefix test, which does not look at the class. It fails
  the entry test, which does. It is therefore sent and the prefix mode stays
  on (`Translate.NonUnicodeCtrlAKeepsPrefix`).
- The uinput device is never destroyed (no `UI_DEV_DESTROY`). Only the
  termkey instance is released at the end.

## Model

| member | source | states |
|---|---|---|
| `Keymap.FillKeymap` | kbd.c:97-105 | the array afterwards is `Filled(kmap, old contents)`; every slot whose codepoint has no `kmap` entry keeps its old (arbitrary) value |
| `Keymap.FilledLastWins` | kbd.c:100-104 | the slot of a codepoint holds the modifier and kernel code of the last `kmap` entry for it |
| `Keymap.FilledUnmapped` | kbd.c:100-104 | a slot whose codepoint never occurs in `kmap` is unchanged |
| `Keymap.FillIdempotent` | kbd.c:97-105 | filling an already filled array gives the same array |
| `DeviceConfig.KernelCodes` | kbd.c:57-61 | the i-th code declared by the first loop is the kernel code of the i-th `kmap` entry |
| `DeviceConfig.DeclareKmap` | kbd.c:57-61 | the declared codes grow by the `kmap` kernel codes in table order |
| `DeviceConfig.DeclareTable` | kbd.c:62-71 | the declared codes grow by the `keysymmap` (or `fnmap`) codes in table order |
| `DeviceConfig.Configure` | kbd.c:56-80 | key events are enabled; the declared codes are the `kmap`, `keysymmap` and `fnmap` codes, then left Ctrl, Alt and Shift; the device is then created; nothing is sent |
| `DeviceConfig.DeclaredCovers` | kbd.c:56-77 | every table code and the three modifier keys are among the declared codes |
| `Uinput.Device.Open` | kbd.c:40 | a freshly opened uinput descriptor has no event type or key code declared, is not created, and has been sent nothing |
| `Uinput.Device.SetEvBit` | kbd.c:56 | one event type is appended to the declared types, before creation only |
| `Uinput.Device.DevCreate` | kbd.c:79 | the device is created |
| `Uinput.Device.SendEvent` | kbd.c:83-95 | one event triple is appended to the device's event log |
| `Uinput.Device.SetKeyBit` | kbd.c:59 | one key code is appended to the declarations, before creation only |
| `Translate.PrefixEntry` | kbd.c:192-200 | a Unicode Ctrl+A outside the prefix mode sets `ctrla` and sends nothing |
| `Translate.PrefixQuit` | kbd.c:183-186 | in the prefix mode a key whose code is q or Q ends the loop and sends nothing, whatever its class and modifiers |
| `Translate.PrefixCancel` | kbd.c:183-190 | in the prefix mode any other key that is not Ctrl+A clears `ctrla` and is swallowed |
| `Translate.SecondPrefixKeySent` | kbd.c:183-244 | a second Unicode Ctrl+A clears `ctrla` and is sent as the chord Ctrl, slot modifier, slot key |
| `Translate.NonUnicodeCtrlAKeepsPrefix` | kbd.c:183-215 | a Function or Keysym Ctrl key with number 'A'/'a' in the prefix mode is sent (8 events) and `ctrla` stays set |
| `Translate.QuitOnlyFromPrefix` | kbd.c:183-186 | the step ends the loop iff it is in the prefix mode and the key, not a report, has code q or Q; a quit sends nothing |
| `Translate.ReportsInert` | kbd.c:158-179 | mouse, position, mode and unknown-CSI reports send nothing, never quit, and leave `ctrla` unchanged |
| `Translate.KeyEventsNest` | kbd.c:202-244 | the events of a key not dropped are exactly the chord of its bracket: Ctrl, Shift or Alt, main key pressed in that order, released in reverse, each followed by a report |
| `Translate.KeyEventsHeld` | kbd.c:202-244 | when the press half has been reported, the whole bracket is held at once; after the step none of it is held and other keys are untouched |
| `Translate.PrintableNest` | kbd.c:219-239 | a printable key within the keymap is the chord of its slot's modifier (if any) and its kernel code |
| `Translate.TableKeyEvents` | kbd.c:206-215 | Function and Keysym keys send the `fnmap`/`keysymmap` code pressed and released inside the optional Ctrl bracket, never Shift or Alt |
| `Translate.ModifierChoice` | kbd.c:220-239 | with distinct single-bit flags, a slot with Shift gets Shift, one with Alt gets Alt, one with both gets Shift, one with neither gets none |
| `Translate.DroppedKeyEvents` | kbd.c:202-218 | in the normal mode a printable key at or beyond `MAP_SIZE` does not end the loop and sends only the Ctrl press, if it carries Ctrl, which then stays held |
| `Translate.PlainLetter` | kbd.c:216-240 | an unmodified letter whose slot has no modifier sends press, report, release, report of its kernel code |
| `Translate.ShiftedLetter` | kbd.c:216-240 | a letter whose slot has Shift sends the eight events Shift press, key press, key release, Shift release, each followed by a report |
| `Translate.StepSynced` | kbd.c:202-244 | every key event a step sends is immediately followed by `(EV_SYN, SYN_REPORT, 0)` |
| `Translate.StepHeld` | kbd.c:202-244 | after a step at most the left Ctrl can be held beyond what was held before |
| `Translate.StepCodesDeclared` | kbd.c:202-244 | every code a step sends is declared by `configure_dev` when the keymap was filled from `kmap` and the printable key has a `kmap` entry |
| `Translate.BracketDeclared` | kbd.c:56-77 | the bracket codes of such a key are all among the declared codes |
| `Translate.Translator.constructor` | kbd.c:133-134 | the translator starts with `ctrla` cleared over the given keymap, tables and device |
| `Translate.Translator.SendPress` | kbd.c:203-204 | a key press followed by its report is appended to the log |
| `Translate.Translator.SendRelease` | kbd.c:242-243 | a key release followed by its report is appended to the log |
| `Translate.Translator.SendCtrlDown` | kbd.c:202-205 | a key with Ctrl appends the Ctrl press and its report |
| `Translate.Translator.SendMain` | kbd.c:206-240 | the dispatch appends the table code or the printable chord, or takes the `continue` exactly for a printable key beyond the keymap |
| `Translate.Translator.SendPrintable` | kbd.c:219-239 | appends the slot's Shift or Alt press, the key press and release, and the matching modifier release |
| `Translate.Translator.SendCtrlUp` | kbd.c:241-244 | a key with Ctrl appends the Ctrl release and its report |
| `Translate.Translator.SendKey` | kbd.c:202-244 | the log grows by exactly `KeyEvents` of the key |
| `Translate.Translator.Step` | kbd.c:158-245 | quit flag, new `ctrla` and appended events are those of `StepSpec` for the old `ctrla` |
| `Session.Run` | kbd.c:155-253 | the stop reason, final `ctrla` and appended events are those of `RunSpec` |
| `Session.RunSession` | kbd.c:148-253 | the keymap is filled, the device declares `DeclaredCodes` and is created, and its event log is the loop's events starting with `ctrla` cleared |
| `Session.RunSynced` | kbd.c:155-253 | every key event the loop sends is immediately followed by a report |
| `Session.RunHeld` | kbd.c:155-253 | after the loop at most the left Ctrl can be left held |
| `Session.RunCodesDeclared` | kbd.c:155-253 | every code the loop sends is declared, when printable keys within the keymap have `kmap` entries |
| `Session.RunStopReason` | kbd.c:155-253 | the loop stops on end of input, on an error other than EINTR, or on a q/Q key, each present in the input; it is left waiting only when the input holds no EOF |
| `Session.RunSpecEnd` | kbd.c:155-250 | the end of input, or an error whose errno is not EINTR, ends the loop at once with that reason and sends nothing |
| `Session.InterruptRetried` | kbd.c:246-252 | an EINTR error is skipped and the loop goes on as if it had not happened |
| `Session.PrefixThenQuit` | kbd.c:183-199 | Ctrl+A then q sends nothing and ends the loop |
| `Session.PrefixTwice` | kbd.c:183-244 | Ctrl+A twice sends the second one as a Ctrl chord and continues in the normal mode |
| `Session.OutOfRangeIgnored` | kbd.c:216-218 | a printable key beyond the keymap without Ctrl sends nothing and does not end the loop |
| `Options.DashVExactly` | kbd.c:122 | `strncmp(arg, "-v", sizeof("-v")) == 0` holds exactly for the argument "-v" |
| `Options.GetOpts` | kbd.c:118-125 | verbose output is on iff some argument, the program name included, is exactly "-v" |

## Left out

- Device I/O is modelled only as the state of the device: it starts with nothing declared or sent. Left out are the path and flags given to `open` and its failure, writing the `uidev` structure (name, bus, vendor, product, version), `usleep`, and the fatal exits of `check_ret`. Every `open`, `write` and `ioctl` is taken to succeed. The unchecked result of `UI_SET_EVBIT` is therefore irrelevant.
- libtermkey is not modelled (`termkey_new`, `termkey_strfkey`, `termkey_interpret_*`, `termkey_destroy`). The results of `termkey_waitkey` are an input sequence of `WaitResult`s. When that sequence runs out without EOF, the model reports `Waiting` where the program would block.
- The ncurses user interface (`setupui` and the commented-out calls) and all `debug`/`printf` diagnostics are left out. They do not affect the events sent.
- Key and table codes are `__u16` values. The model assumes the kernel codes in keymap.h fit in 16 bits, so the narrowing in `send_event` is not modelled.
- The `ev.time` field, zeroed by `memset` and filled in by the kernel, is not part of an event.
- The `modifier` fields and the flag values `SHIFT` and `ALT` are bit masks of unknown width. The model represents them as sets of bit positions.
- `Session.RunCodesDeclared` requires every printable key within the keymap in the input to have a `kmap` entry, even keys that the prefix mode swallows. It is therefore a sufficient condition, not the weakest one.
- `Translate.Translator.SendPress`, `SendRelease`, `SendCtrlDown`, `SendCtrlUp`, `SendMain` and `SendPrintable` split the loop body's straight-line `send_event` calls into smaller methods so that each proof stays small. The order of the calls is unchanged.
