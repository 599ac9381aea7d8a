# Dongle boot and flashing sequencer, in Dafny

This project models the core of `dongle/utils.py` from longan-link/dongle and proves what it promises:

- `get_dev` picks the serial device the Zigbee dongle is reached on.
- `boot` drives the dongle's bootloader pin (bsl) and reset pin (rst) over GPIO. It restarts the dongle in download mode and flashes it when a firmware path is given, then restarts it in run mode.
- `flash_firmware` runs the serial-bootloader sequence over one port:
  - open the port and enter the bootloader;
  - load the image and synchronise;
  - identify the chip and choose the device variant;
  - optionally switch to the external oscillator at 1000000 baud;
  - mass erase and page erase;
  - write the image and verify it by CRC32;
  - program the IEEE address;
  - read memory back;
  - disable the bootloader and reset the target.

  The first failure ends the run, and `exit_` turns the failure into a process exit.

Modules, one per file:

- `wrappers.dfy` (`Wrappers`): `Option`.
- `bsl.dfy` (`Bsl`): the serial-bootloader library the flasher drives. `CommandInterface` is a class that records every command it is asked to send. The target board is an oracle (`Target`) that says how each command is answered.
- `flash_plan.dfy` (`FlashPlan`): the reference semantics of one run.
  - `FlashConf` is the typed `conf` dictionary, and `DefaultConf` holds the values `flash_firmware` hard-codes.
  - The run is 14 stages in a fixed order. `Enabled` is each stage's `if conf[...]` guard. `StepOf` gives the commands the stage issues and whether it succeeds.
  - `RunFrom` and `FlashRun` run the stages, stopping at the first failure.
  - `Prefix`, `PrefixOk` and `Stop` describe how far a run gets.
- `flasher.dfy` (`Flasher`): `flash_firmware` as the step-by-step procedure the source writes.
  - It drives a `CommandInterface`, keeps `address` and `baud` as local state, and returns at the first failure.
  - It has the 4-byte read loop.
  - Each method is proved to leave the log, outcome and readback that `FlashRun` gives.
- `flash_properties.dfy` (`FlashProperties`): properties of `FlashRun`:
  - which stage sends which command, and the order of stages in the log;
  - the early stop on a failed synch or speed upgrade;
  - the reset after a CRC mismatch and at the end of a good run;
  - the readback;
  - the little-endian IEEE address;
  - the default configuration end to end.
- `board.dfy` (`Board`): `get_dev`, and Python's substring test.
- `boot.dfy` (`Boot`): the GPIO host as a class, `boot` as a method, and the pin levels each sequence leaves.
  - The host keeps the pin levels and the list of events: GPIO calls, sleeps, and a flashing run's serial traffic.
  - It keeps the invariant that the levels are those the events lead to.

Inputs the source reads from the outside world are parameters:

- the board type the GPIO library reports;
- whether `/dev/ttyUSB0` exists;
- the firmware file's bytes and CRC32, or `None` when the file cannot be loaded;
- the bootloader library's tables (`CHIP_ID_STRS`, the CC2538 and CC26xx profiles, `parse_page_address_range`);
- the target's answers.

Behaviours of the code that are easy to miss; the model follows the code:

- **Synchronisation only with an image.** The synch is sent only when `write` or `verify` is set (dongle/utils.py:134-144). Without either, the chip id query follows bootloader entry directly (`FlashProperties.NoSynchWithoutImage`).
- **No run-mode restart after a failed flash.** `boot` does not restart in run mode after a failed flash. `exit()` raises SystemExit, and `except KeyboardInterrupt` (dongle/utils.py:87-88) lets it through, so the dongle stays in download mode (`Boot.FailedFlashSkipsRunMode`).
- **The alternate UART path is not checked.** The board's UART is chosen when `/dev/ttyUSB0` is absent. Whether the UART device itself exists is never checked (dongle/utils.py:47-48).
- **Readback overwrites the firmware file.** The readback file is the firmware path itself, opened for writing (dongle/utils.py:250). It holds the words read before a failing read.
- **The page erase result is not checked** (dongle/utils.py:199).
- **An unknown chip id is not an error.** It selects the CC13xx/CC26xx profile (dongle/utils.py:153-158).

## Model

| member | source | states |
|---|---|---|
| Board.GetDev | dongle/utils.py:42-50 | /dev/ttyUSB0 when it exists or the board is neither a Pi 3 Model B nor a Jetson Nano; otherwise /dev/ttyS0 on the Pi and /dev/ttyTHS1 on the Nano |
| Board.BoardType | dongle/utils.py:43 | definition: `RPI_INFO["TYPE"]`, or "unknow" when the GPIO module has no RPI_INFO or it has no TYPE |
| Board.Contains | dongle/utils.py:61 | definition of Python's `sub in s` on strings; `Board.ContainsIff` proves it is the substring test |
| Board.ContainsIff | dongle/utils.py:61 | the substring test finds `sub` exactly when it occurs at some position of `s` |
| Board.LacksChar | dongle/utils.py:61 | a string missing one of `sub`'s characters does not contain `sub` |
| Board.UsbPath | dongle/utils.py:45-61 | the device path contains "ttyUSB0" exactly when it is /dev/ttyUSB0, so the GPIO sequence runs exactly for the on-board UARTs |
| Boot.WiringFor | dongle/utils.py:23-33 | BOARD numbering exactly on a Jetson Nano; the reset and bootloader pins always differ |
| Boot.AllAt | dongle/utils.py:65 | setting up a list of pins at one level writes that level to each pin, in order |
| Boot.Host.constructor | dongle/utils.py:22-39 | a host starts with no events and the given pin levels |
| Boot.Host.Do | dongle/utils.py:63-85 | recording an event applies it to the pins and keeps levels equal to the replay of all events |
| Boot.Host.SetWarnings | dongle/utils.py:63 | records the call; pins unchanged |
| Boot.Host.SetMode | dongle/utils.py:64 | records the numbering mode; pins unchanged |
| Boot.Host.Setup | dongle/utils.py:65 | the listed pins take the initial level |
| Boot.Host.Output | dongle/utils.py:72-74 | the pins are set in turn to the given levels |
| Boot.Host.Sleep | dongle/utils.py:73-75 | records the delay; pins unchanged |
| Boot.Host.Serial | dongle/utils.py:77 | records a flashing run's serial commands; pins unchanged |
| Boot.Truthy | dongle/utils.py:68 | definition: Python truthiness of the firmware path, given and not empty |
| Boot.Prelude | dongle/utils.py:63-65 | definition: warnings off, the numbering mode, both pins set up as outputs HIGH |
| Boot.EnterFlash | dongle/utils.py:72-75 | definition: bsl and rst LOW, 300 ms, rst HIGH, 300 ms; its effect on the pins is `Boot.EnterFlashLevels` |
| Boot.RunMode | dongle/utils.py:82-85 | definition: bsl HIGH and rst LOW, 300 ms, rst HIGH, 300 ms; its effect on the pins is `Boot.RunModeLevels` |
| Boot.FlashEvents | dongle/utils.py:71-85 | the download-mode restart, then the run's serial traffic as the fifth event; the run-mode restart follows exactly when the run did not fail |
| Boot.BootEvents | dongle/utils.py:61-88 | no events exactly on the USB adapter; otherwise at least seven, starting with the pin setup |
| Boot.SetUpPins | dongle/utils.py:63-65 | appends warnings off, the numbering mode and both pins set up HIGH |
| Boot.EnterDownloadMode | dongle/utils.py:71-75 | appends bsl and rst LOW, 300 ms, rst HIGH, 300 ms |
| Boot.RunModeRestart | dongle/utils.py:81-85 | appends bsl HIGH and rst LOW, 300 ms, rst HIGH, 300 ms |
| Boot.FlashAndRestart | dongle/utils.py:68-85 | download mode, then the flashing run with `exit_` set, then the run-mode restart unless the run failed |
| Boot.BootOn | dongle/utils.py:61-88 | nothing on the USB adapter; otherwise pin setup, then flashing exactly when a non-empty firmware path is given, then run mode unless the flash failed |
| Boot.Boot | dongle/utils.py:53-88 | the device is `get_dev`'s; a flash happens exactly off the USB adapter with a firmware path; its result is the reference run under the default configuration; a failed run ends in SystemExit; the events are those `BootEvents` lists |
| Boot.RunModeLevels | dongle/utils.py:81-85 | the run-mode restart leaves both pins HIGH, whatever they were |
| Boot.EnterFlashLevels | dongle/utils.py:71-75 | when bsl and rst are two pins, the download-mode restart leaves bsl LOW and rst HIGH |
| Boot.UsbDoesNothing | dongle/utils.py:61 | on the USB adapter boot has no events |
| Boot.FlashAfterDownloadMode | dongle/utils.py:67-77 | off the USB adapter, a serial event needs a firmware path and is the eighth event, after pin setup and the download-mode restart; with two distinct pins, bsl is LOW and rst HIGH at that point |
| Boot.BootEndsInRunMode | dongle/utils.py:78-85 | off the USB adapter and unless a flash failed, boot starts with pin setup and ends with the run-mode restart, both pins HIGH |
| Boot.FailedFlashSkipsRunMode | dongle/utils.py:77-88 | a failed flash makes boot end after eight events, the flash last, with bsl LOW and rst HIGH |
| Bsl.CommandInterface.constructor | dongle/utils.py:127 | a new client has sent nothing and has no open port |
| Bsl.CommandInterface.Open | dongle/utils.py:128 | records the open; the port is open as the target answers, first or reopened |
| Bsl.CommandInterface.Close | dongle/utils.py:166 | records the close; the port is closed |
| Bsl.CommandInterface.InvokeBootloader | dongle/utils.py:129-131 | records bootloader entry with the two line options |
| Bsl.CommandInterface.SendSynch | dongle/utils.py:140 | records the synch; the answer before or after the reopen |
| Bsl.CommandInterface.GetChipId | dongle/utils.py:150 | records the query; returns the target's chip id |
| Bsl.CommandInterface.SetXOsc | dongle/utils.py:165 | records the oscillator switch and its answer |
| Bsl.CommandInterface.Erase | dongle/utils.py:189 | records the mass erase and its answer |
| Bsl.CommandInterface.EraseMemory | dongle/utils.py:199 | records the page-range erase |
| Bsl.CommandInterface.WriteMemory | dongle/utils.py:205 | records the write and its answer |
| Bsl.CommandInterface.Crc | dongle/utils.py:215 | records the CRC request; returns the target's CRC of the range |
| Bsl.CommandInterface.ReadMemory | dongle/utils.py:253 | records the read; returns the word, or None when the read raises |
| Bsl.CommandInterface.DisableBootloader | dongle/utils.py:271 | records the command |
| Bsl.CommandInterface.Reset | dongle/utils.py:273 | records the reset |
| FlashPlan.DefaultConf | dongle/utils.py:108-125 | definition: the configuration flash_firmware hard-codes (115200 baud, mass erase, write and verify on; no page erase, IEEE address, readback or bootloader disabling); its run is given by `FlashProperties.DefaultRun` |
| FlashPlan.ExitOf | dongle/utils.py:275-279 | a failure becomes SystemExit exactly when `exit_` is set, carrying the failing stage; otherwise flash_firmware returns |
| FlashPlan.Device | dongle/utils.py:150-158 | definition: a chip id listed in `CHIP_ID_STRS` selects the CC2538 profile, any other the CC13xx/CC26xx one |
| FlashPlan.Address | dongle/utils.py:160-162 | definition: the configured address, or the device's flash start when none is configured |
| FlashPlan.LittleEndian | dongle/utils.py:233 | the n low-order bytes of v, least significant first: n bytes, round-tripped by `FlashProperties.LittleEndianRoundTrip` |
| FlashPlan.ReadLoop | dongle/utils.py:250-266 | one read per word issued, plus the failing read when the loop stops early; at most n - i words, and exactly that many when the loop finishes |
| FlashPlan.Enabled | dongle/utils.py:134-270 | definition: the `if conf[...]` guards of the optional stages (firmware load and synch with write or verify, speed upgrade unless forced and when the device has the command, erase, page erase, write, verify, IEEE address, read, bootloader disabling) |
| FlashPlan.Then | dongle/utils.py:126-279 | a stage's commands begin the run from it on; a failing stage ends the run with its own commands and its stage as the error; a passing one leaves the outcome to the rest |
| FlashPlan.RunFrom | dongle/utils.py:126-279 | the stages from position k on, stopping at the first failure; an error names an enabled stage that fails, and a readback file needs reading enabled |
| FlashPlan.FlashRun | dongle/utils.py:126-279 | the whole run; an error names an enabled stage that fails, and a readback file needs reading enabled |
| FlashPlan.Rank | dongle/utils.py:126-273 | each stage has one position in the run's order |
| FlashPlan.RoundUp4 | dongle/utils.py:244 | `(len + 3) & ~3` is a multiple of 4, at least len and less than len + 4 |
| FlashPlan.FromLittleEndian | dongle/utils.py:233 | n bytes stand for a number below 256^n |
| FlashPlan.PackQuad | dongle/utils.py:233 | `struct.pack("<Q", v)` is eight bytes |
| FlashPlan.StepOf | dongle/utils.py:126-273 | each stage's commands; only the readback stage leaves a readback file |
| FlashPlan.SpeedUpgradeStep | dongle/utils.py:164-185 | the stage starts with the oscillator switch, and succeeds exactly when the switch, the reopen and the resynch all succeed |
| FlashPlan.PageEraseStep | dongle/utils.py:194-200 | the page erase fails exactly when the page range cannot be parsed; the erase command's own answer is not checked |
| FlashPlan.FirmwareWriteStep | dongle/utils.py:202-208 | the whole image written at the flash address |
| FlashPlan.VerifyStep | dongle/utils.py:210-224 | the check passes exactly when the target's CRC32 of the written range equals the image's, and it sends a reset exactly when it fails |
| FlashPlan.IeeeAddressStep | dongle/utils.py:226-238 | an address of 2^64 or more fails the stage before anything is sent |
| FlashPlan.ReadbackStep | dongle/utils.py:240-268 | the readback stage always leaves a readback file, even when a read fails |
| FlashPlan.FailsAt | dongle/utils.py:126-279 | a run that reaches a stage that fails issues the stages before it and that stage's commands, and stops with that stage as the error |
| FlashPlan.Completes | dongle/utils.py:126-273 | a run in which no enabled stage fails issues every enabled stage's commands and ends well |
| FlashPlan.StopFrom | dongle/utils.py:126-279 | the first enabled stage from a position on that fails, or the end |
| FlashPlan.Stop | dongle/utils.py:126-279 | the run reaches its stop, and the stop is a failing enabled stage or the end |
| FlashPlan.RunStops | dongle/utils.py:126-279 | the run is the commands up to its stop, then those of the failing stage, with that stage as the error |
| FlashPlan.ErrAt | dongle/utils.py:126-279 | the run fails at position k exactly when it reaches k and the stage there is enabled and fails |
| FlashPlan.ErrIff | dongle/utils.py:126-279 | the run fails at a stage exactly when it reaches that stage and the stage is enabled and fails |
| FlashPlan.OkIff | dongle/utils.py:126-273 | the run ends well exactly when no enabled stage fails |
| Flasher.FlashFirmware | dongle/utils.py:91-279 | the commands, outcome and readback are the reference run under the default configuration; `exit_` turns a failure into SystemExit |
| Flasher.FlashWith | dongle/utils.py:108-279 | the same for any configuration |
| Flasher.Program | dongle/utils.py:150-273 | from identification on, a failure leaves the reference run's log and error, and a finished run its log, Ok and readback |
| Flasher.Identify | dongle/utils.py:150-162 | the device profile and flash address are the reference ones (CC2538 for a known chip id, CC26xx otherwise; the configured address or the flash start), after the chip id query |
| Flasher.Update | dongle/utils.py:187-273 | from the mass erase on, a failure leaves the reference run's log, error and readback, and a finished run its log, Ok and readback |
| Flasher.OpenPort | dongle/utils.py:126-131 | a failed open is the reference run's failure; otherwise the port is open at the configured speed and the run has passed bootloader entry |
| Flasher.Synchronise | dongle/utils.py:134-144 | a missing image or unanswered synch is the reference run's failure; otherwise the run has passed the connection, with an image whenever writing or verifying |
| Flasher.UpgradeSpeed | dongle/utils.py:164-185 | a failure is the reference run's error at the speed upgrade; otherwise the port is still open and the run has passed the speed upgrade |
| Flasher.Reconnect | dongle/utils.py:165-180 | after a good oscillator switch: a failed reopen or resynch is the reference run's error at the speed upgrade; otherwise the run has passed it |
| Flasher.EraseFlash | dongle/utils.py:187-200 | a failed mass erase or unparsable page range is the reference run's failure; otherwise the run has passed both erase stages |
| Flasher.WriteAndVerify | dongle/utils.py:202-224 | a failed write, or a CRC mismatch with its reset, is the reference run's failure; otherwise the run has passed the verify stage |
| Flasher.ProgramIeeeAddress | dongle/utils.py:226-238 | an address that does not pack or a failed write is the reference run's failure; otherwise the run has passed the IEEE stage |
| Flasher.ReadBack | dongle/utils.py:240-268 | a failed read is the reference run's error at the readback, with the words read so far; otherwise the run has passed it with those words |
| Flasher.ReadWords | dongle/utils.py:250-267 | the loop issues and stores exactly what the reference read loop does |
| Flasher.Finish | dongle/utils.py:270-273 | after the optional bootloader disabling and the reset, the log is the reference run's and the run ends Ok |
| FlashProperties.Earliest | dongle/utils.py:126-273 | no stage before this position sends the command |
| FlashProperties.ReadLoopReadsOnly | dongle/utils.py:251-266 | the read loop sends only memory reads |
| FlashProperties.IssuedBy | dongle/utils.py:126-273 | a command a stage sends is one that stage's code may send; a reset sent by a stage that succeeds is the final reset |
| FlashProperties.InPrefix | dongle/utils.py:126-273 | a command is among the first k stages' commands exactly when one of them is enabled and sends it |
| FlashProperties.NotBefore | dongle/utils.py:126-273 | the stages before a command's earliest sender do not send it |
| FlashProperties.NoResetWhileOk | dongle/utils.py:210-273 | succeeding stages before the final reset send no reset |
| FlashProperties.ReachIff | dongle/utils.py:126-279 | the run reaches stage k exactly when k is not past its stop |
| FlashProperties.StopsAt | dongle/utils.py:275-279 | a run failing at a stage stops at that stage's position |
| FlashProperties.InRun | dongle/utils.py:126-279 | a command is in the log exactly when a stage up to the stop is enabled and sends it |
| FlashProperties.PrefixGrows | dongle/utils.py:126-273 | earlier stages' commands begin later stages' |
| FlashProperties.RunExtendsPrefix | dongle/utils.py:126-279 | the commands of the stages the run reaches begin its log |
| FlashProperties.Block | dongle/utils.py:126-279 | a reached, enabled stage's commands sit together in the log at its start position |
| FlashProperties.StagesInOrder | dongle/utils.py:126-273 | an earlier stage's commands all come before a later stage's, each as one block |
| FlashProperties.SynchFailureStops | dongle/utils.py:134-144 | an unanswered synch ends the run after open, bootloader entry and synch, with error Connect |
| FlashProperties.NoSynchWithoutImage | dongle/utils.py:126-150 | without write or verify the log starts open, bootloader entry, chip id |
| FlashProperties.IdentifyNeverFails | dongle/utils.py:150-158 | identification never stops a run |
| FlashProperties.OnlyFrom | dongle/utils.py:126-273 | a command only one stage sends is in the log exactly when the run reaches that stage, it is enabled and sends it |
| FlashProperties.SpeedUpgradeAttempted | dongle/utils.py:164-165 | the oscillator switch is sent exactly when the run gets that far, the speed is not forced, and the device has the command |
| FlashProperties.SpeedUpgradeAbort | dongle/utils.py:164-192 | a failed speed upgrade ends the run before any erase, write, CRC, read or reset |
| FlashProperties.VerifyOutcome | dongle/utils.py:210-224 | the CRC of the image's range is requested; a match goes on; a mismatch ends the run with CRC request then reset, the only reset |
| FlashProperties.ResetPlaces | dongle/utils.py:210-279 | a reset is sent exactly when the run succeeds or fails its CRC check, once, as the last command |
| FlashProperties.ResetWhenComplete | dongle/utils.py:273 | a run passing every stage ends with its only reset |
| FlashProperties.ResetOnCrcMismatch | dongle/utils.py:217-224 | a run failing its CRC check ends with its only reset |
| FlashProperties.NoResetOnOtherFailure | dongle/utils.py:126-279 | a run failing elsewhere sends no reset |
| FlashProperties.SuccessEnds | dongle/utils.py:270-273 | a good run ends with the reset, right after disabling the bootloader when configured |
| FlashProperties.ReadLoopShape | dongle/utils.py:251-266 | the loop reads addr + 4i in order, stores each word read, and stops exactly at the first read that raises |
| FlashProperties.ReadbackOf | dongle/utils.py:240-268 | the readback file exists exactly when the run reaches the readback stage with read set, and holds what the loop read |
| FlashProperties.ReadbackComplete | dongle/utils.py:240-268 | a good run with read set stores RoundUp4(len)/4 words, the i-th as read at address + 4i |
| FlashProperties.ReadAll | dongle/utils.py:251-266 | a read loop that finishes stores one word per address |
| FlashProperties.ReadbackReads | dongle/utils.py:251-253 | the reads are at address + 4i, for i = 0, 1, ..., in order in the log |
| FlashProperties.LittleEndianRoundTrip | dongle/utils.py:233 | reading little-endian bytes back gives the number encoded |
| FlashProperties.LittleEndianOfBytes | dongle/utils.py:233 | encoding the number a byte string stands for gives the string back |
| FlashProperties.PackQuadRoundTrip | dongle/utils.py:233 | `struct.pack("<Q", v)` is the one eight-byte string whose little-endian value is v |
| FlashProperties.IeeeWrite | dongle/utils.py:226-238 | an IEEE address of 2^64 or more stops the run; a smaller one is written as its eight little-endian bytes at the secondary location |
| FlashProperties.DefaultRun | dongle/utils.py:108-273 | under the hard-coded configuration a target that answers well sees open at 115200, bootloader entry, synch, chip id, the optional speed upgrade, mass erase, write, CRC and reset, and the run ends well |
| FlashProperties.DefaultCrcMismatch | dongle/utils.py:210-224 | image 00 01 02 03 with CRC32 0x8bb98613, target CRC 0xdeadbeef: the run fails at the CRC check, and the reset after the CRC request is the only one |

## Left out

- The bootloader library (dongle/cc2538_bsl) is not part of this model. Its serial protocol, timeouts and byte framing are not modelled. The commands it is asked to send are recorded, and the target's answers come from `Target`.
- The library's own faults on calls whose answer the model treats as infallible are not modelled. These calls are:
  - bootloader entry (dongle/utils.py:129);
  - the chip id query (:150);
  - the device constructors `CC26xx(cmd)` and `CC2538(cmd)` (:155, :158);
  - closing the port before the reopen (:166);
  - the page-range erase (:199);
  - the target-side CRC request `device.crc` (:215);
  - bootloader disabling (:271) and the reset (:273).

  Any of them raising CmdException or a serial error would end the run at its stage. Only the failure answers the source checks are modelled, plus a raising read and a failed open.
- FlashPlan.VerifyStep: a CRC request that raises is not modelled. In the source it ends the run at the verify stage with no reset, because the raise comes before the reset at dongle/utils.py:220. The model's verify stage fails only on a CRC mismatch, which always sends the reset. So `FlashProperties.ResetPlaces` ("a reset exactly when the run succeeds or fails its CRC check") holds for the modelled answers only.
- Bsl.Word: a memory read is taken to answer exactly four bytes. A shorter reply would make the debug line at dongle/utils.py:256-262 raise IndexError before `f.write`, ending the run at the readback without storing the word. That case is not modelled.
- `FirmwareFile` parsing and CRC32 computation are inputs: the image is its bytes and CRC32, or None when the file cannot be loaded.
- `parse_page_address_range` comes from the library, as a partial function. `parse_ieee_address` is taken as the identity on non-negative numbers, so a negative value (which `struct.pack` rejects) is not modelled.
- File I/O: the readback file is the sequence of words written to it, not bytes on disk.
- Logging (`logger`, `mdebug`), `traceback.print_exc` under `QUIET`, and the text of the exit message are not modelled. `Exit` carries the failing stage instead.
- `time.sleep` is recorded as an event; no time passes.
- KeyboardInterrupt is asynchronous and not modelled. The `except KeyboardInterrupt: pass` in `boot` is modelled only as not catching SystemExit.
- The GPIO library's internals are not modelled. Pin levels are a map, and `GPIO.setup` and `GPIO.output` set them in turn.
- The import-time fallback to `fake_rpigpio` and the board lookup that can raise at import are not modelled. The wiring is a parameter of `boot`, and `WiringFor` gives the Jetson.GPIO choice.
- Boot.Boot: the wiring `w` and the board information `rpiInfo` are independent parameters. In the source both come from the same GPIO module (dongle/utils.py:26, :43). With Jetson.GPIO loaded, `w` is `WiringFor` of the same board type. With the fallback module, mode and pins stay None. The model does not tie the two.
- `__main__` (dongle/utils.py:282-293) and the command-line wrapper (dongle/cli.py) are not modelled.
- The `force` and `fname` entries of `conf` are never read by the code, and are not modelled.
- `conf` is updated in place in the source (`address`, `baud`). `Flasher` keeps these as local variables. `FlashWith` takes any configuration, of which `flash_firmware` uses `DefaultConf`.
- The flashing run's serial traffic is recorded as one host event when the run returns. Its interleaving with the GPIO calls is the same as in the source, since the run happens between them.
