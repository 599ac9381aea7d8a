/**
 * The serial-bootloader library the flasher drives (dongle/cc2538_bsl, which is
 * not part of this model). Its internals are opaque here: the commands it is
 * asked to send are recorded, and the target's answers are inputs.
 */
module Bsl {
  import opened Wrappers

  newtype byte = x: int | 0 <= x < 256

  /** Four bytes read back from the target by one memory read. */
  type Word = w: seq<byte> | |w| == 4 witness [0, 0, 0, 0]

  /** The commands the flasher issues through `CommandInterface` and the device object. */
  datatype Command =
    | Open(port: string, baud: nat)
    | Close
    | InvokeBootloader(activeHigh: bool, invertLines: bool)
    | SendSynch
    | GetChipId
    | SetXOsc
    | Erase                                   // device.erase(): the variant's mass erase
    | EraseMemory(addr: int, size: int)      // cmdEraseMemory on a page range
    | WriteMemory(addr: int, data: seq<byte>)
    | Crc(addr: int, length: nat)              // device.crc: target-side CRC32 of a range
    | ReadMemory(addr: int)                    // device.read_memory: one 4-byte word
    | DisableBootloader
    | Reset

  /** What the flasher uses of a device variant (CC2538 or CC13xx/CC26xx). */
  datatype DeviceProfile = DeviceProfile(
    flashStartAddr: nat,
    hasCmdSetXosc: bool,
    addrIeeeAddressSecondary: nat)

  /**
   * The library's tables and parsers, taken as given: `CHIP_ID_STRS`, the two
   * variants' profiles, and `parse_page_address_range` (None when it raises).
   */
  datatype Library = Library(
    chipIdStrs: map<int, string>,
    cc2538: DeviceProfile,
    cc26xx: DeviceProfile,
    pageAddressRange: (DeviceProfile, string) -> Option<(int, int)>)

  /**
   * The target board as an oracle: how it answers each command. Opening the
   * port and synchronising answer differently before and after the port is
   * reopened at the higher speed; memory commands answer per request.
   */
  datatype Target = Target(
    openOk: bool,
    reopenOk: bool,
    synchOk: bool,
    resynchOk: bool,
    chipId: int,
    xoscOk: bool,
    eraseOk: bool,
    writeOk: (int, seq<byte>) -> bool,
    crc: (int, nat) -> nat,
    memory: int -> Option<Word>)

  /** A loaded firmware file: its bytes and their CRC32 (computed by the library). */
  datatype Firmware = Firmware(bytes: seq<byte>, crc32: nat)

  /**
   * The serial client. Every command is appended to `log`; answers come from
   * `target`. Commands other than `Open` need an open port.
   */
  class CommandInterface {
    const target: Target
    var log: seq<Command>
    var isOpen: bool
    var baud: nat
    var opens: nat

    constructor (target: Target)
      ensures this.target == target
      ensures log == [] && !isOpen && opens == 0
    {
      this.target := target;
      log := [];
      isOpen := false;
      baud := 0;
      opens := 0;
    }

    method Open(port: string, baud: nat) returns (ok: bool)
      modifies this`log, this`isOpen, this`baud, this`opens
      ensures ok == (if old(opens) == 0 then target.openOk else target.reopenOk)
      ensures log == old(log) + [Command.Open(port, baud)]
      ensures isOpen == ok && this.baud == baud && opens == old(opens) + 1
    {
      ok := if opens == 0 then target.openOk else target.reopenOk;
      log := log + [Command.Open(port, baud)];
      isOpen := ok;
      this.baud := baud;
      opens := opens + 1;
    }

    method Close()
      requires isOpen
      modifies this`log, this`isOpen
      ensures log == old(log) + [Command.Close] && !isOpen
    {
      log := log + [Command.Close];
      isOpen := false;
    }

    method InvokeBootloader(activeHigh: bool, invertLines: bool)
      requires isOpen
      modifies this`log
      ensures log == old(log) + [Command.InvokeBootloader(activeHigh, invertLines)]
    {
      log := log + [Command.InvokeBootloader(activeHigh, invertLines)];
    }

    /** Synchronisation answers with `synchOk` until the port is reopened, then with `resynchOk`. */
    method SendSynch() returns (ok: bool)
      requires isOpen
      modifies this`log
      ensures ok == (if opens <= 1 then target.synchOk else target.resynchOk)
      ensures log == old(log) + [Command.SendSynch]
    {
      ok := if opens <= 1 then target.synchOk else target.resynchOk;
      log := log + [Command.SendSynch];
    }

    method GetChipId() returns (id: int)
      requires isOpen
      modifies this`log
      ensures id == target.chipId
      ensures log == old(log) + [Command.GetChipId]
    {
      id := target.chipId;
      log := log + [Command.GetChipId];
    }

    method SetXOsc() returns (ok: bool)
      requires isOpen
      modifies this`log
      ensures ok == target.xoscOk
      ensures log == old(log) + [Command.SetXOsc]
    {
      ok := target.xoscOk;
      log := log + [Command.SetXOsc];
    }

    method Erase() returns (ok: bool)
      requires isOpen
      modifies this`log
      ensures ok == target.eraseOk
      ensures log == old(log) + [Command.Erase]
    {
      ok := target.eraseOk;
      log := log + [Command.Erase];
    }

    method EraseMemory(addr: int, length: int)
      requires isOpen
      modifies this`log
      ensures log == old(log) + [Command.EraseMemory(addr, length)]
    {
      log := log + [Command.EraseMemory(addr, length)];
    }

    method WriteMemory(addr: int, data: seq<byte>) returns (ok: bool)
      requires isOpen
      modifies this`log
      ensures ok == target.writeOk(addr, data)
      ensures log == old(log) + [Command.WriteMemory(addr, data)]
    {
      ok := target.writeOk(addr, data);
      log := log + [Command.WriteMemory(addr, data)];
    }

    method Crc(addr: int, length: nat) returns (crc: nat)
      requires isOpen
      modifies this`log
      ensures crc == target.crc(addr, length)
      ensures log == old(log) + [Command.Crc(addr, length)]
    {
      crc := target.crc(addr, length);
      log := log + [Command.Crc(addr, length)];
    }

    /** None stands for the read raising. */
    method ReadMemory(addr: int) returns (w: Option<Word>)
      requires isOpen
      modifies this`log
      ensures w == target.memory(addr)
      ensures log == old(log) + [Command.ReadMemory(addr)]
    {
      w := target.memory(addr);
      log := log + [Command.ReadMemory(addr)];
    }

    method DisableBootloader()
      requires isOpen
      modifies this`log
      ensures log == old(log) + [Command.DisableBootloader]
    {
      log := log + [Command.DisableBootloader];
    }

    method Reset()
      requires isOpen
      modifies this`log
      ensures log == old(log) + [Command.Reset]
    {
      log := log + [Command.Reset];
    }
  }
}
