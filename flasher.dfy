/**
 * flash_firmware (dongle/utils.py) as the step-by-step procedure it is: a
 * local configuration record updated in place, a serial client driven one
 * command at a time, an exit on the first failure, and the readback loop.
 *
 * Each block of the procedure is a method of its own. Its contract says where
 * in the reference run (FlashPlan) the block starts and ends: `At(env, k, log,
 * rb)` holds when the run has passed stages 0 .. k-1 without a failure and
 * issued exactly their commands; `FailedAt(env, st, log, rb)` when the block
 * stopped the run at stage st, having issued that stage's commands.
 */
module Flasher {
  import opened Wrappers
  import opened Bsl
  import opened FlashPlan

  /** The client talks to the run's target over an open port. */
  ghost predicate Connected(cmd: CommandInterface, env: Env)
    reads cmd
  {
    cmd.isOpen && cmd.target == env.target
  }

  /** The run has passed stages 0 .. k-1 without a failure, issuing `log` and leaving `rb` in the readback file. */
  ghost predicate At(env: Env, k: nat, log: seq<Command>, rb: Option<seq<Word>>) {
    k <= |Stages| && PrefixOk(env, k) && log == Prefix(env, k).log && rb == Prefix(env, k).readback
  }

  /** The run reached stage st, which is enabled and failed, and has issued `log` up to and including that stage. */
  ghost predicate FailedAt(env: Env, st: Stage, log: seq<Command>, rb: Option<seq<Word>>) {
    var k, s := Rank(st), StepOf(st, env);
    && PrefixOk(env, k) && Enabled(st, env) && !s.ok
    && log == Prefix(env, k).log + s.issued
    && rb == Keep(Prefix(env, k).readback, s.readback)
  }

  /** Taking stage k from a run that has reached it. */
  lemma Pass(env: Env, k: nat, log: seq<Command>, rb: Option<seq<Word>>)
    requires k < |Stages| && At(env, k, log, rb)
    ensures var s := StepOf(Stages[k], env);
      && (!Enabled(Stages[k], env) ==> At(env, k + 1, log, rb))
      && (Enabled(Stages[k], env) && s.ok ==> At(env, k + 1, log + s.issued, Keep(rb, s.readback)))
      && (Enabled(Stages[k], env) && !s.ok ==> FailedAt(env, Stages[k], log + s.issued, Keep(rb, s.readback)))
  {
    RankOfStage(k);
  }

  /** A run that stopped at a stage has the result the reference semantics gives it. */
  lemma FailedRun(env: Env, st: Stage, log: seq<Command>, rb: Option<seq<Word>>)
    requires FailedAt(env, st, log, rb)
    ensures FlashRun(env) == RunResult(log, Err(st), rb)
  {
    FailsAt(env, Rank(st));
  }

  /** flash_firmware itself: the default configuration for `port`. */
  method FlashFirmware(port: string, exitOnError: bool, lib: Library, target: Target, image: Option<Firmware>)
    returns (log: seq<Command>, outcome: Outcome, readback: Option<seq<Word>>, exit: Exit)
    ensures RunResult(log, outcome, readback) == FlashRun(Env(DefaultConf(port), lib, target, image))
    ensures exit == ExitOf(outcome, exitOnError)
  {
    log, outcome, readback, exit := FlashWith(DefaultConf(port), exitOnError, lib, target, image);
  }

  /**
   * One flashing run under configuration `conf`. Returns every command issued,
   * the outcome, the words written to the readback file (None when the file
   * was never opened), and whether the failure ends the process (`exit_`).
   */
  method FlashWith(conf: FlashConf, exitOnError: bool, lib: Library, target: Target, image: Option<Firmware>)
    returns (log: seq<Command>, outcome: Outcome, readback: Option<seq<Word>>, exit: Exit)
    ensures RunResult(log, outcome, readback) == FlashRun(Env(conf, lib, target, image))
    ensures exit == ExitOf(outcome, exitOnError)
  {
    ghost var env := Env(conf, lib, target, image);
    var cmd := new CommandInterface(target);
    var failed := OpenPort(cmd, conf, env);
    if failed.None? {
      failed := Synchronise(cmd, conf, image, env);
    }
    if failed.None? {
      failed, readback := Program(cmd, conf, lib, image, env);
    } else {
      readback := None;
    }
    log := cmd.log;
    outcome := if failed.Some? then Err(failed.value) else Ok;
    exit := ExitOf(outcome, exitOnError);
  }

  /** Everything after the connection: identify the chip, then stages 5 .. 13. */
  method Program(cmd: CommandInterface, conf: FlashConf, lib: Library, image: Option<Firmware>, ghost env: Env)
    returns (failed: Option<Stage>, readback: Option<seq<Word>>)
    requires Connected(cmd, env) && cmd.opens == 1 && cmd.baud == conf.baud
    requires conf == env.conf && lib == env.lib && image == env.image
    requires (conf.write || conf.verify) ==> image.Some?
    requires At(env, 4, cmd.log, None)
    modifies cmd
    ensures failed.Some? ==> FlashRun(env) == RunResult(cmd.log, Err(failed.value), readback)
    ensures failed.None? ==> FlashRun(env) == RunResult(cmd.log, Ok, readback)
  {
    var device, address := Identify(cmd, conf, lib, env);
    readback := None;

    var speedFailed := UpgradeSpeed(cmd, conf, device, env);
    if speedFailed {
      return Some(SpeedUpgrade), readback;
    }
    failed, readback := Update(cmd, conf, lib, device, address, image, env);
  }

  /**
   * Read the chip id and pick the device: a CC2538 for a known id, a CC26xx
   * otherwise. The flash address defaults to the device's flash start.
   */
  method Identify(cmd: CommandInterface, conf: FlashConf, lib: Library, ghost env: Env)
    returns (device: DeviceProfile, address: int)
    requires Connected(cmd, env) && conf == env.conf && lib == env.lib && At(env, 4, cmd.log, None)
    modifies cmd`log
    ensures device == Device(env) && address == Address(env) && At(env, 5, cmd.log, None)
  {
    var chipId := cmd.GetChipId();
    device := if chipId in lib.chipIdStrs then lib.cc2538 else lib.cc26xx;
    // conf["address"] defaults to the device's flash start
    var confAddress := conf.address;
    if confAddress.None? {
      confAddress := Some(device.flashStartAddr);
    }
    address := confAddress.value;
  }

  /** Stages 6 .. 13: erase, write, verify, IEEE address, readback, and the final reset. */
  method Update(cmd: CommandInterface, conf: FlashConf, lib: Library, device: DeviceProfile, address: int,
                image: Option<Firmware>, ghost env: Env)
    returns (failed: Option<Stage>, readback: Option<seq<Word>>)
    requires Connected(cmd, env) && conf == env.conf && lib == env.lib && image == env.image
    requires device == Device(env) && address == Address(env)
    requires (conf.write || conf.verify) ==> image.Some?
    requires At(env, 6, cmd.log, None)
    modifies cmd`log
    ensures failed.Some? ==> FlashRun(env) == RunResult(cmd.log, Err(failed.value), readback)
    ensures failed.None? ==> FlashRun(env) == RunResult(cmd.log, Ok, readback)
  {
    readback := None;
    failed := EraseFlash(cmd, conf, lib, device, env);
    if failed.Some? {
      return;
    }
    failed := WriteAndVerify(cmd, conf, address, image, env);
    if failed.Some? {
      return;
    }
    failed := ProgramIeeeAddress(cmd, conf, device, env);
    if failed.Some? {
      return;
    }
    var readFailed;
    readFailed, readback := ReadBack(cmd, conf, address, env);
    if readFailed {
      return Some(Readback), readback;
    }
    Finish(cmd, conf, readback, env);
    return None, readback;
  }

  /** Open the port at the configured speed and enter the bootloader. */
  method OpenPort(cmd: CommandInterface, c: FlashConf, ghost env: Env)
    returns (failed: Option<Stage>)
    requires cmd.target == env.target && cmd.log == [] && cmd.opens == 0 && c == env.conf
    modifies cmd
    ensures failed.Some? ==> FlashRun(env) == RunResult(cmd.log, Err(failed.value), None)
    ensures failed.None? ==> Connected(cmd, env) && cmd.opens == 1 && cmd.baud == c.baud
    ensures failed.None? ==> At(env, 2, cmd.log, None)
  {
    Pass(env, 0, cmd.log, None);
    var ok := cmd.Open(c.port, c.baud);
    if !ok {
      FailedRun(env, PortOpen, cmd.log, None);
      return Some(PortOpen);
    }
    Pass(env, 1, cmd.log, None);
    cmd.InvokeBootloader(c.bootloaderActiveHigh, c.bootloaderInvertLines);
    return None;
  }

  /** When writing or verifying: load the firmware file and synchronise with the bootloader. */
  method Synchronise(cmd: CommandInterface, c: FlashConf, image: Option<Firmware>, ghost env: Env)
    returns (failed: Option<Stage>)
    requires Connected(cmd, env) && cmd.opens == 1 && c == env.conf && image == env.image && At(env, 2, cmd.log, None)
    modifies cmd`log
    ensures failed.Some? ==> FlashRun(env) == RunResult(cmd.log, Err(failed.value), None)
    ensures failed.None? ==> At(env, 4, cmd.log, None) && ((c.write || c.verify) ==> image.Some?)
  {
    Pass(env, 2, cmd.log, None);
    if c.write || c.verify {
      if image.None? {
        FailedRun(env, FirmwareLoad, cmd.log, None);
        return Some(FirmwareLoad);
      }
      Pass(env, 3, cmd.log, None);
      var ok := cmd.SendSynch();
      if !ok {
        FailedRun(env, Connect, cmd.log, None);
        return Some(Connect);
      }
    } else {
      Pass(env, 3, cmd.log, None);
    }
    return None;
  }

  /** Unless the speed is forced, switch a device that can to its external oscillator and to 1000000 baud. */
  method UpgradeSpeed(cmd: CommandInterface, conf: FlashConf, device: DeviceProfile, ghost env: Env)
    returns (failed: bool)
    requires Connected(cmd, env) && cmd.opens == 1 && cmd.baud == conf.baud
    requires conf == env.conf && device == Device(env) && At(env, 5, cmd.log, None)
    modifies cmd
    ensures failed ==> FlashRun(env) == RunResult(cmd.log, Err(SpeedUpgrade), None)
    ensures !failed ==> Connected(cmd, env) && At(env, 6, cmd.log, None)
  {
    Pass(env, 5, cmd.log, None);
    if conf.forceSpeed != 1 && device.hasCmdSetXosc {
      ghost var log5 := cmd.log;
      var ok := cmd.SetXOsc();
      if !ok {
        FailedRun(env, SpeedUpgrade, cmd.log, None);
        return true;
      }
      failed := Reconnect(cmd, conf, env, log5);
    } else {
      failed := false;
    }
  }

  /** After the oscillator switch: reopen the port at 1000000 baud and resynchronise. */
  method Reconnect(cmd: CommandInterface, conf: FlashConf, ghost env: Env, ghost log5: seq<Command>)
    returns (failed: bool)
    requires Connected(cmd, env) && cmd.opens == 1 && conf == env.conf
    requires At(env, 5, log5, None) && Enabled(SpeedUpgrade, env) && env.target.xoscOk
    requires cmd.log == log5 + [SetXOsc]
    modifies cmd
    ensures failed ==> FlashRun(env) == RunResult(cmd.log, Err(SpeedUpgrade), None)
    ensures !failed ==> Connected(cmd, env) && At(env, 6, cmd.log, None)
  {
    cmd.Close();
    // conf["baud"] becomes 1000000 before the port is reopened
    var baud := UpgradedBaud;
    var ok := cmd.Open(conf.port, baud);
    if !ok {
      FailedRun(env, SpeedUpgrade, cmd.log, None);
      return true;
    }
    ok := cmd.SendSynch();
    if !ok {
      FailedRun(env, SpeedUpgrade, cmd.log, None);
      return true;
    }
    RankOfStage(5);
    return false;
  }

  /** Mass erase, then the optional page-range erase. */
  method EraseFlash(cmd: CommandInterface, c: FlashConf, lib: Library, device: DeviceProfile, ghost env: Env)
    returns (failed: Option<Stage>)
    requires Connected(cmd, env) && c == env.conf && lib == env.lib && device == Device(env)
    requires At(env, 6, cmd.log, None)
    modifies cmd`log
    ensures failed.Some? ==> FlashRun(env) == RunResult(cmd.log, Err(failed.value), None)
    ensures failed.None? ==> At(env, 8, cmd.log, None)
  {
    Pass(env, 6, cmd.log, None);
    if c.erase {
      var ok := cmd.Erase();
      if !ok {
        FailedRun(env, MassErase, cmd.log, None);
        return Some(MassErase);
      }
    }
    Pass(env, 7, cmd.log, None);
    if c.erasePage != "" {
      var range := lib.pageAddressRange(device, c.erasePage);
      if range.None? {
        FailedRun(env, PageErase, cmd.log, None);
        return Some(PageErase);
      }
      // the result of cmdEraseMemory is not checked
      cmd.EraseMemory(range.value.0, range.value.1);
    }
    return None;
  }

  /** Write the image at the flash address, then compare the local CRC32 with the target's; reset on a mismatch. */
  method WriteAndVerify(cmd: CommandInterface, c: FlashConf, address: int, image: Option<Firmware>, ghost env: Env)
    returns (failed: Option<Stage>)
    requires Connected(cmd, env) && c == env.conf && address == Address(env) && image == env.image
    requires (c.write || c.verify) ==> image.Some?
    requires At(env, 8, cmd.log, None)
    modifies cmd`log
    ensures failed.Some? ==> FlashRun(env) == RunResult(cmd.log, Err(failed.value), None)
    ensures failed.None? ==> At(env, 10, cmd.log, None)
  {
    Pass(env, 8, cmd.log, None);
    if c.write {
      var ok := cmd.WriteMemory(address, image.value.bytes);
      if !ok {
        FailedRun(env, FirmwareWrite, cmd.log, None);
        return Some(FirmwareWrite);
      }
    }
    Pass(env, 9, cmd.log, None);
    if c.verify {
      var crcLocal := image.value.crc32;
      var crcTarget := cmd.Crc(address, |image.value.bytes|);
      if crcLocal != crcTarget {
        cmd.Reset();
        FailedRun(env, Verify, cmd.log, None);
        return Some(Verify);
      }
    }
    return None;
  }

  /** Write the IEEE address as eight little-endian bytes at the device's secondary IEEE address location. */
  method ProgramIeeeAddress(cmd: CommandInterface, c: FlashConf, device: DeviceProfile, ghost env: Env)
    returns (failed: Option<Stage>)
    requires Connected(cmd, env) && c == env.conf && device == Device(env)
    requires At(env, 10, cmd.log, None)
    modifies cmd`log
    ensures failed.Some? ==> FlashRun(env) == RunResult(cmd.log, Err(failed.value), None)
    ensures failed.None? ==> At(env, 11, cmd.log, None)
  {
    Pass(env, 10, cmd.log, None);
    if c.ieeeAddress != 0 {
      if c.ieeeAddress >= QuadBound {
        // struct.pack("<Q", ...) raises
        FailedRun(env, IeeeAddress, cmd.log, None);
        return Some(IeeeAddress);
      }
      var ieeeAddrBytes := PackQuad(c.ieeeAddress);
      var ok := cmd.WriteMemory(device.addrIeeeAddressSecondary, ieeeAddrBytes);
      if !ok {
        FailedRun(env, IeeeAddress, cmd.log, None);
        return Some(IeeeAddress);
      }
    }
    return None;
  }

  /** Read the rounded-up length back and write it to the readback file, which the run opens (and empties) first. */
  method ReadBack(cmd: CommandInterface, c: FlashConf, address: int, ghost env: Env)
    returns (failed: bool, readback: Option<seq<Word>>)
    requires Connected(cmd, env) && c == env.conf && address == Address(env)
    requires At(env, 11, cmd.log, None)
    modifies cmd`log
    ensures failed ==> FlashRun(env) == RunResult(cmd.log, Err(Readback), readback)
    ensures !failed ==> At(env, 12, cmd.log, readback)
  {
    Pass(env, 11, cmd.log, None);
    if !c.read {
      return false, None;
    }
    var length := RoundUp4(c.len);
    var words, ok := ReadWords(cmd, address, length / 4);
    readback := Some(words);
    if !ok {
      FailedRun(env, Readback, cmd.log, readback);
      return true, readback;
    }
    return false, readback;
  }

  /** Reads already made (`issued`, `words`) followed by the reads `r` still to come. */
  function Glue(issued: seq<Command>, words: seq<Word>, r: Reads): Reads {
    Reads(issued + r.issued, words + r.words, r.ok)
  }

  /** Read number i raises: the loop ends with the reads made so far and that read. */
  lemma ReadFails(memory: int -> Option<Word>, address: int, i: nat, n: nat, issued: seq<Command>, words: seq<Word>)
    requires i < n && memory(address + i * 4).None?
    requires ReadLoop(memory, address, 0, n) == Glue(issued, words, ReadLoop(memory, address, i, n))
    ensures ReadLoop(memory, address, 0, n) == Reads(issued + [ReadMemory(address + i * 4)], words, false)
  {
    assert words + [] == words;
  }

  /** Read number i returns w: it moves from the reads to come to the reads made. */
  lemma ReadGood(memory: int -> Option<Word>, address: int, i: nat, n: nat, issued: seq<Command>, words: seq<Word>, w: Word)
    requires i < n && memory(address + i * 4) == Some(w)
    requires ReadLoop(memory, address, 0, n) == Glue(issued, words, ReadLoop(memory, address, i, n))
    ensures ReadLoop(memory, address, 0, n) == Glue(issued + [ReadMemory(address + i * 4)], words + [w], ReadLoop(memory, address, i + 1, n))
  {
    var c, rest := ReadMemory(address + i * 4), ReadLoop(memory, address, i + 1, n);
    assert issued + ([c] + rest.issued) == (issued + [c]) + rest.issued;
    assert words + ([w] + rest.words) == (words + [w]) + rest.words;
  }

  /** Read n 4-byte words at address, address + 4, ..., stopping at the first read that raises. */
  method ReadWords(cmd: CommandInterface, address: int, n: nat) returns (words: seq<Word>, ok: bool)
    requires cmd.isOpen
    modifies cmd`log
    ensures cmd.log == old(cmd.log) + ReadLoop(cmd.target.memory, address, 0, n).issued
    ensures words == ReadLoop(cmd.target.memory, address, 0, n).words
    ensures ok == ReadLoop(cmd.target.memory, address, 0, n).ok
  {
    ghost var memory := cmd.target.memory;
    ghost var log0 := cmd.log;
    ghost var issued: seq<Command> := [];
    words := [];
    var i := 0;
    assert issued + ReadLoop(memory, address, 0, n).issued == ReadLoop(memory, address, 0, n).issued;
    while i < n
      invariant 0 <= i <= n && cmd.isOpen
      invariant cmd.log == log0 + issued
      invariant ReadLoop(memory, address, 0, n) == Glue(issued, words, ReadLoop(memory, address, i, n))
    {
      var rdata := cmd.ReadMemory(address + i * 4);
      if rdata.None? {
        ReadFails(memory, address, i, n, issued, words);
        issued := issued + [ReadMemory(address + i * 4)];
        return words, false;
      }
      ReadGood(memory, address, i, n, issued, words, rdata.value);
      issued := issued + [ReadMemory(address + i * 4)];
      words := words + [rdata.value];
      i := i + 1;
    }
    assert issued + [] == issued && words + [] == words;
    return words, true;
  }

  /** Optionally disable the bootloader, then reset the target. */
  method Finish(cmd: CommandInterface, c: FlashConf, readback: Option<seq<Word>>, ghost env: Env)
    requires Connected(cmd, env) && c == env.conf && At(env, 12, cmd.log, readback)
    modifies cmd`log
    ensures FlashRun(env) == RunResult(cmd.log, Ok, readback)
  {
    Pass(env, 12, cmd.log, readback);
    if c.disableBootloader {
      cmd.DisableBootloader();
    }
    Pass(env, 13, cmd.log, readback);
    cmd.Reset();
    Completes(env);
  }
}

