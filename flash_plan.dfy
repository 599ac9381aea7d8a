/**
 * Reference semantics of one flashing run (dongle/utils.py, flash_firmware).
 *
 * A run is a fixed sequence of stages. Configuration decides which stages are
 * enabled; each enabled stage issues its commands and either succeeds or fails;
 * the first failure ends the run with that stage as the error. `RunFrom` takes
 * the stages from a position on with that short-circuit, and `FlashRun` is the
 * whole run; `Prefix` and `PrefixOk` describe the stages before a position.
 */
module FlashPlan {
  import opened Wrappers
  import opened Bsl

  /** The `conf` dictionary of flash_firmware, as a typed record. */
  datatype FlashConf = FlashConf(
    port: string,
    baud: nat,
    forceSpeed: int,
    address: Option<int>,
    erase: bool,
    write: bool,
    erasePage: string,        // "" stands for the falsy default 0
    verify: bool,
    read: bool,
    len: nat,
    ieeeAddress: nat,         // 0 disables programming the IEEE address
    bootloaderActiveHigh: bool,
    bootloaderInvertLines: bool,
    disableBootloader: bool)

  const InitialBaud: nat := 115200
  const UpgradedBaud: nat := 1000000
  /** `struct.pack("<Q", v)` raises unless v < 2^64. */
  const QuadBound: nat := 0x1_0000_0000_0000_0000

  /** The values flash_firmware hard-codes for a port. */
  function DefaultConf(port: string): FlashConf {
    FlashConf(port, InitialBaud, 0, None, true, true, "", true, false, 0x80000, 0, false, false, false)
  }

  /** The stages, in the order the run takes them. */
  datatype Stage =
    | PortOpen | BootloaderEntry | FirmwareLoad | Connect | Identify | SpeedUpgrade
    | MassErase | PageErase | FirmwareWrite | Verify | IeeeAddress | Readback
    | BootloaderDisable | FinalReset

  const Stages: seq<Stage> := [
    PortOpen, BootloaderEntry, FirmwareLoad, Connect, Identify, SpeedUpgrade,
    MassErase, PageErase, FirmwareWrite, Verify, IeeeAddress, Readback,
    BootloaderDisable, FinalReset]

  /** The position of a stage in `Stages`. */
  function Rank(st: Stage): (r: nat)
    ensures r < |Stages| && Stages[r] == st
  {
    match st
    case PortOpen => 0
    case BootloaderEntry => 1
    case FirmwareLoad => 2
    case Connect => 3
    case Identify => 4
    case SpeedUpgrade => 5
    case MassErase => 6
    case PageErase => 7
    case FirmwareWrite => 8
    case Verify => 9
    case IeeeAddress => 10
    case Readback => 11
    case BootloaderDisable => 12
    case FinalReset => 13
  }

  datatype Outcome = Ok | Err(stage: Stage)

  /** What flash_firmware does with a failure: `exit(...)` when `exit_` is set, otherwise nothing. */
  datatype Exit = Returned | SystemExit(stage: Stage)

  function ExitOf(outcome: Outcome, exitOnError: bool): (e: Exit)
    ensures e.SystemExit? <==> outcome.Err? && exitOnError
    ensures e.SystemExit? ==> e.stage == outcome.stage
  {
    if outcome.Err? && exitOnError then SystemExit(outcome.stage) else Returned
  }

  /** One stage as executed: the commands it issued, whether it succeeded, what it left in the readback file. */
  datatype Step = Step(stage: Stage, issued: seq<Command>, ok: bool, readback: Option<seq<Word>>)

  /** A whole run: every command issued, the outcome, and the readback file if one was written. */
  datatype RunResult = RunResult(log: seq<Command>, outcome: Outcome, readback: Option<seq<Word>>)

  /** Everything a run depends on. */
  datatype Env = Env(conf: FlashConf, lib: Library, target: Target, image: Option<Firmware>)

  /** Device variant: a chip id in `CHIP_ID_STRS` is a CC2538, any other id is tried as CC13xx/CC26xx. */
  function Device(env: Env): DeviceProfile {
    if env.target.chipId in env.lib.chipIdStrs then env.lib.cc2538 else env.lib.cc26xx
  }

  /** The flash address: the configured one, or the device's flash start when none was configured. */
  function Address(env: Env): int {
    env.conf.address.GetOr(Device(env).flashStartAddr)
  }

  function ImageBytes(env: Env): seq<byte> {
    if env.image.Some? then env.image.value.bytes else []
  }

  function LocalCrc(env: Env): nat {
    if env.image.Some? then env.image.value.crc32 else 0
  }

  /** `(len + 3) & ~0x03`: clearing the two low bits of len + 3 rounds len up to a multiple of 4. */
  function RoundUp4(len: nat): (r: nat)
    ensures r % 4 == 0
    ensures len <= r < len + 4
  {
    (len + 3) - (len + 3) % 4
  }

  function Pow256(n: nat): (p: nat)
    ensures p > 0
  {
    if n == 0 then 1 else 256 * Pow256(n - 1)
  }

  /** The n low-order bytes of v, least significant first. */
  function LittleEndian(v: nat, n: nat): (r: seq<byte>)
    ensures |r| == n
  {
    if n == 0 then [] else [(v % 256) as byte] + LittleEndian(v / 256, n - 1)
  }

  /** The number whose little-endian bytes are bs. */
  function FromLittleEndian(bs: seq<byte>): (v: nat)
    ensures v < Pow256(|bs|)
  {
    if bs == [] then 0 else bs[0] as nat + 256 * FromLittleEndian(bs[1..])
  }

  /** `struct.pack("<Q", v)`: eight bytes, little-endian. */
  function PackQuad(v: nat): (r: seq<byte>)
    requires v < QuadBound
    ensures |r| == 8
  {
    LittleEndian(v, 8)
  }

  /** What the read loop did: the reads it issued, the words it stored, whether it finished. */
  datatype Reads = Reads(issued: seq<Command>, words: seq<Word>, ok: bool)

  /** Reads number i .. n-1 at addr + 4*i, stopping at the first read that raises. */
  function ReadLoop(memory: int -> Option<Word>, addr: int, i: nat, n: nat): (r: Reads)
    ensures |r.issued| == |r.words| + (if r.ok then 0 else 1)
    ensures i <= n ==> |r.words| <= n - i
    ensures r.ok && i <= n ==> |r.words| == n - i
    decreases n - i
  {
    if i >= n then Reads([], [], true)
    else match memory(addr + i * 4)
      case None => Reads([ReadMemory(addr + i * 4)], [], false)
      case Some(w) =>
        var rest := ReadLoop(memory, addr, i + 1, n);
        Reads([ReadMemory(addr + i * 4)] + rest.issued, [w] + rest.words, rest.ok)
  }

  /** Whether configuration enables a stage (the `if conf[...]` guards). */
  predicate Enabled(st: Stage, env: Env) {
    var c := env.conf;
    match st
    case FirmwareLoad => c.write || c.verify
    case Connect => c.write || c.verify
    case SpeedUpgrade => c.forceSpeed != 1 && Device(env).hasCmdSetXosc
    case MassErase => c.erase
    case PageErase => c.erasePage != ""
    case FirmwareWrite => c.write
    case Verify => c.verify
    case IeeeAddress => c.ieeeAddress != 0
    case Readback => c.read
    case BootloaderDisable => c.disableBootloader
    case _ => true
  }

  /** What a stage issues and whether it succeeds, given the target's answers. */
  function StepOf(st: Stage, env: Env): (s: Step)
    ensures s.stage == st
    ensures s.readback.Some? ==> st == Readback
  {
    var c, t := env.conf, env.target;
    match st
    case PortOpen => Step(st, [Open(c.port, c.baud)], t.openOk, None)
    case BootloaderEntry =>
      Step(st, [InvokeBootloader(c.bootloaderActiveHigh, c.bootloaderInvertLines)], true, None)
    case FirmwareLoad => Step(st, [], env.image.Some?, None)
    case Connect => Step(st, [SendSynch], t.synchOk, None)
    case Identify => Step(st, [GetChipId], true, None)
    case SpeedUpgrade => SpeedUpgradeStep(env)
    case MassErase => Step(st, [Erase], t.eraseOk, None)
    case PageErase => PageEraseStep(env)
    case FirmwareWrite => FirmwareWriteStep(env)
    case Verify => VerifyStep(env)
    case IeeeAddress => IeeeAddressStep(env)
    case Readback => ReadbackStep(env)
    case BootloaderDisable => Step(st, [DisableBootloader], true, None)
    case FinalReset => Step(st, [Reset], true, None)
  }

  /** Set the crystal oscillator, reopen the port at the upgraded speed, and synchronise again. */
  function SpeedUpgradeStep(env: Env): (s: Step)
    ensures s.stage == SpeedUpgrade && s.readback == None
    ensures |s.issued| > 0 && s.issued[0] == SetXOsc
    ensures s.ok <==> env.target.xoscOk && env.target.reopenOk && env.target.resynchOk
  {
    var t := env.target;
    if !t.xoscOk then Step(SpeedUpgrade, [SetXOsc], false, None)
    else if !t.reopenOk then Step(SpeedUpgrade, [SetXOsc, Close, Open(env.conf.port, UpgradedBaud)], false, None)
    else Step(SpeedUpgrade, [SetXOsc, Close, Open(env.conf.port, UpgradedBaud), SendSynch], t.resynchOk, None)
  }

  /** Erase the configured pages, when the device can name their address range. */
  function PageEraseStep(env: Env): (s: Step)
    ensures s.stage == PageErase && s.readback == None
    ensures s.ok <==> env.lib.pageAddressRange(Device(env), env.conf.erasePage).Some?
  {
    match env.lib.pageAddressRange(Device(env), env.conf.erasePage)
    case None => Step(PageErase, [], false, None)
    case Some(r) => Step(PageErase, [EraseMemory(r.0, r.1)], true, None)
  }

  /** Write the whole image at the flash address. */
  function FirmwareWriteStep(env: Env): (s: Step)
    ensures s.stage == FirmwareWrite && s.readback == None
  {
    Step(FirmwareWrite, [WriteMemory(Address(env), ImageBytes(env))], env.target.writeOk(Address(env), ImageBytes(env)), None)
  }

  /** Compare the target's CRC32 of the written range with the image's; reset the target on a mismatch. */
  function VerifyStep(env: Env): (s: Step)
    ensures s.stage == Verify && s.readback == None
    ensures s.ok <==> env.target.crc(Address(env), |ImageBytes(env)|) == LocalCrc(env)
    ensures Reset in s.issued <==> !s.ok
  {
    var check := Crc(Address(env), |ImageBytes(env)|);
    if env.target.crc(Address(env), |ImageBytes(env)|) == LocalCrc(env) then Step(Verify, [check], true, None)
    else Step(Verify, [check, Reset], false, None)
  }

  /** Write the configured IEEE address as eight little-endian bytes, when it fits in 64 bits. */
  function IeeeAddressStep(env: Env): (s: Step)
    ensures s.stage == IeeeAddress && s.readback == None
    ensures env.conf.ieeeAddress >= QuadBound ==> !s.ok && s.issued == []
  {
    if env.conf.ieeeAddress >= QuadBound then Step(IeeeAddress, [], false, None)
    else
      var at, data := Device(env).addrIeeeAddressSecondary, PackQuad(env.conf.ieeeAddress);
      Step(IeeeAddress, [WriteMemory(at, data)], env.target.writeOk(at, data), None)
  }

  /** Read the configured length, rounded up to whole words, into the readback file. */
  function ReadbackStep(env: Env): (s: Step)
    ensures s.stage == Readback && s.readback.Some?
  {
    var r := ReadLoop(env.target.memory, Address(env), 0, RoundUp4(env.conf.len) / 4);
    Step(Readback, r.issued, r.ok, Some(r.words))
  }

  /** The later of two readback states. */
  function Keep(earlier: Option<seq<Word>>, later: Option<seq<Word>>): Option<seq<Word>> {
    if later.Some? then later else earlier
  }

  /** One step followed by the rest of the run: a failing step ends the run. */
  function Then(s: Step, rest: RunResult): (r: RunResult)
    ensures s.issued <= r.log
    ensures !s.ok ==> r.log == s.issued && r.outcome == Err(s.stage)
    ensures s.ok ==> r.outcome == rest.outcome
  {
    if !s.ok then RunResult(s.issued, Err(s.stage), s.readback)
    else RunResult(s.issued + rest.log, rest.outcome, Keep(s.readback, rest.readback))
  }

  /**
   * The run from stage k on: disabled stages are skipped, and the first
   * enabled stage that fails ends the run.
   */
  function RunFrom(env: Env, k: nat): (r: RunResult)
    ensures r.outcome.Err? ==> Enabled(r.outcome.stage, env) && !StepOf(r.outcome.stage, env).ok
    ensures r.readback.Some? ==> Enabled(Readback, env)
    decreases |Stages| - k
  {
    if k >= |Stages| then RunResult([], Ok, None)
    else if Enabled(Stages[k], env) then Then(StepOf(Stages[k], env), RunFrom(env, k + 1))
    else RunFrom(env, k + 1)
  }

  /** The run flash_firmware performs. */
  function FlashRun(env: Env): (r: RunResult)
    ensures r.outcome.Err? ==> Enabled(r.outcome.stage, env) && !StepOf(r.outcome.stage, env).ok
    ensures r.readback.Some? ==> Enabled(Readback, env)
  {
    RunFrom(env, 0)
  }

  /** A run already under way: `log` and `rb` so far, then `rest`. */
  function Resume(log: seq<Command>, rb: Option<seq<Word>>, rest: RunResult): RunResult {
    RunResult(log + rest.log, rest.outcome, Keep(rb, rest.readback))
  }

  /** The run so far is `log` and `rb`, and stages k.. are still to come. */
  ghost predicate Pending(env: Env, k: nat, log: seq<Command>, rb: Option<seq<Word>>) {
    FlashRun(env) == Resume(log, rb, RunFrom(env, k))
  }

  /** Starting a run: nothing issued yet, every stage to come. */
  lemma PendingAtStart(env: Env)
    ensures Pending(env, 0, [], None)
  {
  }

  /**
   * Taking stage k: a disabled stage changes nothing, a succeeding one adds its
   * commands, a failing one ends the run with its own stage as the error.
   */
  lemma Advance(env: Env, k: nat, log: seq<Command>, rb: Option<seq<Word>>)
    requires k < |Stages| && Pending(env, k, log, rb)
    ensures var s := StepOf(Stages[k], env);
      && (!Enabled(Stages[k], env) ==> Pending(env, k + 1, log, rb))
      && (Enabled(Stages[k], env) && s.ok ==> Pending(env, k + 1, log + s.issued, Keep(rb, s.readback)))
      && (Enabled(Stages[k], env) && !s.ok ==>
            FlashRun(env) == RunResult(log + s.issued, Err(Stages[k]), Keep(rb, s.readback)))
  {
    ResumeThen(log, rb, StepOf(Stages[k], env), RunFrom(env, k + 1));
  }

  /** Resuming with one more step: a failing step ends the run, a succeeding one joins the run so far. */
  lemma ResumeThen(log: seq<Command>, rb: Option<seq<Word>>, s: Step, rest: RunResult)
    ensures !s.ok ==> Resume(log, rb, Then(s, rest)) == RunResult(log + s.issued, Err(s.stage), Keep(rb, s.readback))
    ensures s.ok ==> Resume(log, rb, Then(s, rest)) == Resume(log + s.issued, Keep(rb, s.readback), rest)
  {
    assert log + (s.issued + rest.log) == (log + s.issued) + rest.log;
  }


  /** All stages taken: the run ended well with what was issued so far. */
  lemma PendingAtEnd(env: Env, log: seq<Command>, rb: Option<seq<Word>>)
    requires Pending(env, |Stages|, log, rb)
    ensures FlashRun(env) == RunResult(log, Ok, rb)
  {
    assert log + [] == log;
  }

  /** What stages 0 .. k-1 issue and leave in the readback file, when none of them fails. */
  function Prefix(env: Env, k: nat): (p: RunResult)
    requires k <= |Stages|
    ensures p.outcome == Ok
  {
    if k == 0 then RunResult([], Ok, None)
    else
      var p, s := Prefix(env, k - 1), StepOf(Stages[k - 1], env);
      if Enabled(Stages[k - 1], env) then RunResult(p.log + s.issued, Ok, Keep(p.readback, s.readback)) else p
  }

  /** No enabled stage before position k fails: the run reaches stage k. */
  predicate PrefixOk(env: Env, k: nat)
    requires k <= |Stages|
  {
    k == 0 || (PrefixOk(env, k - 1) && (Enabled(Stages[k - 1], env) ==> StepOf(Stages[k - 1], env).ok))
  }

  lemma {:induction false} PendingAfterPrefix(env: Env, k: nat)
    requires k <= |Stages| && PrefixOk(env, k)
    ensures Pending(env, k, Prefix(env, k).log, Prefix(env, k).readback)
  {
    if k == 0 {
      PendingAtStart(env);
    } else {
      PendingAfterPrefix(env, k - 1);
      Advance(env, k - 1, Prefix(env, k - 1).log, Prefix(env, k - 1).readback);
    }
  }

  /** A run that reaches stage k and fails there issues the prefix, then that stage's commands, and stops. */
  lemma FailsAt(env: Env, k: nat)
    requires k < |Stages| && PrefixOk(env, k)
    requires Enabled(Stages[k], env) && !StepOf(Stages[k], env).ok
    ensures FlashRun(env) ==
      RunResult(Prefix(env, k).log + StepOf(Stages[k], env).issued, Err(Stages[k]),
                Keep(Prefix(env, k).readback, StepOf(Stages[k], env).readback))
  {
    PendingAfterPrefix(env, k);
    Advance(env, k, Prefix(env, k).log, Prefix(env, k).readback);
  }

  /** A run in which no enabled stage fails issues every enabled stage's commands and ends Ok. */
  lemma Completes(env: Env)
    requires PrefixOk(env, |Stages|)
    ensures FlashRun(env) == Prefix(env, |Stages|)
  {
    PendingAfterPrefix(env, |Stages|);
    PendingAtEnd(env, Prefix(env, |Stages|).log, Prefix(env, |Stages|).readback);
  }

  /** The first stage from position k on that is enabled and fails, or |Stages| if none. */
  function StopFrom(env: Env, k: nat): (j: nat)
    requires k <= |Stages| && PrefixOk(env, k)
    ensures k <= j <= |Stages| && PrefixOk(env, j)
    ensures j < |Stages| ==> Enabled(Stages[j], env) && !StepOf(Stages[j], env).ok
    decreases |Stages| - k
  {
    if k == |Stages| then k
    else if Enabled(Stages[k], env) && !StepOf(Stages[k], env).ok then k
    else StopFrom(env, k + 1)
  }

  /** The stage at which the run stops (|Stages| when it runs to the end). */
  function Stop(env: Env): (j: nat)
    ensures j <= |Stages| && PrefixOk(env, j)
    ensures j < |Stages| ==> Enabled(Stages[j], env) && !StepOf(Stages[j], env).ok
  {
    StopFrom(env, 0)
  }

  /** The run is the commands of every stage before the stop, then those of the failing stage. */
  lemma RunStops(env: Env)
    ensures var j := Stop(env);
      && (j == |Stages| ==> FlashRun(env) == Prefix(env, j))
      && (j < |Stages| ==> FlashRun(env).log == Prefix(env, j).log + StepOf(Stages[j], env).issued
                           && FlashRun(env).outcome == Err(Stages[j]))
  {
    if Stop(env) == |Stages| {
      Completes(env);
    } else {
      FailsAt(env, Stop(env));
    }
  }

  /** Reaching a later stage means having reached every earlier one. */
  lemma {:induction false} PrefixOkDown(env: Env, k: nat, j: nat)
    requires j <= k <= |Stages|
    ensures PrefixOk(env, k) ==> PrefixOk(env, j)
    decreases k - j
  {
    if j < k {
      PrefixOkDown(env, k - 1, j);
    }
  }

  /** Stage positions are unique. */
  lemma RankOfStage(k: nat)
    requires k < |Stages|
    ensures Rank(Stages[k]) == k
  {
    if k < 7 {
      if k == 0 {} else if k == 1 {} else if k == 2 {} else if k == 3 {} else if k == 4 {} else if k == 5 {} else {}
    } else {
      if k == 7 {} else if k == 8 {} else if k == 9 {} else if k == 10 {} else if k == 11 {} else if k == 12 {} else {}
    }
  }

  /** The stage at position k fails the run exactly when the run reaches it and it fails. */
  lemma ErrAt(env: Env, k: nat)
    requires k < |Stages|
    ensures FlashRun(env).outcome == Err(Stages[k]) <==>
      PrefixOk(env, k) && Enabled(Stages[k], env) && !StepOf(Stages[k], env).ok
  {
    RunStops(env);
    var j := Stop(env);
    if FlashRun(env).outcome == Err(Stages[k]) {
      RankOfStage(j);
      RankOfStage(k);
    }
    if PrefixOk(env, k) && Enabled(Stages[k], env) && !StepOf(Stages[k], env).ok {
      if j < k {
        PrefixOkDown(env, k, j + 1);
      } else if k < j {
        PrefixOkDown(env, j, k + 1);
      }
    }
  }

  /** A run fails at a stage exactly when it reaches that stage and the stage fails. */
  lemma ErrIff(env: Env, st: Stage)
    ensures FlashRun(env).outcome == Err(st) <==>
      PrefixOk(env, Rank(st)) && Enabled(st, env) && !StepOf(st, env).ok
  {
    ErrAt(env, Rank(st));
  }

  /** A run ends Ok exactly when every enabled stage succeeds. */
  lemma OkIff(env: Env)
    ensures FlashRun(env).outcome == Ok <==> PrefixOk(env, |Stages|)
  {
    RunStops(env);
    if Stop(env) < |Stages| {
      PrefixOkDown(env, |Stages|, Stop(env) + 1);
    }
  }
}
