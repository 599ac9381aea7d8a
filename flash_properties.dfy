/**
 * What a flashing run (dongle/utils.py, flash_firmware) promises, proved about
 * the reference semantics of FlashPlan: which stage may issue which command,
 * the order of the stages in the log, the early stop when synchronisation or
 * the speed upgrade fails, the reset on a CRC mismatch and at the end of a good
 * run, the shape of the readback, and the encoding of the IEEE address.
 */
module FlashProperties {
  import opened Wrappers
  import opened Bsl
  import opened FlashPlan

  // ---------------------------------------------------------------------------
  // Which stage issues which command
  // ---------------------------------------------------------------------------

  /** The stages whose code sends command c. */
  predicate MayIssue(st: Stage, c: Command) {
    match c
    case Open(_, _) => st == PortOpen || st == SpeedUpgrade
    case Close => st == SpeedUpgrade
    case InvokeBootloader(_, _) => st == BootloaderEntry
    case SendSynch => st == Connect || st == SpeedUpgrade
    case GetChipId => st == Identify
    case SetXOsc => st == SpeedUpgrade
    case Erase => st == MassErase
    case EraseMemory(_, _) => st == PageErase
    case WriteMemory(_, _) => st == FirmwareWrite || st == IeeeAddress
    case Crc(_, _) => st == Verify
    case ReadMemory(_) => st == Readback
    case DisableBootloader => st == BootloaderDisable
    case Reset => st == Verify || st == FinalReset
  }

  /** The first position in `Stages` whose stage may send command c. */
  function Earliest(c: Command): (k: nat)
    ensures forall st :: MayIssue(st, c) ==> k <= Rank(st)
  {
    match c
    case Open(_, _) => 0
    case InvokeBootloader(_, _) => 1
    case SendSynch => 3
    case GetChipId => 4
    case Close => 5
    case SetXOsc => 5
    case Erase => 6
    case EraseMemory(_, _) => 7
    case WriteMemory(_, _) => 8
    case Crc(_, _) => 9
    case Reset => 9
    case ReadMemory(_) => 11
    case DisableBootloader => 12
  }

  /** The read loop sends nothing but memory reads. */
  lemma {:induction false} ReadLoopReadsOnly(memory: int -> Option<Word>, addr: int, i: nat, n: nat, c: Command)
    requires c in ReadLoop(memory, addr, i, n).issued
    ensures c.ReadMemory?
    decreases n - i
  {
    if i < n && memory(addr + i * 4).Some? && c != ReadMemory(addr + i * 4) {
      ReadLoopReadsOnly(memory, addr, i + 1, n, c);
    }
  }

  /**
   * Every command a stage sends is one its code may send; a reset is sent only
   * by the CRC check (which then fails) and by the final reset.
   */
  lemma IssuedBy(st: Stage, env: Env, c: Command)
    requires c in StepOf(st, env).issued
    ensures MayIssue(st, c)
    ensures c == Reset && StepOf(st, env).ok ==> st == FinalReset
  {
    if st == Readback {
      ReadLoopReadsOnly(env.target.memory, Address(env), 0, RoundUp4(env.conf.len) / 4, c);
    }
  }

  /** Stage position j is enabled and sends command c. */
  ghost predicate Issues(env: Env, j: nat, c: Command) {
    j < |Stages| && Enabled(Stages[j], env) && c in StepOf(Stages[j], env).issued
  }

  /** The commands of the first k stages are those the enabled ones among them send. */
  lemma InPrefix(env: Env, k: nat, c: Command)
    requires k <= |Stages|
    ensures c in Prefix(env, k).log <==> exists j: nat :: j < k && Issues(env, j, c)
  {
    if c in Prefix(env, k).log {
      var j := Issuer(env, k, c);
    }
    if exists j: nat :: j < k && Issues(env, j, c) {
      var j: nat :| j < k && Issues(env, j, c);
      IssuedInPrefix(env, j, k, c);
    }
  }

  /** The stage among the first k that sent a command found in their commands. */
  lemma {:induction false} Issuer(env: Env, k: nat, c: Command) returns (j: nat)
    requires k <= |Stages| && c in Prefix(env, k).log
    ensures j < k && Issues(env, j, c)
    decreases k
  {
    assert k > 0;
    InPrefixStep(env, k - 1, c);
    if c in Prefix(env, k - 1).log {
      j := Issuer(env, k - 1, c);
    } else {
      j := k - 1;
    }
  }

  /** What stage j sends is among the commands of the first k stages, for j < k. */
  lemma IssuedInPrefix(env: Env, j: nat, k: nat, c: Command)
    requires j < k <= |Stages| && Issues(env, j, c)
    ensures c in Prefix(env, k).log
  {
    InPrefixStep(env, j, c);
    PrefixGrows(env, j + 1, k);
  }

  /** The commands of the first k + 1 stages: those of the first k, and those stage k sends if enabled. */
  lemma InPrefixStep(env: Env, k: nat, c: Command)
    requires k < |Stages|
    ensures c in Prefix(env, k + 1).log <==> c in Prefix(env, k).log || Issues(env, k, c)
  {
    PrefixNext(env, k);
  }

  /** A command no stage before position k may send is not among their commands. */
  lemma {:induction false} NotBefore(env: Env, k: nat, c: Command)
    requires k <= |Stages| && k <= Earliest(c)
    ensures c !in Prefix(env, k).log
  {
    if k > 0 {
      NotBefore(env, k - 1, c);
      if c in StepOf(Stages[k - 1], env).issued {
        IssuedBy(Stages[k - 1], env, c);
        RankOfStage(k - 1);
      }
    }
  }

  /** Stages that all succeed before the final reset send no reset. */
  lemma {:induction false} NoResetWhileOk(env: Env, k: nat)
    requires k < |Stages| && PrefixOk(env, k)
    ensures Reset !in Prefix(env, k).log
  {
    if k > 0 {
      NoResetWhileOk(env, k - 1);
      if Enabled(Stages[k - 1], env) && Reset in StepOf(Stages[k - 1], env).issued {
        IssuedBy(Stages[k - 1], env, Reset);
      }
    }
  }

  // ---------------------------------------------------------------------------
  // Where a run stops, and the order of its commands
  // ---------------------------------------------------------------------------

  /** The run reaches stage k exactly when k is not past the stage where it stops. */
  lemma ReachIff(env: Env, k: nat)
    requires k <= |Stages|
    ensures PrefixOk(env, k) <==> k <= Stop(env)
  {
    if k <= Stop(env) {
      PrefixOkDown(env, Stop(env), k);
    } else if PrefixOk(env, k) {
      PrefixOkDown(env, k, Stop(env) + 1);
    }
  }

  /** A run that fails at stage st stops at st's position. */
  lemma StopsAt(env: Env, st: Stage)
    requires FlashRun(env).outcome == Err(st)
    ensures Stop(env) == Rank(st)
  {
    RunStops(env);
    RankOfStage(Stop(env));
  }

  /** The commands of a run are those sent by the enabled stages up to the one where it stops. */
  lemma InRun(env: Env, c: Command)
    ensures c in FlashRun(env).log <==> exists j: nat :: j <= Stop(env) && Issues(env, j, c)
  {
    RunStops(env);
    var s, log := Stop(env), FlashRun(env).log;
    if c in log {
      if c in Prefix(env, s).log {
        var j := Issuer(env, s, c);
      } else {
        assert Issues(env, s, c);
      }
    }
    if exists j: nat :: j <= s && Issues(env, j, c) {
      var j: nat :| j <= s && Issues(env, j, c);
      if j < s {
        IssuedInPrefix(env, j, s, c);
      }
    }
  }

  /** The commands of the first j stages begin those of the first k stages, for j <= k. */
  lemma {:induction false} PrefixGrows(env: Env, j: nat, k: nat)
    requires j <= k <= |Stages|
    ensures Prefix(env, j).log <= Prefix(env, k).log
    decreases k - j
  {
    if j < k {
      PrefixGrows(env, j, k - 1);
    }
  }

  /** The commands of every stage the run reaches begin the run's log. */
  lemma RunExtendsPrefix(env: Env, k: nat)
    requires k <= |Stages| && PrefixOk(env, k)
    ensures Prefix(env, k).log <= FlashRun(env).log
  {
    ReachIff(env, k);
    RunStops(env);
    PrefixGrows(env, k, Stop(env));
  }

  /** Where stage k's commands begin in the log: after everything the stages before it sent. */
  function Start(env: Env, k: nat): nat
    requires k <= |Stages|
  {
    |Prefix(env, k).log|
  }

  /** A stage the run reaches and that is enabled sends its commands at `Start` in the log. */
  lemma Block(env: Env, k: nat)
    requires k < |Stages| && PrefixOk(env, k) && Enabled(Stages[k], env)
    ensures var s, p := StepOf(Stages[k], env), Start(env, k);
      p + |s.issued| <= |FlashRun(env).log| && FlashRun(env).log[p .. p + |s.issued|] == s.issued
  {
    var s, pre := StepOf(Stages[k], env), Prefix(env, k).log;
    if s.ok {
      PassedStage(env, k);
    } else {
      FailsAt(env, k);
    }
    SliceAfter(pre, s.issued, FlashRun(env).log);
  }

  /** One more stage of the prefix. */
  lemma PrefixNext(env: Env, k: nat)
    requires k < |Stages|
    ensures var s := StepOf(Stages[k], env);
      && Prefix(env, k + 1).log == Prefix(env, k).log + (if Enabled(Stages[k], env) then s.issued else [])
      && (PrefixOk(env, k + 1) <==> PrefixOk(env, k) && (Enabled(Stages[k], env) ==> s.ok))
  {
  }

  /** A stage the run passes leaves its commands after those of the stages before it. */
  lemma PassedStage(env: Env, k: nat)
    requires k < |Stages| && PrefixOk(env, k) && Enabled(Stages[k], env) && StepOf(Stages[k], env).ok
    ensures Prefix(env, k).log + StepOf(Stages[k], env).issued <= FlashRun(env).log
  {
    RunExtendsPrefix(env, k + 1);
  }

  /** A sequence that starts with pre + s holds s right after pre. */
  lemma SliceAfter<T>(pre: seq<T>, s: seq<T>, log: seq<T>)
    requires pre + s <= log
    ensures |pre| + |s| <= |log| && log[|pre| .. |pre| + |s|] == s
  {
    assert log[|pre| .. |pre| + |s|] == (pre + s)[|pre| ..];
  }

  /**
   * Enabled stages send their commands in stage order: an earlier stage's
   * commands all come before a later stage's, each as one block.
   */
  lemma StagesInOrder(env: Env, j: nat, k: nat)
    requires j < k < |Stages| && PrefixOk(env, k)
    requires Enabled(Stages[j], env) && Enabled(Stages[k], env)
    ensures var sj, sk, log := StepOf(Stages[j], env), StepOf(Stages[k], env), FlashRun(env).log;
      && Start(env, j) + |sj.issued| <= Start(env, k)
      && Start(env, k) + |sk.issued| <= |log|
      && log[Start(env, j) .. Start(env, j) + |sj.issued|] == sj.issued
      && log[Start(env, k) .. Start(env, k) + |sk.issued|] == sk.issued
  {
    PrefixOkDown(env, k, j);
    PrefixGrows(env, j + 1, k);
    Block(env, j);
    Block(env, k);
  }

  // ---------------------------------------------------------------------------
  // Connecting, identifying, and the speed upgrade
  // ---------------------------------------------------------------------------

  /**
   * When the firmware is needed and the bootloader does not answer the synch
   * sequence, the run stops there: no chip id query, nothing later, no reset.
   */
  lemma SynchFailureStops(env: Env)
    requires env.target.openOk && (env.conf.write || env.conf.verify) && env.image.Some?
    requires !env.target.synchOk
    ensures var c := env.conf;
      FlashRun(env) == RunResult(
        [Open(c.port, c.baud), InvokeBootloader(c.bootloaderActiveHigh, c.bootloaderInvertLines), SendSynch],
        Err(Connect), None)
  {
    var c := env.conf;
    assert Stages[0] == PortOpen && Stages[1] == BootloaderEntry && Stages[2] == FirmwareLoad && Stages[3] == Connect;
    PrefixNext(env, 0);
    PrefixNext(env, 1);
    PrefixNext(env, 2);
    NoReadbackBefore(env, 3);
    FailsAt(env, 3);
  }

  /** Without writing or verifying there is no synch: the chip id query follows entering the bootloader. */
  lemma NoSynchWithoutImage(env: Env)
    requires env.target.openOk && !env.conf.write && !env.conf.verify
    ensures var c, log := env.conf, FlashRun(env).log;
      |log| >= 3 && log[..3] ==
        [Open(c.port, c.baud), InvokeBootloader(c.bootloaderActiveHigh, c.bootloaderInvertLines), GetChipId]
  {
    assert PrefixOk(env, 1) && PrefixOk(env, 2) && PrefixOk(env, 3) && PrefixOk(env, 4) && PrefixOk(env, 5);
    RunExtendsPrefix(env, 5);
  }

  /** An unknown chip id is not an error: identifying the chip never stops a run. */
  lemma IdentifyNeverFails(env: Env)
    ensures FlashRun(env).outcome != Err(Identify)
    ensures PrefixOk(env, 4) ==> PrefixOk(env, 5)
  {
    ErrIff(env, Identify);
  }

  /**
   * A command only one stage sends is in the log exactly when the run reaches
   * that stage, the stage is enabled, and it sends the command.
   */
  lemma OnlyFrom(env: Env, st: Stage, c: Command)
    requires forall other :: MayIssue(other, c) ==> other == st
    ensures c in FlashRun(env).log <==>
      PrefixOk(env, Rank(st)) && Enabled(st, env) && c in StepOf(st, env).issued
  {
    InRun(env, c);
    ReachIff(env, Rank(st));
    if PrefixOk(env, Rank(st)) && Enabled(st, env) && c in StepOf(st, env).issued {
      assert Issues(env, Rank(st), c);
    }
    if c in FlashRun(env).log {
      var j: nat :| j <= Stop(env) && Issues(env, j, c);
      IssuedBy(Stages[j], env, c);
      RankOfStage(j);
    }
  }

  /** The oscillator switch is sent exactly when the run gets that far, the speed is not forced, and the device has the command. */
  lemma SpeedUpgradeAttempted(env: Env)
    ensures SetXOsc in FlashRun(env).log <==>
      PrefixOk(env, 5) && env.conf.forceSpeed != 1 && Device(env).hasCmdSetXosc
  {
    OnlyFrom(env, SpeedUpgrade, SetXOsc);
    assert SetXOsc in StepOf(SpeedUpgrade, env).issued;
  }

  /** Commands that change, check or read the flash. */
  predicate TouchesFlash(c: Command) {
    c.Erase? || c.EraseMemory? || c.WriteMemory? || c.Crc? || c.ReadMemory? || c.Reset?
  }

  /** A failed speed upgrade ends the run before anything touches the flash, and sends no reset. */
  lemma SpeedUpgradeAbort(env: Env, c: Command)
    requires FlashRun(env).outcome == Err(SpeedUpgrade)
    requires c in FlashRun(env).log
    ensures !TouchesFlash(c)
  {
    StopsAt(env, SpeedUpgrade);
    RunStops(env);
    if TouchesFlash(c) {
      NotBefore(env, 5, c);
      IssuedBy(SpeedUpgrade, env, c);
    }
  }

  // ---------------------------------------------------------------------------
  // Verification and the final reset
  // ---------------------------------------------------------------------------

  /**
   * The CRC check asks the target for the CRC of the image's range at the flash
   * address. A match lets the run go on; a mismatch resets the target once,
   * as the run's last command, and ends the run with the error.
   */
  lemma VerifyOutcome(env: Env)
    requires PrefixOk(env, 9) && env.conf.verify
    ensures var a, n, log := Address(env), |ImageBytes(env)|, FlashRun(env).log;
      && Crc(a, n) in log
      && (env.target.crc(a, n) == LocalCrc(env) ==> PrefixOk(env, 10))
      && (env.target.crc(a, n) != LocalCrc(env) ==>
            && FlashRun(env).outcome == Err(Verify)
            && |log| >= 2 && log[|log| - 2..] == [Crc(a, n), Reset]
            && Reset !in log[..|log| - 1])
  {
    Block(env, 9);
    var log := FlashRun(env).log;
    if env.target.crc(Address(env), |ImageBytes(env)|) != LocalCrc(env) {
      FailsAt(env, 9);
      NoResetWhileOk(env, 9);
      assert log[..|log| - 1] == Prefix(env, 9).log + [Crc(Address(env), |ImageBytes(env)|)];
    }
  }

  /**
   * A reset is sent exactly when the run succeeds or fails its CRC check, and
   * then exactly once, as the last command.
   */
  lemma ResetPlaces(env: Env)
    ensures var r := FlashRun(env);
      && (r.outcome == Ok || r.outcome == Err(Verify) ==> |r.log| > 0 && r.log[|r.log| - 1] == Reset && Reset !in r.log[..|r.log| - 1])
      && (r.outcome != Ok && r.outcome != Err(Verify) ==> Reset !in r.log)
  {
    var s := Stop(env);
    if s == |Stages| {
      ResetWhenComplete(env);
    } else if s == 9 {
      ResetOnCrcMismatch(env);
    } else {
      NoResetOnOtherFailure(env);
    }
  }

  /** A run that passes every stage ends with its only reset. */
  lemma ResetWhenComplete(env: Env)
    requires Stop(env) == |Stages|
    ensures var r := FlashRun(env);
      r.outcome == Ok && |r.log| > 0 && r.log[|r.log| - 1] == Reset && Reset !in r.log[..|r.log| - 1]
  {
    RunStops(env);
    PrefixOkDown(env, |Stages|, 13);
    NoResetWhileOk(env, 13);
    assert Prefix(env, |Stages|).log == Prefix(env, 13).log + [Reset];
    LastOnly(Prefix(env, 13).log, Reset);
  }

  /** A run that fails its CRC check ends with its only reset, right after the CRC command. */
  lemma ResetOnCrcMismatch(env: Env)
    requires Stop(env) == 9
    ensures var r := FlashRun(env);
      r.outcome == Err(Verify) && |r.log| > 0 && r.log[|r.log| - 1] == Reset && Reset !in r.log[..|r.log| - 1]
  {
    RunStops(env);
    RankOfStage(9);
    NoResetWhileOk(env, 9);
    var pre := Prefix(env, 9).log + [Crc(Address(env), |ImageBytes(env)|)];
    assert FlashRun(env).log == pre + [Reset];
    LastOnly(pre, Reset);
  }

  /** A run that fails anywhere but the CRC check sends no reset. */
  lemma NoResetOnOtherFailure(env: Env)
    requires Stop(env) < |Stages| && Stop(env) != 9
    ensures var r := FlashRun(env); r.outcome != Ok && r.outcome != Err(Verify) && Reset !in r.log
  {
    var s := Stop(env);
    RunStops(env);
    RankOfStage(s);
    NoResetWhileOk(env, s);
    if Reset in StepOf(Stages[s], env).issued {
      IssuedBy(Stages[s], env, Reset);
    }
  }

  /** A sequence that ends with x, and has no x before it. */
  lemma LastOnly<T>(pre: seq<T>, x: T)
    requires x !in pre
    ensures var s := pre + [x]; s[|s| - 1] == x && x !in s[..|s| - 1]
  {
    assert (pre + [x])[..|pre|] == pre;
  }

  /** A good run ends with the reset, right after disabling the bootloader when that is configured. */
  lemma SuccessEnds(env: Env)
    requires FlashRun(env).outcome == Ok
    ensures var log := FlashRun(env).log;
      && |log| >= 2 && log[|log| - 1] == Reset
      && (env.conf.disableBootloader ==> log[|log| - 2] == DisableBootloader)
  {
    OkIff(env);
    Completes(env);
    LastStages(env);
    PrefixGrows(env, 1, 12);
    assert Prefix(env, 1).log == [Open(env.conf.port, env.conf.baud)];
  }

  /** The last two stages: the optional bootloader disabling, then the reset. */
  lemma LastStages(env: Env)
    ensures Prefix(env, 14).log == Prefix(env, 13).log + [Reset]
    ensures Prefix(env, 13).log == Prefix(env, 12).log + (if env.conf.disableBootloader then [DisableBootloader] else [])
  {
    assert Stages[12] == BootloaderDisable && Stages[13] == FinalReset;
  }

  // ---------------------------------------------------------------------------
  // Readback
  // ---------------------------------------------------------------------------

  /**
   * The read loop from index i: one read per word at addr + 4*j for increasing
   * j, each word stored as read, stopping after the first read that raises;
   * it finishes exactly when every read succeeds.
   */
  lemma {:induction false} ReadLoopShape(memory: int -> Option<Word>, addr: int, i: nat, n: nat)
    requires i <= n
    ensures var r := ReadLoop(memory, addr, i, n);
      && |r.words| <= n - i
      && |r.issued| == |r.words| + (if r.ok then 0 else 1)
      && (r.ok ==> |r.words| == n - i)
      && (!r.ok ==> memory(addr + (i + |r.words|) * 4).None?)
      && (forall j :: 0 <= j < |r.issued| ==> r.issued[j] == ReadMemory(addr + (i + j) * 4))
      && (forall j :: 0 <= j < |r.words| ==> memory(addr + (i + j) * 4) == Some(r.words[j]))
      && (r.ok <==> forall j :: i <= j < n ==> memory(addr + j * 4).Some?)
    decreases n - i
  {
    if i < n && memory(addr + i * 4).Some? {
      ReadLoopShape(memory, addr, i + 1, n);
      var r, rest := ReadLoop(memory, addr, i, n), ReadLoop(memory, addr, i + 1, n);
      forall j | 0 <= j < |r.issued|
        ensures r.issued[j] == ReadMemory(addr + (i + j) * 4)
      {
        if j > 0 {
          assert r.issued[j] == rest.issued[j - 1];
        }
      }
      forall j | 0 <= j < |r.words|
        ensures memory(addr + (i + j) * 4) == Some(r.words[j])
      {
        if j > 0 {
          assert r.words[j] == rest.words[j - 1];
        }
      }
    }
  }

  /** The readback file: written when reading is enabled and the run gets that far, holding the words the loop read. */
  lemma ReadbackOf(env: Env)
    ensures FlashRun(env).readback ==
      if PrefixOk(env, 11) && env.conf.read
      then Some(ReadLoop(env.target.memory, Address(env), 0, RoundUp4(env.conf.len) / 4).words)
      else None
  {
    ReachIff(env, 11);
    var s := Stop(env);
    if s == |Stages| {
      Completes(env);
      ReadbackAfter(env, s);
      ReadbackOfStage(env);
    } else {
      FailsAt(env, s);
      RankOfStage(s);
      if s < 11 {
        NoReadbackBefore(env, s);
      } else if s == 11 {
        NoReadbackBefore(env, 11);
      } else {
        ReadbackAfter(env, s);
        ReadbackOfStage(env);
      }
    }
  }

  /** After the readback stage the readback file holds what that stage read, if it ran. */
  lemma ReadbackOfStage(env: Env)
    ensures Prefix(env, 12).readback ==
      if env.conf.read then Some(ReadLoop(env.target.memory, Address(env), 0, RoundUp4(env.conf.len) / 4).words) else None
  {
    NoReadbackBefore(env, 11);
    assert Stages[11] == Readback;
  }

  /** The stages before the readback leave no readback file. */
  lemma {:induction false} NoReadbackBefore(env: Env, k: nat)
    requires k <= 11
    ensures Prefix(env, k).readback == None
  {
    if k > 0 {
      NoReadbackBefore(env, k - 1);
      RankOfStage(k - 1);
    }
  }

  /** The stages after the readback leave the readback file as it is. */
  lemma {:induction false} ReadbackAfter(env: Env, k: nat)
    requires 12 <= k <= |Stages|
    ensures Prefix(env, k).readback == Prefix(env, 12).readback
  {
    if k > 12 {
      ReadbackAfter(env, k - 1);
      RankOfStage(k - 1);
    }
  }

  /**
   * A good run with reading enabled stores RoundUp4(len) / 4 words in the
   * readback file, the i-th as read from address + 4*i.
   */
  lemma ReadbackComplete(env: Env)
    requires FlashRun(env).outcome == Ok && env.conf.read
    ensures var n, a, rb := RoundUp4(env.conf.len) / 4, Address(env), FlashRun(env).readback;
      && rb.Some? && |rb.value| == n
      && (forall i :: 0 <= i < n ==> env.target.memory(a + i * 4) == Some(rb.value[i]))
  {
    var n, a := RoundUp4(env.conf.len) / 4, Address(env);
    var r := ReadLoop(env.target.memory, a, 0, n);
    OkIff(env);
    PrefixOkDown(env, 14, 12);
    assert Stages[11] == Readback;
    assert StepOf(Readback, env).ok == r.ok;
    ReadbackOf(env);
    ReadAll(env.target.memory, a, n);
  }

  /** A read loop from 0 that completes holds one word per address, as the memory has it. */
  lemma ReadAll(memory: int -> Option<Word>, a: int, n: nat)
    requires ReadLoop(memory, a, 0, n).ok
    ensures var ws := ReadLoop(memory, a, 0, n).words;
      |ws| == n && forall i :: 0 <= i < n ==> memory(a + i * 4) == Some(ws[i])
  {
    ReadLoopShape(memory, a, 0, n);
    var ws := ReadLoop(memory, a, 0, n).words;
    forall i | 0 <= i < n
      ensures memory(a + i * 4) == Some(ws[i])
    {
      assert a + (0 + i) * 4 == a + i * 4;
    }
  }

  /** A run that reaches the readback with reading enabled sends its reads at address + 4*i for i = 0, 1, ..., in order. */
  lemma ReadbackReads(env: Env)
    requires PrefixOk(env, 11) && env.conf.read
    ensures var r, a, p := ReadLoop(env.target.memory, Address(env), 0, RoundUp4(env.conf.len) / 4), Address(env), Start(env, 11);
      && p + |r.issued| <= |FlashRun(env).log|
      && (forall i :: 0 <= i < |r.issued| ==> FlashRun(env).log[p + i] == ReadMemory(a + i * 4))
  {
    ReadbackBlock(env);
    ReadsAt(FlashRun(env).log, Start(env, 11), env.target.memory, Address(env), RoundUp4(env.conf.len) / 4);
  }

  /** The readback stage's reads form one block of the log, at its start position. */
  lemma ReadbackBlock(env: Env)
    requires PrefixOk(env, 11) && env.conf.read
    ensures var rs, p := ReadLoop(env.target.memory, Address(env), 0, RoundUp4(env.conf.len) / 4).issued, Start(env, 11);
      p + |rs| <= |FlashRun(env).log| && FlashRun(env).log[p .. p + |rs|] == rs
  {
    assert Stages[11] == Readback;
    Block(env, 11);
  }

  /** The reads of a read loop from 0, found at position p of a log, are at a + 4*i. */
  lemma ReadsAt(log: seq<Command>, p: nat, memory: int -> Option<Word>, a: int, n: nat)
    requires var rs := ReadLoop(memory, a, 0, n).issued; p + |rs| <= |log| && log[p .. p + |rs|] == rs
    ensures var rs := ReadLoop(memory, a, 0, n).issued;
      forall i :: 0 <= i < |rs| ==> log[p + i] == ReadMemory(a + i * 4)
  {
    var rs := ReadLoop(memory, a, 0, n).issued;
    ReadLoopShape(memory, a, 0, n);
    forall i | 0 <= i < |rs|
      ensures log[p + i] == ReadMemory(a + i * 4)
    {
      assert log[p + i] == log[p .. p + |rs|][i];
      assert a + (0 + i) * 4 == a + i * 4;
    }
  }

  // ---------------------------------------------------------------------------
  // The IEEE address
  // ---------------------------------------------------------------------------

  /** Reading back little-endian bytes gives the number that was encoded. */
  lemma {:induction false} LittleEndianRoundTrip(v: nat, n: nat)
    requires v < Pow256(n)
    ensures FromLittleEndian(LittleEndian(v, n)) == v
  {
    if n > 0 {
      LittleEndianRoundTrip(v / 256, n - 1);
      assert LittleEndian(v, n)[1..] == LittleEndian(v / 256, n - 1);
    }
  }

  /** Encoding the number a byte string stands for gives the byte string back. */
  lemma {:induction false} LittleEndianOfBytes(bs: seq<byte>)
    ensures LittleEndian(FromLittleEndian(bs), |bs|) == bs
  {
    if bs != [] {
      LittleEndianOfBytes(bs[1..]);
      var v := FromLittleEndian(bs);
      assert v % 256 == bs[0] as nat && v / 256 == FromLittleEndian(bs[1..]);
      assert bs == [bs[0]] + bs[1..];
    }
  }

  lemma Pow256Eight()
    ensures Pow256(8) == QuadBound
  {
    assert Pow256(4) == 0x1_0000_0000;
  }

  /** `struct.pack("<Q", v)` is the one eight-byte string whose little-endian value is v. */
  lemma PackQuadRoundTrip(v: nat, bs: seq<byte>)
    requires v < QuadBound
    ensures FromLittleEndian(PackQuad(v)) == v
    ensures |bs| == 8 && FromLittleEndian(bs) == v ==> bs == PackQuad(v)
  {
    Pow256Eight();
    LittleEndianRoundTrip(v, 8);
    LittleEndianOfBytes(bs);
  }

  /**
   * With an IEEE address configured and reached, a value that does not fit in
   * eight bytes stops the run; otherwise its little-endian bytes are written
   * at the device's secondary IEEE address location.
   */
  lemma IeeeWrite(env: Env)
    requires PrefixOk(env, 10) && env.conf.ieeeAddress != 0
    ensures env.conf.ieeeAddress >= QuadBound ==> FlashRun(env).outcome == Err(IeeeAddress)
    ensures env.conf.ieeeAddress < QuadBound ==>
      && WriteMemory(Device(env).addrIeeeAddressSecondary, PackQuad(env.conf.ieeeAddress)) in FlashRun(env).log
      && FromLittleEndian(PackQuad(env.conf.ieeeAddress)) == env.conf.ieeeAddress
  {
    if env.conf.ieeeAddress >= QuadBound {
      FailsAt(env, 10);
    } else {
      Block(env, 10);
      PackQuadRoundTrip(env.conf.ieeeAddress, []);
      var s, p := StepOf(IeeeAddress, env), Start(env, 10);
      assert FlashRun(env).log[p] == s.issued[0];
    }
  }

  // ---------------------------------------------------------------------------
  // The configuration flash_firmware hard-codes
  // ---------------------------------------------------------------------------

  /**
   * Under the default configuration a target that answers every command well
   * sees: open at 115200 baud, bootloader entry, synch, chip id, the speed
   * upgrade when the device has it, mass erase, the write at the flash
   * address, the CRC check and the reset. Nothing is read back and no IEEE
   * address is written.
   */
  lemma DefaultRun(port: string, lib: Library, target: Target, image: Option<Firmware>)
    requires image.Some? && target.openOk && target.synchOk && target.eraseOk
    requires var env := Env(DefaultConf(port), lib, target, image);
      && (Device(env).hasCmdSetXosc ==> target.xoscOk && target.reopenOk && target.resynchOk)
      && target.writeOk(Address(env), image.value.bytes)
      && target.crc(Address(env), |image.value.bytes|) == image.value.crc32
    ensures var env := Env(DefaultConf(port), lib, target, image);
      var a, bytes := Address(env), image.value.bytes;
      FlashRun(env) == RunResult(
        [Open(port, 115200), InvokeBootloader(false, false), SendSynch, GetChipId]
        + (if Device(env).hasCmdSetXosc then [SetXOsc, Close, Open(port, 1000000), SendSynch] else [])
        + [Erase, WriteMemory(a, bytes), Crc(a, |bytes|), Reset],
        Ok, None)
  {
    var env := Env(DefaultConf(port), lib, target, image);
    var a, bytes := Address(env), image.value.bytes;
    DefaultConnect(env, port);
    DefaultUpgrade(env, port);
    DefaultErase(env, port);
    DefaultWrite(env, port);
    DefaultTail(env, port);
    Completes(env);
    var p6 := Prefix(env, 6).log;
    assert Prefix(env, 14).log == p6 + [Erase] + [WriteMemory(a, bytes), Crc(a, |bytes|)] + [Reset];
    Regroup(p6, Erase, WriteMemory(a, bytes), Crc(a, |bytes|), Reset);
  }

  /** Appending one, two and one elements appends the four. */
  lemma Regroup<T>(s: seq<T>, x: T, y: T, z: T, w: T)
    ensures s + [x] + [y, z] + [w] == s + [x, y, z, w]
  {
    assert [x] + [y, z] + [w] == [x, y, z, w];
  }

  /**
   * Under the default configuration, a four-byte image 00 01 02 03 with CRC32
   * 0x8bb98613 and a target that reports 0xdeadbeef for the written range: the
   * run fails its CRC check, and the reset that follows the CRC command is the
   * only one and the last command.
   */
  lemma DefaultCrcMismatch(port: string, lib: Library, target: Target)
    requires target.openOk && target.synchOk && target.eraseOk
    requires var env := Env(DefaultConf(port), lib, target, Some(Firmware([0, 1, 2, 3], 0x8bb98613)));
      && (Device(env).hasCmdSetXosc ==> target.xoscOk && target.reopenOk && target.resynchOk)
      && target.writeOk(Address(env), [0, 1, 2, 3])
      && target.crc(Address(env), 4) == 0xdeadbeef
    ensures var env := Env(DefaultConf(port), lib, target, Some(Firmware([0, 1, 2, 3], 0x8bb98613)));
      var log := FlashRun(env).log;
      && FlashRun(env).outcome == Err(Verify)
      && |log| >= 2 && log[|log| - 2..] == [Crc(Address(env), 4), Reset]
      && Reset !in log[..|log| - 1]
  {
    var env := Env(DefaultConf(port), lib, target, Some(Firmware([0, 1, 2, 3], 0x8bb98613)));
    DefaultConnect(env, port);
    DefaultUpgrade(env, port);
    DefaultErase(env, port);
    assert Stages[8] == FirmwareWrite;
    PrefixNext(env, 8);
    VerifyOutcome(env);
  }

  /** Default configuration, stages 0 .. 4: open, bootloader entry, firmware load, synch, chip id. */
  lemma DefaultConnect(env: Env, port: string)
    requires env.conf == DefaultConf(port) && env.image.Some? && env.target.openOk && env.target.synchOk
    ensures PrefixOk(env, 5) && Prefix(env, 5).log == [Open(port, 115200), InvokeBootloader(false, false), SendSynch, GetChipId]
  {
    DefaultOpen(env, port);
    assert Stages[3] == Connect && Stages[4] == Identify;
    PrefixNext(env, 3);
    PrefixNext(env, 4);
  }

  /** Default configuration, stages 0 .. 2: open and bootloader entry; the firmware is loaded. */
  lemma DefaultOpen(env: Env, port: string)
    requires env.conf == DefaultConf(port) && env.image.Some? && env.target.openOk
    ensures PrefixOk(env, 3) && Prefix(env, 3).log == [Open(port, 115200), InvokeBootloader(false, false)]
  {
    assert Stages[0] == PortOpen && Stages[1] == BootloaderEntry && Stages[2] == FirmwareLoad;
    PrefixNext(env, 0);
    PrefixNext(env, 1);
    PrefixNext(env, 2);
  }

  /** Default configuration, stage 5: the speed upgrade, when the device has the oscillator command. */
  lemma DefaultUpgrade(env: Env, port: string)
    requires env.conf == DefaultConf(port) && PrefixOk(env, 5)
    requires Device(env).hasCmdSetXosc ==> env.target.xoscOk && env.target.reopenOk && env.target.resynchOk
    ensures PrefixOk(env, 6)
    ensures Prefix(env, 6).log == Prefix(env, 5).log
      + (if Device(env).hasCmdSetXosc then [SetXOsc, Close, Open(port, 1000000), SendSynch] else [])
  {
    assert Stages[5] == SpeedUpgrade;
    PrefixNext(env, 5);
  }

  /** Default configuration, stages 6 and 7: mass erase, no page erase. */
  lemma DefaultErase(env: Env, port: string)
    requires env.conf == DefaultConf(port) && PrefixOk(env, 6) && env.target.eraseOk
    ensures PrefixOk(env, 8) && Prefix(env, 8).log == Prefix(env, 6).log + [Erase]
  {
    assert Stages[6] == MassErase && Stages[7] == PageErase;
    PrefixNext(env, 6);
    PrefixNext(env, 7);
  }

  /** Default configuration, stages 8 and 9: the write, and a CRC check that matches. */
  lemma DefaultWrite(env: Env, port: string)
    requires env.conf == DefaultConf(port) && PrefixOk(env, 8) && env.image.Some?
    requires env.target.writeOk(Address(env), env.image.value.bytes)
    requires env.target.crc(Address(env), |env.image.value.bytes|) == env.image.value.crc32
    ensures PrefixOk(env, 10)
    ensures var a, bytes := Address(env), env.image.value.bytes;
      Prefix(env, 10).log == Prefix(env, 8).log + [WriteMemory(a, bytes), Crc(a, |bytes|)]
  {
    assert Stages[8] == FirmwareWrite && Stages[9] == Verify;
    PrefixNext(env, 8);
    PrefixNext(env, 9);
  }

  /** Default configuration, stages 10 .. 13: no IEEE address, no readback, no bootloader disabling; the reset. */
  lemma DefaultTail(env: Env, port: string)
    requires env.conf == DefaultConf(port) && PrefixOk(env, 10)
    ensures PrefixOk(env, 14) && Prefix(env, 14).log == Prefix(env, 10).log + [Reset]
    ensures Prefix(env, 14).readback == None
  {
    assert Stages[10] == IeeeAddress && Stages[11] == Readback;
    PrefixNext(env, 10);
    PrefixNext(env, 11);
    DefaultEnd(env, port);
    ReadbackOfStage(env);
    ReadbackAfter(env, 14);
  }

  /** Default configuration, stages 12 and 13: no bootloader disabling, then the reset. */
  lemma DefaultEnd(env: Env, port: string)
    requires env.conf == DefaultConf(port) && PrefixOk(env, 12)
    ensures PrefixOk(env, 14) && Prefix(env, 14).log == Prefix(env, 12).log + [Reset]
  {
    assert Stages[12] == BootloaderDisable && Stages[13] == FinalReset;
    PrefixNext(env, 12);
    PrefixNext(env, 13);
  }
}
