/**
 * boot (dongle/utils.py): bring the dongle up. Unless it sits on the USB
 * adapter, boot drives its bootloader pin (bsl) and reset pin (rst) over GPIO:
 * bsl LOW while rst goes LOW -> HIGH restarts it in download mode, bsl HIGH
 * while rst goes LOW -> HIGH restarts it in run mode. With a firmware path it
 * restarts the dongle in download mode and flashes it before the run-mode
 * restart.
 */
module Boot {
  import opened Wrappers
  import opened Bsl
  import opened FlashPlan
  import opened Flasher
  import opened Board

  datatype Level = Low | High

  /** GPIO pin numbering: GPIO.BCM or GPIO.BOARD. */
  datatype PinMode = Bcm | BoardNumbering

  /** How the dongle is wired: the pin numbering and the reset and bootloader pins. */
  datatype Wiring = Wiring(mode: PinMode, rst: int, bsl: int)

  /**
   * The wiring chosen when the GPIO library loads, from the board type it
   * reports: BOARD numbering with rst 7 and bsl 15 on a Jetson Nano, BCM
   * numbering with rst 4 and bsl 22 on anything else. The two pins differ.
   */
  function WiringFor(boardType: string): (w: Wiring)
    ensures w.bsl != w.rst
    ensures w.mode == BoardNumbering <==> boardType == "Jetson Nano"
  {
    if boardType != "Jetson Nano" then Wiring(Bcm, 4, 22) else Wiring(BoardNumbering, 7, 15)
  }

  /** What the host does, in order: GPIO calls, sleeps, and a flashing run's serial traffic. */
  datatype Event =
    | SetWarnings(on: bool)
    | SetMode(mode: PinMode)
    | Setup(pins: seq<int>, initial: Level)
    | Output(writes: seq<(int, Level)>)       // each pin set in turn
    | Sleep(ms: nat)
    | Serial(commands: seq<Command>)

  /** Pin levels after setting pins one after the other. */
  function Drive(levels: map<int, Level>, writes: seq<(int, Level)>): map<int, Level>
    decreases |writes|
  {
    if writes == [] then levels else Drive(levels[writes[0].0 := writes[0].1], writes[1..])
  }

  /** Every pin of `pins` at one level. */
  function AllAt(pins: seq<int>, level: Level): (writes: seq<(int, Level)>)
    ensures |writes| == |pins|
    ensures forall i :: 0 <= i < |pins| ==> writes[i] == (pins[i], level)
  {
    if pins == [] then [] else [(pins[0], level)] + AllAt(pins[1..], level)
  }

  /** What an event does to the pin levels. */
  function Apply(levels: map<int, Level>, e: Event): map<int, Level> {
    match e
    case Setup(pins, initial) => Drive(levels, AllAt(pins, initial))
    case Output(writes) => Drive(levels, writes)
    case _ => levels
  }

  /** Pin levels after a sequence of events. */
  function Play(levels: map<int, Level>, events: seq<Event>): map<int, Level>
    decreases |events|
  {
    if events == [] then levels else Play(Apply(levels, events[0]), events[1..])
  }

  /**
   * The host boot runs on: GPIO pin levels, and every event so far. The levels
   * are always those the events lead to from the levels the host started with.
   */
  class Host {
    ghost const initial: map<int, Level>
    var levels: map<int, Level>
    var events: seq<Event>

    ghost predicate Valid()
      reads this
    {
      levels == Play(initial, events)
    }

    constructor (levels: map<int, Level>)
      ensures Valid() && this.levels == levels && events == []
    {
      initial := levels;
      this.levels := levels;
      events := [];
    }

    /** Record e and apply it to the pins. */
    method Do(e: Event)
      requires Valid()
      modifies this
      ensures Valid() && levels == Apply(old(levels), e) && events == old(events) + [e]
    {
      PlayAppend(initial, events, [e]);
      levels := Apply(levels, e);
      events := events + [e];
    }

    method SetWarnings(on: bool)
      requires Valid()
      modifies this
      ensures Valid() && levels == old(levels) && events == old(events) + [Event.SetWarnings(on)]
    {
      Do(Event.SetWarnings(on));
    }

    method SetMode(mode: PinMode)
      requires Valid()
      modifies this
      ensures Valid() && levels == old(levels) && events == old(events) + [Event.SetMode(mode)]
    {
      Do(Event.SetMode(mode));
    }

    /** GPIO.setup(pins, GPIO.OUT, initial=...): the pins become outputs at the initial level. */
    method Setup(pins: seq<int>, initial: Level)
      requires Valid()
      modifies this
      ensures Valid() && levels == Drive(old(levels), AllAt(pins, initial))
      ensures events == old(events) + [Event.Setup(pins, initial)]
    {
      Do(Event.Setup(pins, initial));
    }

    /** GPIO.output: the pins are set in turn. */
    method Output(writes: seq<(int, Level)>)
      requires Valid()
      modifies this
      ensures Valid() && levels == Drive(old(levels), writes) && events == old(events) + [Event.Output(writes)]
    {
      Do(Event.Output(writes));
    }

    /** time.sleep: recorded, not waited for. */
    method Sleep(ms: nat)
      requires Valid()
      modifies this
      ensures Valid() && levels == old(levels) && events == old(events) + [Event.Sleep(ms)]
    {
      Do(Event.Sleep(ms));
    }

    /** The serial commands of a flashing run, recorded when the run returns. */
    method Serial(commands: seq<Command>)
      requires Valid()
      modifies this
      ensures Valid() && levels == old(levels) && events == old(events) + [Event.Serial(commands)]
    {
      Do(Event.Serial(commands));
    }
  }

  /** Python truthiness of the optional firmware path: given and not empty. */
  predicate Truthy(firmware: Option<string>) {
    firmware.Some? && firmware.value != ""
  }

  /** Pins set up as outputs, both HIGH. */
  function Prelude(w: Wiring): seq<Event> {
    [SetWarnings(false), SetMode(w.mode), Setup([w.bsl, w.rst], High)]
  }

  /** Restart in download mode: bsl and rst LOW, then rst HIGH. */
  function EnterFlash(w: Wiring): seq<Event> {
    [Output([(w.bsl, Low), (w.rst, Low)]), Sleep(300), Output([(w.rst, High)]), Sleep(300)]
  }

  /** Restart in run mode: bsl HIGH and rst LOW, then rst HIGH. */
  function RunMode(w: Wiring): seq<Event> {
    [Output([(w.bsl, High), (w.rst, Low)]), Sleep(300), Output([(w.rst, High)]), Sleep(300)]
  }

  /**
   * The events of boot on device path dev. `run` is the flashing run it makes
   * when a firmware path is given; a failed run ends in SystemExit, which
   * leaves boot before the run-mode restart.
   */
  function BootEvents(w: Wiring, dev: string, firmware: Option<string>, run: RunResult): (es: seq<Event>)
    ensures es == [] <==> Contains(dev, "ttyUSB0")
    ensures !Contains(dev, "ttyUSB0") ==> |es| >= 7 && es[..3] == Prelude(w)
  {
    if Contains(dev, "ttyUSB0") then []
    else if !Truthy(firmware) then Prelude(w) + RunMode(w)
    else Prelude(w) + FlashEvents(w, run)
  }

  /**
   * The flashing part of boot: the download-mode restart, the run, and, unless
   * the run failed (SystemExit), the run-mode restart.
   */
  function FlashEvents(w: Wiring, run: RunResult): (es: seq<Event>)
    ensures |es| >= 5 && es[..4] == EnterFlash(w) && es[4] == Serial(run.log)
    ensures |es| == 5 <==> run.outcome.Err?
  {
    if run.outcome.Err? then EnterFlash(w) + [Serial(run.log)]
    else EnterFlash(w) + [Serial(run.log)] + RunMode(w)
  }

  /**
   * boot(firmware): find the device, and unless it is the USB adapter, drive
   * the pins, flash when a firmware path is given (flash_firmware with its
   * default exit_), and restart the dongle in run mode. `image` is the content
   * of the firmware file; `exit` is the SystemExit a failed run raises.
   */
  method Boot(host: Host, w: Wiring, rpiInfo: Option<map<string, string>>, usbExists: bool,
              firmware: Option<string>, lib: Library, target: Target, image: Option<Firmware>)
    returns (dev: string, flash: Option<RunResult>, exit: Exit)
    requires host.Valid()
    modifies host
    ensures dev == GetDev(BoardType(rpiInfo), usbExists)
    ensures flash.Some? <==> !Contains(dev, "ttyUSB0") && Truthy(firmware)
    ensures flash.Some? ==> flash.value == FlashRun(Env(DefaultConf(dev), lib, target, image))
    ensures exit == if flash.Some? then ExitOf(flash.value.outcome, true) else Returned
    ensures host.Valid()
    ensures host.events == old(host.events) + BootEvents(w, dev, firmware, FlashRun(Env(DefaultConf(dev), lib, target, image)))
  {
    dev := GetDev(BoardType(rpiInfo), usbExists);
    flash, exit := BootOn(host, w, dev, firmware, lib, target, image);
  }

  /** The rest of boot, once the device is known. */
  method BootOn(host: Host, w: Wiring, dev: string, firmware: Option<string>, lib: Library, target: Target, image: Option<Firmware>)
    returns (flash: Option<RunResult>, exit: Exit)
    requires host.Valid()
    modifies host
    ensures flash.Some? <==> !Contains(dev, "ttyUSB0") && Truthy(firmware)
    ensures flash.Some? ==> flash.value == FlashRun(Env(DefaultConf(dev), lib, target, image))
    ensures exit == if flash.Some? then ExitOf(flash.value.outcome, true) else Returned
    ensures host.Valid()
    ensures host.events == old(host.events) + BootEvents(w, dev, firmware, FlashRun(Env(DefaultConf(dev), lib, target, image)))
  {
    flash, exit := None, Returned;
    if !Contains(dev, "ttyUSB0") {
      ghost var events0 := host.events;
      SetUpPins(host, w);
      ghost var rest: seq<Event>;
      if Truthy(firmware) {
        var run;
        run, exit := FlashAndRestart(host, w, dev, lib, target, image);
        flash := Some(run);
        rest := FlashEvents(w, run);
      } else {
        RunModeRestart(host, w);
        rest := RunMode(w);
      }
      assert host.events == events0 + (Prelude(w) + rest);
    }
  }

  /**
   * The firmware branch of boot: download mode, flash_firmware on `dev`, and
   * the run-mode restart unless the run raised SystemExit.
   */
  method FlashAndRestart(host: Host, w: Wiring, dev: string, lib: Library, target: Target, image: Option<Firmware>)
    returns (run: RunResult, exit: Exit)
    requires host.Valid()
    modifies host
    ensures run == FlashRun(Env(DefaultConf(dev), lib, target, image))
    ensures exit == ExitOf(run.outcome, true)
    ensures host.Valid() && host.events == old(host.events) + FlashEvents(w, run)
  {
    EnterDownloadMode(host, w);
    var log, outcome, readback;
    log, outcome, readback, exit := FlashFirmware(dev, true, lib, target, image);
    run := RunResult(log, outcome, readback);
    host.Serial(log);
    if exit.SystemExit? {
      // exit() raises SystemExit, which `except KeyboardInterrupt` lets through
      return;
    }
    RunModeRestart(host, w);
  }

  /** GPIO.setwarnings(False), GPIO.setmode, and both pins set up as outputs, HIGH. */
  method SetUpPins(host: Host, w: Wiring)
    requires host.Valid()
    modifies host
    ensures host.Valid() && host.events == old(host.events) + Prelude(w)
  {
    host.SetWarnings(false);
    host.SetMode(w.mode);
    host.Setup([w.bsl, w.rst], High);
  }

  /** bsl and rst LOW, then rst HIGH: the dongle restarts in download mode. */
  method EnterDownloadMode(host: Host, w: Wiring)
    requires host.Valid()
    modifies host
    ensures host.Valid() && host.events == old(host.events) + EnterFlash(w)
  {
    host.Output([(w.bsl, Low), (w.rst, Low)]);
    host.Sleep(300);
    host.Output([(w.rst, High)]);
    host.Sleep(300);
  }

  /** bsl HIGH and rst LOW, then rst HIGH: the dongle restarts in run mode. */
  method RunModeRestart(host: Host, w: Wiring)
    requires host.Valid()
    modifies host
    ensures host.Valid() && host.events == old(host.events) + RunMode(w)
  {
    host.Output([(w.bsl, High), (w.rst, Low)]);
    host.Sleep(300);
    host.Output([(w.rst, High)]);
    host.Sleep(300);
  }

  // ---------------------------------------------------------------------------
  // What boot does to the pins
  // ---------------------------------------------------------------------------

  /** Playing two event sequences one after the other. */
  lemma {:induction false} PlayAppend(levels: map<int, Level>, a: seq<Event>, b: seq<Event>)
    ensures Play(levels, a + b) == Play(Play(levels, a), b)
    decreases |a|
  {
    if a == [] {
      assert a + b == b;
    } else {
      PlayAppend(Apply(levels, a[0]), a[1..], b);
      assert (a + b)[1..] == a[1..] + b;
    }
  }

  /** Setting one pin, then possibly another. */
  lemma DriveTwo(levels: map<int, Level>, x: (int, Level), y: (int, Level))
    ensures Drive(levels, [x]) == levels[x.0 := x.1]
    ensures Drive(levels, [x, y]) == levels[x.0 := x.1][y.0 := y.1]
  {
    assert [x][1..] == [] && [x, y][1..] == [y] && [y][1..] == [];
    assert Drive(levels, [x, y]) == Drive(levels[x.0 := x.1], [y]);
  }

  /** Two GPIO writes, each followed by a sleep: the pins end as the two writes leave them. */
  lemma PlayPulse(levels: map<int, Level>, first: seq<(int, Level)>, second: seq<(int, Level)>)
    ensures Play(levels, [Output(first), Sleep(300), Output(second), Sleep(300)]) == Drive(Drive(levels, first), second)
  {
    var e := [Output(first), Sleep(300), Output(second), Sleep(300)];
    var after := Drive(levels, first);
    assert e[1..] == [Sleep(300), Output(second), Sleep(300)];
    assert e[1..][1..] == [Output(second), Sleep(300)];
    assert e[1..][1..][1..] == [Sleep(300)];
    assert e[1..][1..][1..][1..] == [];
    calc {
      Play(levels, e);
      Play(after, e[1..]);
      Play(after, e[1..][1..]);
      Play(Drive(after, second), e[1..][1..][1..]);
      Play(Drive(after, second), []);
    }
  }

  /** The run-mode restart leaves both pins HIGH, whatever they were. */
  lemma RunModeLevels(levels: map<int, Level>, w: Wiring)
    ensures var after := Play(levels, RunMode(w));
      w.bsl in after && w.rst in after && after[w.bsl] == High && after[w.rst] == High
  {
    PlayPulse(levels, [(w.bsl, High), (w.rst, Low)], [(w.rst, High)]);
    DriveTwo(levels, (w.bsl, High), (w.rst, Low));
    DriveTwo(Drive(levels, [(w.bsl, High), (w.rst, Low)]), (w.rst, High), (w.rst, High));
  }

  /** The download-mode restart leaves bsl LOW and rst HIGH, when they are two pins. */
  lemma EnterFlashLevels(levels: map<int, Level>, w: Wiring)
    requires w.bsl != w.rst
    ensures var after := Play(levels, EnterFlash(w));
      w.bsl in after && w.rst in after && after[w.bsl] == Low && after[w.rst] == High
  {
    PlayPulse(levels, [(w.bsl, Low), (w.rst, Low)], [(w.rst, High)]);
    DriveTwo(levels, (w.bsl, Low), (w.rst, Low));
    DriveTwo(Drive(levels, [(w.bsl, Low), (w.rst, Low)]), (w.rst, High), (w.rst, High));
  }

  /** On the USB adapter boot touches no pin and does not flash. */
  lemma UsbDoesNothing(w: Wiring, dev: string, firmware: Option<string>, run: RunResult)
    requires Contains(dev, "ttyUSB0")
    ensures BootEvents(w, dev, firmware, run) == []
  {
  }

  /**
   * Otherwise boot starts by setting up both pins HIGH; flashing happens only
   * with a firmware path, right after the download-mode restart, which leaves
   * bsl LOW and rst HIGH.
   */
  lemma FlashAfterDownloadMode(levels: map<int, Level>, w: Wiring, dev: string, firmware: Option<string>, run: RunResult, i: nat)
    requires !Contains(dev, "ttyUSB0")
    requires i < |BootEvents(w, dev, firmware, run)| && BootEvents(w, dev, firmware, run)[i].Serial?
    ensures var es := BootEvents(w, dev, firmware, run);
      && Truthy(firmware) && i == 7 && es[..3] == Prelude(w) && es[3..7] == EnterFlash(w)
      && es[i] == Serial(run.log)
      && (w.bsl != w.rst ==> var at := Play(levels, es[..7]);
            w.bsl in at && w.rst in at && at[w.bsl] == Low && at[w.rst] == High)
  {
    var es := BootEvents(w, dev, firmware, run);
    assert Truthy(firmware);
    assert es[..7] == Prelude(w) + EnterFlash(w);
    if w.bsl != w.rst {
      PlayAppend(levels, Prelude(w), EnterFlash(w));
      EnterFlashLevels(Play(levels, Prelude(w)), w);
    }
  }

  /**
   * Unless a flashing run failed, boot off the USB adapter ends with the
   * run-mode restart and leaves both pins HIGH.
   */
  lemma BootEndsInRunMode(levels: map<int, Level>, w: Wiring, dev: string, firmware: Option<string>, run: RunResult)
    requires !Contains(dev, "ttyUSB0") && !(Truthy(firmware) && run.outcome.Err?)
    ensures var es := BootEvents(w, dev, firmware, run);
      && |es| >= 7 && es[..3] == Prelude(w) && es[|es| - 4..] == RunMode(w)
      && var after := Play(levels, es);
         w.bsl in after && w.rst in after && after[w.bsl] == High && after[w.rst] == High
  {
    var es := BootEvents(w, dev, firmware, run);
    var before := es[..|es| - 4];
    assert es == before + RunMode(w);
    PlayAppend(levels, before, RunMode(w));
    RunModeLevels(Play(levels, before), w);
  }

  /**
   * A failed flashing run ends boot right after the run: no run-mode restart,
   * so the dongle is left with bsl LOW, in download mode.
   */
  lemma FailedFlashSkipsRunMode(levels: map<int, Level>, w: Wiring, dev: string, firmware: Option<string>, run: RunResult)
    requires !Contains(dev, "ttyUSB0") && Truthy(firmware) && run.outcome.Err? && w.bsl != w.rst
    ensures var es := BootEvents(w, dev, firmware, run);
      && |es| == 8 && es[7] == Serial(run.log)
      && var after := Play(levels, es);
         w.bsl in after && w.rst in after && after[w.bsl] == Low && after[w.rst] == High
  {
    var es := BootEvents(w, dev, firmware, run);
    assert es == Prelude(w) + EnterFlash(w) + [Serial(run.log)];
    PlayAppend(levels, Prelude(w), EnterFlash(w));
    EnterFlashLevels(Play(levels, Prelude(w)), w);
    PlayAppend(levels, Prelude(w) + EnterFlash(w), [Serial(run.log)]);
    PlayAppend(levels, Prelude(w), EnterFlash(w));
  }
}
