/**
 * get_dev (dongle/utils.py): the serial device the dongle is reached on. A
 * USB adapter at /dev/ttyUSB0 is preferred; on a board that is known to have
 * the dongle on its own UART, and with no USB adapter present, that UART is used.
 */
module Board {
  import opened Wrappers

  /** The board type the GPIO library reports: `RPI_INFO["TYPE"]`, or "unknow" without RPI_INFO or without TYPE in it. */
  function BoardType(rpiInfo: Option<map<string, string>>): string
  {
    match rpiInfo
    case None => "unknow"
    case Some(info) => if "TYPE" in info then info["TYPE"] else "unknow"
  }

  const UsbDevice: string := "/dev/ttyUSB0"

  /** Boards with the dongle on an on-board UART, and that UART's device name. */
  const OnBoardUart: map<string, string> := map["Pi 3 Model B" := "ttyS0", "Jetson Nano" := "ttyTHS1"]

  /**
   * The device path: /dev/ttyUSB0 unless the board is a Pi 3 Model B or a
   * Jetson Nano and /dev/ttyUSB0 does not exist, in which case the board's UART.
   */
  function GetDev(boardType: string, usbExists: bool): (dev: string)
    ensures usbExists || (boardType != "Pi 3 Model B" && boardType != "Jetson Nano") ==> dev == UsbDevice
    ensures !usbExists && boardType == "Pi 3 Model B" ==> dev == "/dev/ttyS0"
    ensures !usbExists && boardType == "Jetson Nano" ==> dev == "/dev/ttyTHS1"
  {
    if boardType in OnBoardUart && !usbExists then "/dev/" + OnBoardUart[boardType] else UsbDevice
  }

  /** Python's `sub in s` on strings: sub occurs in s. */
  function Contains(s: string, sub: string): bool
    decreases |s|
  {
    |sub| <= |s| && (s[..|sub|] == sub || Contains(s[1..], sub))
  }

  /** sub occurs in s at position i. */
  ghost predicate OccursAt(s: string, sub: string, i: int) {
    0 <= i && i + |sub| <= |s| && s[i..i + |sub|] == sub
  }

  /** `Contains` finds sub exactly when sub occurs at some position of s. */
  lemma {:induction false} ContainsIff(s: string, sub: string)
    ensures Contains(s, sub) <==> exists i :: OccursAt(s, sub, i)
    decreases |s|
  {
    if |sub| <= |s| {
      if s[..|sub|] == sub {
        assert OccursAt(s, sub, 0);
      } else {
        ContainsIff(s[1..], sub);
        if Contains(s[1..], sub) {
          var i :| OccursAt(s[1..], sub, i);
          assert OccursAt(s, sub, i + 1);
        }
        if exists i :: OccursAt(s, sub, i) {
          var i :| OccursAt(s, sub, i);
          assert i != 0;
          assert OccursAt(s[1..], sub, i - 1);
        }
      }
    }
  }

  /** A string lacking one of sub's characters does not contain sub. */
  lemma LacksChar(s: string, sub: string, k: nat)
    requires k < |sub| && sub[k] !in s
    ensures !Contains(s, sub)
  {
    ContainsIff(s, sub);
    forall i
      ensures !OccursAt(s, sub, i)
    {
      if 0 <= i && i + |sub| <= |s| {
        assert s[i..i + |sub|][k] == s[i + k];
      }
    }
  }

  /** The device path names the USB adapter exactly when it is /dev/ttyUSB0: the UART paths do not contain "ttyUSB0". */
  lemma UsbPath(boardType: string, usbExists: bool)
    ensures Contains(GetDev(boardType, usbExists), "ttyUSB0") <==> GetDev(boardType, usbExists) == UsbDevice
  {
    var dev := GetDev(boardType, usbExists);
    if dev == UsbDevice {
      ContainsIff(dev, "ttyUSB0");
      assert OccursAt(dev, "ttyUSB0", 5);
    } else {
      // "ttyUSB0" has a 'U' in it, and neither UART path has one
      assert 'U' !in dev;
      LacksChar(dev, "ttyUSB0", 3);
    }
  }
}
