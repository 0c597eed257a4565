/**
 * The poll routine of the Apple SPI keyboard (drivers/input/apple_spi_kbd.c).
 *
 * Each poll reads one 256-byte frame from the keyboard controller. The frame
 * holds a message, and the message holds a keyboard report: the boot-protocol
 * keyboard report of USB HID 1.11 (Appendix B.1) with a report-ID byte in
 * front and an `fn` byte behind. An accepted report is compared with the
 * previous one: every changed modifier bit, and every slot whose code left or
 * entered the report, becomes a key event `(keycode, released)` for the
 * input layer. The bus transfer itself is not modelled: the result
 * of claiming the bus and the 256 bytes received are inputs of `Check`.
 */
module AppleSpiKbd {

  import opened FixedWidth

  // ---------------------------------------------------------------------
  // Constants of the protocol
  // ---------------------------------------------------------------------

  /** Modifier bits of the report's `modifiers` byte. */
  const MOD_LEFTCTRL: u8 := 0x01
  const MOD_LEFTSHIFT: u8 := 0x02
  const MOD_RIGHTCTRL: u8 := 0x10
  const MOD_RIGHTSHIFT: u8 := 0x20

  /** Key codes of the modifier keys (section 10 of HID Usage Tables 1.12). */
  const KEY_LEFTCTRL: u8 := 0xE0
  const KEY_LEFTSHIFT: u8 := 0xE1
  const KEY_RIGHTCTRL: u8 := 0xE4
  const KEY_RIGHTSHIFT: u8 := 0xE5

  /** Report ID of keyboard input reports. */
  const KBD_REPORTID: u8 := 0x01
  /** The keyboard's device number, in the packet and in the message. */
  const KBD_DEVICE: u8 := 0x01
  /** Packet flags of a read. */
  const PACKET_READ: u8 := 0x20
  /** Message type of a report. */
  const MSG_REPORT: u8 := 0x10

  /** Sizes of the frame, the packet's data area, the message header and the report. */
  const PACKET_SIZE: nat := 256
  const PACKET_DATA_SIZE: nat := 246
  const MSG_HEADER_SIZE: nat := 8
  const REPORT_SIZE: nat := 10

  // ---------------------------------------------------------------------
  // Layout of a frame
  // ---------------------------------------------------------------------

  /** The six key-code slots of a report. */
  type KeyCodes = s: seq<u8> | |s| == 6 witness [0, 0, 0, 0, 0, 0]

  /** `struct apple_spi_kbd_report`: ten bytes. */
  datatype Report = Report(reportId: u8, modifiers: u8, reserved: u8, keycode: KeyCodes, fn: u8)

  /** The report the driver's zero-filled private data starts with. */
  const ZeroReport := Report(0, 0, 0, [0, 0, 0, 0, 0, 0], 0)

  /** `struct apple_spi_kbd_packet`: the frame as received, 256 bytes. */
  datatype Packet = Packet(flags: u8, device: u8, offset: u16, remaining: u16, len: u16,
                           data: seq<u8>, crc: u16)

  /** `struct apple_spi_kbd_msg`: the header at the start of a packet's data. */
  datatype Msg = Msg(msgType: u8, device: u8, unknown: u8, msgId: u8, rspLen: u16, cmdLen: u16)

  /** The two bytes of a `u16` in memory, low byte first (arm64 is little-endian). */
  function Le16Bytes(v: u16): (bs: seq<u8>)
    ensures |bs| == 2
  {
    [(v % 0x100) as u8, (v / 0x100) as u8]
  }

  /** A `u16` read from memory, low byte first. */
  function Le16(lo: u8, hi: u8): (v: u16)
  {
    (lo as int + 0x100 * hi as int) as u16
  }

  /** Reading two bytes as a `u16` and writing it back gives the same two bytes. */
  lemma Le16Bytes16(lo: u8, hi: u8)
    ensures Le16Bytes(Le16(lo, hi)) == [lo, hi]
  {
  }

  /** Writing a `u16` as two bytes and reading them back gives the same value. */
  lemma Le16RoundTrip(v: u16)
    ensures Le16(Le16Bytes(v)[0], Le16Bytes(v)[1]) == v
  {
  }

  /** The bytes of a report, in the order of its fields. */
  function ReportBytes(r: Report): (bs: seq<u8>)
    ensures |bs| == REPORT_SIZE
  {
    [r.reportId, r.modifiers, r.reserved] + r.keycode + [r.fn]
  }

  /** A report read from ten bytes of memory. */
  function ParseReport(bs: seq<u8>): (r: Report)
    requires |bs| == REPORT_SIZE
    ensures ReportBytes(r) == bs
  {
    Report(bs[0], bs[1], bs[2], bs[3..9], bs[9])
  }

  lemma ReportRoundTrip(r: Report)
    ensures ParseReport(ReportBytes(r)) == r
  {
    var bs := ReportBytes(r);
    assert bs[3..9] == r.keycode;
  }

  /** The bytes of a message header. */
  function MsgBytes(m: Msg): (bs: seq<u8>)
    ensures |bs| == MSG_HEADER_SIZE
  {
    [m.msgType, m.device, m.unknown, m.msgId] + Le16Bytes(m.rspLen) + Le16Bytes(m.cmdLen)
  }

  /**
   * A message header read from the start of a packet's data. Reading it
   * loses nothing: writing it back gives the same eight bytes.
   */
  function ParseMsg(data: seq<u8>): (m: Msg)
    requires |data| >= MSG_HEADER_SIZE
    ensures MsgBytes(m) == data[..MSG_HEADER_SIZE]
  {
    Le16Bytes16(data[4], data[5]);
    Le16Bytes16(data[6], data[7]);
    Msg(data[0], data[1], data[2], data[3], Le16(data[4], data[5]), Le16(data[6], data[7]))
  }

  lemma MsgRoundTrip(m: Msg)
    ensures ParseMsg(MsgBytes(m)) == m
  {
    Le16RoundTrip(m.rspLen);
    Le16RoundTrip(m.cmdLen);
  }

  /** A packet whose data area has its fixed size. */
  predicate ValidPacket(p: Packet)
  {
    |p.data| == PACKET_DATA_SIZE
  }

  /** The bytes of a packet, in the order of its fields. */
  function PacketBytes(p: Packet): (bs: seq<u8>)
    requires ValidPacket(p)
    ensures |bs| == PACKET_SIZE
  {
    [p.flags, p.device] + Le16Bytes(p.offset) + Le16Bytes(p.remaining) + Le16Bytes(p.len) +
    p.data + Le16Bytes(p.crc)
  }

  /**
   * A frame read as a packet. Reading it loses nothing: writing the packet
   * back gives the frame.
   */
  function ParsePacket(frame: seq<u8>): (p: Packet)
    requires |frame| == PACKET_SIZE
    ensures ValidPacket(p)
    ensures PacketBytes(p) == frame
  {
    assert frame == frame[..8] + frame[8..254] + frame[254..];
    Packet(frame[0], frame[1], Le16(frame[2], frame[3]), Le16(frame[4], frame[5]),
           Le16(frame[6], frame[7]), frame[8..254], Le16(frame[254], frame[255]))
  }

  lemma PacketRoundTrip(p: Packet)
    requires ValidPacket(p)
    ensures ParsePacket(PacketBytes(p)) == p
  {
    var bs := PacketBytes(p);
    Le16RoundTrip(p.offset);
    Le16RoundTrip(p.remaining);
    Le16RoundTrip(p.len);
    Le16RoundTrip(p.crc);
    assert bs[8..254] == p.data;
  }

  /** The report a frame carries: right behind the message header. */
  function FrameReport(frame: seq<u8>): (r: Report)
    requires |frame| == PACKET_SIZE
  {
    ParseReport(ParsePacket(frame).data[MSG_HEADER_SIZE..MSG_HEADER_SIZE + REPORT_SIZE])
  }

  /** The report sits at bytes 16 to 25 of the frame. */
  lemma FrameReportBytes(frame: seq<u8>)
    requires |frame| == PACKET_SIZE
    ensures ReportBytes(FrameReport(frame)) == frame[16..26]
  {
    var data := ParsePacket(frame).data;
    assert data[MSG_HEADER_SIZE..MSG_HEADER_SIZE + REPORT_SIZE] == frame[16..26];
  }

  /**
   * The six conditions under which `apple_spi_kbd_check` takes a frame as
   * a keyboard report. The checksum is never looked at.
   */
  predicate AcceptedParts(packet: Packet, msg: Msg, report: Report)
  {
    packet.flags == PACKET_READ && packet.device == KBD_DEVICE &&
    msg.msgType == MSG_REPORT && msg.device == KBD_DEVICE &&
    msg.cmdLen as nat == REPORT_SIZE &&
    report.reportId == KBD_REPORTID
  }

  /** The same conditions, on the frame as received. */
  predicate Accepted(frame: seq<u8>)
    requires |frame| == PACKET_SIZE
  {
    var packet := ParsePacket(frame);
    AcceptedParts(packet, ParseMsg(packet.data), FrameReport(frame))
  }

  /**
   * Acceptance depends on seven bytes of the frame and no others: the
   * packet's flags and device, the message's type and device, the two
   * bytes of its command length, and the report ID.
   */
  lemma AcceptedBytes(frame: seq<u8>)
    requires |frame| == PACKET_SIZE
    ensures Accepted(frame) <==>
              frame[0] == 0x20 && frame[1] == 0x01 && frame[8] == 0x10 && frame[9] == 0x01 &&
              frame[14] == 10 && frame[15] == 0 && frame[16] == 0x01
  {
    var packet := ParsePacket(frame);
    assert packet.data[..MSG_HEADER_SIZE] == frame[8..16];
    var cmdLen := ParseMsg(packet.data).cmdLen;
    assert Le16Bytes(cmdLen) == [frame[14], frame[15]];
  }

  // ---------------------------------------------------------------------
  // Key events
  // ---------------------------------------------------------------------

  /** An `input_add_keycode(input, code, released)` call. */
  datatype KeyEvent = KeyEvent(code: u8, released: bool)

  /** Whether modifier bit `mask` is set in `m`: `m & mask` is nonzero. */
  predicate HasBit(m: u8, mask: u8)
    requires mask == 0x01 || mask == 0x02 || mask == 0x10 || mask == 0x20
  {
    (m / mask) % 2 == 1
  }

  /**
   * One test of `apple_spi_kbd_service_modifiers`: an event for `key` when
   * bit `mask` differs between the old and the new modifiers, a release
   * when it was set before.
   */
  function ModifierEvent(oldMods: u8, newMods: u8, mask: u8, key: u8): (evs: seq<KeyEvent>)
    requires mask == 0x01 || mask == 0x02 || mask == 0x10 || mask == 0x20
    ensures evs == [] || evs == [KeyEvent(key, HasBit(oldMods, mask))]
    ensures evs != [] <==> HasBit(oldMods, mask) != HasBit(newMods, mask)
  {
    if HasBit(oldMods, mask) != HasBit(newMods, mask) then [KeyEvent(key, HasBit(oldMods, mask))]
    else []
  }

  /** The events for the modifier byte: left-ctrl, right-ctrl, left-shift, right-shift. */
  function ModifierEvents(oldMods: u8, newMods: u8): (evs: seq<KeyEvent>)
    ensures |evs| <= 4
  {
    ModifierEvent(oldMods, newMods, MOD_LEFTCTRL, KEY_LEFTCTRL) +
    ModifierEvent(oldMods, newMods, MOD_RIGHTCTRL, KEY_RIGHTCTRL) +
    ModifierEvent(oldMods, newMods, MOD_LEFTSHIFT, KEY_LEFTSHIFT) +
    ModifierEvent(oldMods, newMods, MOD_RIGHTSHIFT, KEY_RIGHTSHIFT)
  }

  /**
   * `memscan(hay, c, |hay|)`: the index of the first byte of `hay` equal
   * to `c`, or `|hay|` when there is none.
   */
  function Scan(hay: seq<u8>, c: u8): (at: nat)
    ensures at <= |hay|
    ensures at < |hay| ==> hay[at] == c
    ensures forall j :: 0 <= j < at ==> hay[j] != c
  {
    if |hay| == 0 then 0
    else if hay[0] == c then 0
    else 1 + Scan(hay[1..], c)
  }

  /** What `apple_spi_kbd_service_key(input, i, 1)` reports: slot `i`'s old key, if the new report lacks it. */
  function ReleaseEvent(oldKeys: KeyCodes, newKeys: KeyCodes, i: nat): (evs: seq<KeyEvent>)
    requires i < 6
    ensures evs == [] || evs == [KeyEvent(oldKeys[i], true)]
    ensures evs != [] <==> oldKeys[i] !in newKeys
  {
    if oldKeys[i] !in newKeys then [KeyEvent(oldKeys[i], true)] else []
  }

  /** What `apple_spi_kbd_service_key(input, i, 0)` reports: slot `i`'s new key, if the old report lacks it. */
  function PressEvent(oldKeys: KeyCodes, newKeys: KeyCodes, i: nat): (evs: seq<KeyEvent>)
    requires i < 6
    ensures evs == [] || evs == [KeyEvent(newKeys[i], false)]
    ensures evs != [] <==> newKeys[i] !in oldKeys
  {
    if newKeys[i] !in oldKeys then [KeyEvent(newKeys[i], false)] else []
  }

  /** The events of slots `0 .. k - 1`, in slot order, release before press. */
  function SlotEvents(oldKeys: KeyCodes, newKeys: KeyCodes, k: nat): (evs: seq<KeyEvent>)
    requires k <= 6
    ensures |evs| <= 2 * k
  {
    if k == 0 then []
    else SlotEvents(oldKeys, newKeys, k - 1) +
         ReleaseEvent(oldKeys, newKeys, k - 1) + PressEvent(oldKeys, newKeys, k - 1)
  }

  /** The events of one more slot, appended after those of the slots before it. */
  lemma AppendSlot(prefix: seq<KeyEvent>, sent: seq<KeyEvent>, oldKeys: KeyCodes, newKeys: KeyCodes, i: nat)
    requires i < 6 && sent == prefix + SlotEvents(oldKeys, newKeys, i)
    ensures sent + ReleaseEvent(oldKeys, newKeys, i) + PressEvent(oldKeys, newKeys, i) ==
              prefix + SlotEvents(oldKeys, newKeys, i + 1)
  {
  }

  /** Modifier events and then slot events, after those already sent. */
  lemma DiffAfter(sent: seq<KeyEvent>, oldReport: Report, newReport: Report)
    ensures sent + ModifierEvents(oldReport.modifiers, newReport.modifiers) +
              SlotEvents(oldReport.keycode, newReport.keycode, 6) ==
            sent + DiffEvents(oldReport, newReport)
  {
  }

  /** Everything one accepted poll reports: modifier events, then slot events. */
  function DiffEvents(oldReport: Report, newReport: Report): (evs: seq<KeyEvent>)
    ensures |evs| <= 16
  {
    ModifierEvents(oldReport.modifiers, newReport.modifiers) +
    SlotEvents(oldReport.keycode, newReport.keycode, 6)
  }

  // ---------------------------------------------------------------------
  // The driver
  // ---------------------------------------------------------------------

  /**
   * `struct apple_spi_kbd_priv` (the `old` and `new` reports) together
   * with the events the driver has handed to the input layer so far.
   */
  class Keyboard {
    var oldReport: Report
    var newReport: Report
    var events: seq<KeyEvent>

    /** The driver's private data starts zero-filled. */
    constructor ()
      ensures oldReport == ZeroReport && newReport == ZeroReport && events == []
    {
      oldReport := ZeroReport;
      newReport := ZeroReport;
      events := [];
    }

    /**
     * One test of `apple_spi_kbd_service_modifiers`: report `key` when bit
     * `mask` changed, released when it was set in the old report.
     */
    method ServiceModifier(mask: u8, key: u8)
      requires mask == 0x01 || mask == 0x02 || mask == 0x10 || mask == 0x20
      modifies this
      ensures oldReport == old(oldReport) && newReport == old(newReport)
      ensures events == old(events) + ModifierEvent(oldReport.modifiers, newReport.modifiers, mask, key)
    {
      var n := newReport.modifiers;
      var o := oldReport.modifiers;
      if HasBit(n, mask) != HasBit(o, mask) {
        events := events + [KeyEvent(key, HasBit(o, mask))];
      }
    }

    /** `apple_spi_kbd_service_modifiers`. */
    method ServiceModifiers()
      modifies this
      ensures oldReport == old(oldReport) && newReport == old(newReport)
      ensures events == old(events) + ModifierEvents(oldReport.modifiers, newReport.modifiers)
    {
      ServiceModifier(MOD_LEFTCTRL, KEY_LEFTCTRL);
      ServiceModifier(MOD_RIGHTCTRL, KEY_RIGHTCTRL);
      ServiceModifier(MOD_LEFTSHIFT, KEY_LEFTSHIFT);
      ServiceModifier(MOD_RIGHTSHIFT, KEY_RIGHTSHIFT);
    }

    /**
     * `apple_spi_kbd_service_key`: with `released`, report slot `i`'s old
     * key if the new report does not hold it; otherwise report slot `i`'s
     * new key if the old report does not hold it.
     */
    method ServiceKey(i: nat, released: bool)
      requires i < 6
      modifies this
      ensures oldReport == old(oldReport) && newReport == old(newReport)
      ensures events == old(events) +
                (if released then ReleaseEvent(oldReport.keycode, newReport.keycode, i)
                 else PressEvent(oldReport.keycode, newReport.keycode, i))
    {
      var hay, keys;
      if released {
        hay, keys := newReport.keycode, oldReport.keycode;
      } else {
        hay, keys := oldReport.keycode, newReport.keycode;
      }
      ScanFinds(hay, keys[i]);
      if Scan(hay, keys[i]) == |hay| {
        events := events + [KeyEvent(keys[i], released)];
      }
    }

    /**
     * The work `apple_spi_kbd_check` does for an accepted frame: copy the
     * report into `new`, report the modifier changes and then each slot's
     * release and press, and copy `new` into `old`.
     */
    method Accept(report: Report)
      modifies this
      ensures oldReport == report && newReport == report
      ensures events == old(events) + DiffEvents(old(oldReport), report)
    {
      newReport := report;
      ServiceModifiers();
      ghost var oldKeys := oldReport.keycode;
      ghost var modEvents := events;
      var i := 0;
      while i < 6
        invariant 0 <= i <= 6
        invariant oldReport == old(oldReport) && newReport == report
        invariant events == modEvents + SlotEvents(oldKeys, report.keycode, i)
      {
        ghost var before := events;
        ServiceKey(i, true);
        ServiceKey(i, false);
        AppendSlot(modEvents, before, oldKeys, report.keycode, i);
        i := i + 1;
      }
      DiffAfter(old(events), old(oldReport), report);
      oldReport := newReport;
    }

    /**
     * `apple_spi_kbd_check`: `claim` is what claiming the bus returned and
     * `frame` the 256 bytes read. Returns the negative claim error, 1 for
     * an accepted report, 0 for anything else.
     */
    method Check(claim: int, frame: seq<u8>) returns (ret: int)
      requires |frame| == PACKET_SIZE
      modifies this
      ensures claim < 0 ==>
                ret == claim &&
                oldReport == old(oldReport) && newReport == old(newReport) && events == old(events)
      ensures claim >= 0 && !Accepted(frame) ==>
                ret == 0 &&
                oldReport == old(oldReport) && newReport == old(newReport) && events == old(events)
      ensures claim >= 0 && Accepted(frame) ==>
                ret == 1 &&
                oldReport == FrameReport(frame) && newReport == FrameReport(frame) &&
                events == old(events) + DiffEvents(old(oldReport), FrameReport(frame))
    {
      if claim < 0 {
        return claim;
      }
      var packet := ParsePacket(frame);
      var msg := ParseMsg(packet.data);
      var report := ParseReport(packet.data[MSG_HEADER_SIZE..MSG_HEADER_SIZE + REPORT_SIZE]);
      if AcceptedParts(packet, msg, report) {
        Accept(report);
        return 1;
      }
      return 0;
    }
  }

  // ---------------------------------------------------------------------
  // What the events mean
  // ---------------------------------------------------------------------

  /** A key code occurs in a report's slots exactly when `memscan` finds it. */
  lemma ScanFinds(hay: seq<u8>, c: u8)
    ensures Scan(hay, c) < |hay| <==> c in hay
  {
  }

  /**
   * Slot events name a released key exactly when it was held before and is
   * not held now, and a pressed key exactly when it is held now and was not
   * held before.
   */
  lemma {:induction false} SlotEventsIff(oldKeys: KeyCodes, newKeys: KeyCodes, k: nat, code: u8)
    requires k <= 6
    ensures KeyEvent(code, true) in SlotEvents(oldKeys, newKeys, k) <==>
              code in oldKeys[..k] && code !in newKeys
    ensures KeyEvent(code, false) in SlotEvents(oldKeys, newKeys, k) <==>
              code in newKeys[..k] && code !in oldKeys
  {
    if k > 0 {
      SlotEventsIff(oldKeys, newKeys, k - 1, code);
      var rel := ReleaseEvent(oldKeys, newKeys, k - 1);
      var prs := PressEvent(oldKeys, newKeys, k - 1);
      assert KeyEvent(code, true) in rel <==> code == oldKeys[k - 1] && code !in newKeys;
      assert KeyEvent(code, true) !in prs;
      assert KeyEvent(code, false) in prs <==> code == newKeys[k - 1] && code !in oldKeys;
      assert KeyEvent(code, false) !in rel;
      assert oldKeys[..k] == oldKeys[..k - 1] + [oldKeys[k - 1]];
      assert newKeys[..k] == newKeys[..k - 1] + [newKeys[k - 1]];
    }
  }

  /**
   * A poll releases every key that left the report and presses every key
   * that entered it, and reports no other key change.
   */
  lemma KeyChanges(oldReport: Report, newReport: Report, code: u8)
    ensures KeyEvent(code, true) in SlotEvents(oldReport.keycode, newReport.keycode, 6) <==>
              code in oldReport.keycode && code !in newReport.keycode
    ensures KeyEvent(code, false) in SlotEvents(oldReport.keycode, newReport.keycode, 6) <==>
              code in newReport.keycode && code !in oldReport.keycode
  {
    SlotEventsIff(oldReport.keycode, newReport.keycode, 6, code);
    assert oldReport.keycode[..6] == oldReport.keycode;
    assert newReport.keycode[..6] == newReport.keycode;
  }

  /** The four modifier keys, in the order they are tested, with their bits. */
  function ModifierMask(j: nat): (mask: u8)
    requires j < 4
    ensures mask == 0x01 || mask == 0x02 || mask == 0x10 || mask == 0x20
  {
    [MOD_LEFTCTRL, MOD_RIGHTCTRL, MOD_LEFTSHIFT, MOD_RIGHTSHIFT][j]
  }

  function ModifierKey(j: nat): (key: u8)
    requires j < 4
    ensures 0xE0 <= key
  {
    [KEY_LEFTCTRL, KEY_RIGHTCTRL, KEY_LEFTSHIFT, KEY_RIGHTSHIFT][j]
  }

  /**
   * Modifier events: one for each of the four modifier bits that differs,
   * in the order left-ctrl, right-ctrl, left-shift, right-shift, released
   * when the bit was set before.
   */
  lemma ModifierEventsIff(oldMods: u8, newMods: u8, j: nat, released: bool)
    requires j < 4
    ensures KeyEvent(ModifierKey(j), released) in ModifierEvents(oldMods, newMods) <==>
              HasBit(oldMods, ModifierMask(j)) != HasBit(newMods, ModifierMask(j)) &&
              released == HasBit(oldMods, ModifierMask(j))
  {
  }

  /** Modifier bits other than the four never produce an event. */
  lemma OtherModifierBitsSilent(oldMods: u8, newMods: u8)
    requires forall j :: 0 <= j < 4 ==> HasBit(oldMods, ModifierMask(j)) == HasBit(newMods, ModifierMask(j))
    ensures ModifierEvents(oldMods, newMods) == []
  {
    assert HasBit(oldMods, ModifierMask(0)) == HasBit(newMods, ModifierMask(0));
    assert HasBit(oldMods, ModifierMask(1)) == HasBit(newMods, ModifierMask(1));
    assert HasBit(oldMods, ModifierMask(2)) == HasBit(newMods, ModifierMask(2));
    assert HasBit(oldMods, ModifierMask(3)) == HasBit(newMods, ModifierMask(3));
  }

  /** Every modifier event names one of the four modifier keys. */
  lemma ModifierEventsKeys(oldMods: u8, newMods: u8)
    ensures forall e :: e in ModifierEvents(oldMods, newMods) ==>
              e.code in {KEY_LEFTCTRL, KEY_RIGHTCTRL, KEY_LEFTSHIFT, KEY_RIGHTSHIFT}
  {
  }

  /** A report the same as the last one, in modifiers and key codes, produces no event. */
  lemma {:induction false} NoChangeNoEvents(oldReport: Report, newReport: Report)
    requires oldReport.modifiers == newReport.modifiers && oldReport.keycode == newReport.keycode
    ensures DiffEvents(oldReport, newReport) == []
  {
    var keys := oldReport.keycode;
    forall k | 0 <= k <= 6
      ensures SlotEvents(keys, keys, k) == []
    {
      SlotsUnchanged(keys, k);
    }
  }

  lemma {:induction false} SlotsUnchanged(keys: KeyCodes, k: nat)
    requires k <= 6
    ensures SlotEvents(keys, keys, k) == []
  {
    if k > 0 {
      SlotsUnchanged(keys, k - 1);
      assert keys[k - 1] in keys;
      assert ReleaseEvent(keys, keys, k - 1) == [] && PressEvent(keys, keys, k - 1) == [];
    }
  }

  // ---------------------------------------------------------------------
  // The listener's view
  // ---------------------------------------------------------------------

  /** The keys a listener holds down after seeing `evs`, starting with `held`. */
  function Apply(evs: seq<KeyEvent>, held: set<u8>): set<u8>
  {
    if |evs| == 0 then held
    else Apply(evs[1..], if evs[0].released then held - {evs[0].code} else held + {evs[0].code})
  }

  lemma {:induction false} ApplyAppend(a: seq<KeyEvent>, b: seq<KeyEvent>, held: set<u8>)
    ensures Apply(a + b, held) == Apply(b, Apply(a, held))
  {
    if |a| == 0 {
      assert a + b == b;
    } else {
      var next := if a[0].released then held - {a[0].code} else held + {a[0].code};
      ApplyAppend(a[1..], b, next);
      assert (a + b)[1..] == a[1..] + b;
    }
  }

  /** The set of key codes in a report's slots. */
  function Held(keys: seq<u8>): (s: set<u8>)
    ensures forall c :: c in s <==> c in keys
  {
    set c | c in keys
  }

  /**
   * After the events of slots `0 .. k - 1`, a listener that held the old
   * keys holds them less the old keys of those slots that left, plus the
   * new keys of those slots that entered.
   */
  lemma {:induction false} ApplySlots(oldKeys: KeyCodes, newKeys: KeyCodes, k: nat)
    requires k <= 6
    ensures Apply(SlotEvents(oldKeys, newKeys, k), Held(oldKeys)) ==
              (Held(oldKeys) - (set c | c in oldKeys[..k] && c !in newKeys)) +
              (set c | c in newKeys[..k] && c !in oldKeys)
  {
    if k > 0 {
      ApplySlots(oldKeys, newKeys, k - 1);
      var prefix := SlotEvents(oldKeys, newKeys, k - 1);
      var rel := ReleaseEvent(oldKeys, newKeys, k - 1);
      var prs := PressEvent(oldKeys, newKeys, k - 1);
      ApplyAppend(prefix + rel, prs, Held(oldKeys));
      ApplyAppend(prefix, rel, Held(oldKeys));
      assert oldKeys[..k] == oldKeys[..k - 1] + [oldKeys[k - 1]];
      assert newKeys[..k] == newKeys[..k - 1] + [newKeys[k - 1]];
    }
  }

  /**
   * A listener that tracks the events of a poll, and held the old report's
   * keys, holds exactly the new report's keys afterwards.
   */
  lemma SlotEventsTrackKeys(oldReport: Report, newReport: Report)
    ensures Apply(SlotEvents(oldReport.keycode, newReport.keycode, 6), Held(oldReport.keycode)) ==
              Held(newReport.keycode)
  {
    ApplySlots(oldReport.keycode, newReport.keycode, 6);
    assert oldReport.keycode[..6] == oldReport.keycode;
    assert newReport.keycode[..6] == newReport.keycode;
  }

  /** The modifier keys whose bits are set in `m`. */
  function HeldModifiers(m: u8): (s: set<u8>)
    ensures KEY_LEFTCTRL in s <==> HasBit(m, MOD_LEFTCTRL)
    ensures KEY_RIGHTCTRL in s <==> HasBit(m, MOD_RIGHTCTRL)
    ensures KEY_LEFTSHIFT in s <==> HasBit(m, MOD_LEFTSHIFT)
    ensures KEY_RIGHTSHIFT in s <==> HasBit(m, MOD_RIGHTSHIFT)
    ensures forall k :: k in s ==> k in {KEY_LEFTCTRL, KEY_RIGHTCTRL, KEY_LEFTSHIFT, KEY_RIGHTSHIFT}
  {
    (if HasBit(m, MOD_LEFTCTRL) then {KEY_LEFTCTRL} else {}) +
    (if HasBit(m, MOD_RIGHTCTRL) then {KEY_RIGHTCTRL} else {}) +
    (if HasBit(m, MOD_LEFTSHIFT) then {KEY_LEFTSHIFT} else {}) +
    (if HasBit(m, MOD_RIGHTSHIFT) then {KEY_RIGHTSHIFT} else {})
  }

  /**
   * A listener that tracks the modifier events of a poll, and held the old
   * modifiers, holds exactly the new ones afterwards.
   */
  lemma ModifierEventsTrackKeys(oldMods: u8, newMods: u8)
    ensures Apply(ModifierEvents(oldMods, newMods), HeldModifiers(oldMods)) == HeldModifiers(newMods)
  {
    var e0 := ModifierEvent(oldMods, newMods, MOD_LEFTCTRL, KEY_LEFTCTRL);
    var e1 := ModifierEvent(oldMods, newMods, MOD_RIGHTCTRL, KEY_RIGHTCTRL);
    var e2 := ModifierEvent(oldMods, newMods, MOD_LEFTSHIFT, KEY_LEFTSHIFT);
    var e3 := ModifierEvent(oldMods, newMods, MOD_RIGHTSHIFT, KEY_RIGHTSHIFT);
    var h0 := HeldModifiers(oldMods);
    var h1 := Apply(e0, h0);
    var h2 := Apply(e1, h1);
    var h3 := Apply(e2, h2);
    assert h1 == if HasBit(newMods, MOD_LEFTCTRL) then h0 + {KEY_LEFTCTRL} else h0 - {KEY_LEFTCTRL} by {
      ApplyModifier(oldMods, newMods, MOD_LEFTCTRL, KEY_LEFTCTRL, h0);
    }
    assert h2 == if HasBit(newMods, MOD_RIGHTCTRL) then h1 + {KEY_RIGHTCTRL} else h1 - {KEY_RIGHTCTRL} by {
      ApplyModifier(oldMods, newMods, MOD_RIGHTCTRL, KEY_RIGHTCTRL, h1);
    }
    assert h3 == if HasBit(newMods, MOD_LEFTSHIFT) then h2 + {KEY_LEFTSHIFT} else h2 - {KEY_LEFTSHIFT} by {
      ApplyModifier(oldMods, newMods, MOD_LEFTSHIFT, KEY_LEFTSHIFT, h2);
    }
    var h4 := Apply(e3, h3);
    assert h4 == if HasBit(newMods, MOD_RIGHTSHIFT) then h3 + {KEY_RIGHTSHIFT} else h3 - {KEY_RIGHTSHIFT} by {
      ApplyModifier(oldMods, newMods, MOD_RIGHTSHIFT, KEY_RIGHTSHIFT, h3);
    }
    assert Apply(ModifierEvents(oldMods, newMods), h0) == h4 by {
      ApplyAppend(e0 + e1 + e2, e3, h0);
      ApplyAppend(e0 + e1, e2, h0);
      ApplyAppend(e0, e1, h0);
    }
    forall k
      ensures k in h4 <==> k in HeldModifiers(newMods)
    {
    }
  }

  /** One modifier test, as a listener sees it: the key ends up held exactly when its new bit is set. */
  lemma ApplyModifier(oldMods: u8, newMods: u8, mask: u8, key: u8, held: set<u8>)
    requires mask == 0x01 || mask == 0x02 || mask == 0x10 || mask == 0x20
    requires key in held <==> HasBit(oldMods, mask)
    ensures Apply(ModifierEvent(oldMods, newMods, mask, key), held) ==
              if HasBit(newMods, mask) then held + {key} else held - {key}
  {
    var evs := ModifierEvent(oldMods, newMods, mask, key);
    if |evs| == 1 {
      assert evs[1..] == [];
    }
  }

  // ---------------------------------------------------------------------
  // Examples
  // ---------------------------------------------------------------------

  /** Keys {4, 5} becoming {4, 6}: key 5 is released, then key 6 is pressed. */
  lemma ReplaceKeyExample()
    ensures SlotEvents([4, 5, 0, 0, 0, 0], [4, 6, 0, 0, 0, 0], 6) ==
              [KeyEvent(5, true), KeyEvent(6, false)]
  {
    var o: KeyCodes := [4, 5, 0, 0, 0, 0];
    var n: KeyCodes := [4, 6, 0, 0, 0, 0];
    assert o[0] == n[0] && o[2] == n[2] && o[3] == n[3] && o[4] == n[4] && o[5] == n[5];
    assert o[1] !in n && n[1] !in o;
    assert SlotEvents(o, n, 1) == [];
    assert SlotEvents(o, n, 2) == [KeyEvent(5, true), KeyEvent(6, false)];
  }

  /** Pressing left shift alone produces one press of key 0xE1. */
  lemma LeftShiftExample()
    ensures ModifierEvents(0x00, 0x02) == [KeyEvent(0xE1, false)]
  {
  }

  /** A frame from another device is refused. */
  lemma OtherDeviceExample(frame: seq<u8>)
    requires |frame| == PACKET_SIZE && frame[1] != KBD_DEVICE
    ensures !Accepted(frame)
  {
    AcceptedBytes(frame);
  }
}
