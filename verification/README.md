# Apple M1 boot-loader pieces, modelled in Dafny

This project models three small, sequential parts of the Apple M1 support in
the U-Boot boot loader. Each part is proved correct against what the code
promises.

- **UTF-8 to code page 437** (`cp437.dfy`, module `Utf8Cp437`). The video
  console shows text through a font laid out as code page 437.
  - `convert_uc16_to_cp437` maps a 16-bit code point to a CP437 byte: directly
    below U+00A0, through two dense tables and two sparse maps above it.
  - `convert_utf8_to_cp437` is a byte-at-a-time UTF-8 decoder. Its whole state
    is one caller-owned 32-bit word, `*esc`, which holds the count of
    continuation bytes still expected and the code-point bits gathered so far.
  - The model proves the following against the standard CP437 glyph table:
    - the converter inverts that table, except for byte 0x7F;
    - the converter returns 0 exactly for U+0000, U+2302 and the code points
      from U+0100 up that no CP437 byte shows;
    - feeding the UTF-8 encoding of any code point (section 3 of RFC 3629)
      through the decoder yields zeros and then the glyph `Drawn` gives for
      it (8 for U+007F, the DEL case);
    - four-byte sequences keep only the low 16 bits of the code point, as the
      source's `uint16_t` accumulator does.
- **Apple SPI keyboard poll** (`spi_kbd.dfy`, module `AppleSpiKbd`). One poll
  does four things:
  - it reads a 256-byte frame and parses it (16-bit fields little-endian);
  - it accepts the frame only when six header fields match;
  - it compares the new keyboard report with the previous one and emits
    `(keycode, released)` events, modifiers first: one event for each
    modifier bit that changed, then one for each slot whose code left or
    entered the report. Repeated codes give repeated events, and code 0
    (an empty slot) is not special-cased;
  - it stores the new report as the old one.

  The keyboard is a class that holds both reports and the queue of emitted
  events. The model proves the following:
  - parsing the frame inverts serialising it;
  - acceptance reduces to seven frame bytes;
  - a release event is emitted exactly for the keys that left the report,
    and a press event exactly for the keys that entered it;
  - a listener that applies the events to the keys it holds ends up holding
    exactly the keys of the new report.
- **Memory map and boot addresses** (`board.dfy`, module `MachApple`).
  `build_mem_map` does the following:
  - it selects the SoC's static MMU region table;
  - it finds the table's terminator with a linear search;
  - it rewrites the RAM entry and the framebuffer entry in front of the
    terminator, with both regions widened to whole 4 KiB pages.

  `board_late_init` places the boot script, the PXE file, the device tree,
  the kernel and the ramdisk.

  The model proves the following:
  - where the search stops in each table;
  - that page alignment gives the smallest covering page-aligned span;
  - that only the two entries are written;
  - that a rebuild keeps the table's layout, so later rebuilds find the same
    terminator;
  - the placement guarantees of the boot addresses.

The conventions of the model are as follows:
- Device-tree queries, the DRAM bank, the stack pointer and the result of
  claiming the SPI bus are inputs.
- The results of `env_set_hex` are inputs too. The bytes received over SPI
  are an input sequence.
- Integer widths are those of the source: `u8`, `u16` and `u32` newtypes (module `FixedWidth`, `fixed_width.dfy`) shared by
  the decoder and the keyboard, and naturals below 2^64 for addresses.

Only the dense Latin-1 table (`code_points_00a0`) uses the placeholder 7.
The two sparse maps return 0 for a code point they do not list
(`ZeroExactlyForUnknown`).

## Model

| member | source | states |
|---|---|---|
| Utf8Cp437.ConvertUc16 | drivers/video/utf8_cp437.c:121-135 | every code point below U+00A0 converts to itself; all table indices lie in their tables |
| Utf8Cp437.CodePoints00A0 | drivers/video/utf8_cp437.c:8-21 | no entry of the Latin-1 table is 0 |
| Utf8Cp437.CodePoints2550 | drivers/video/utf8_cp437.c:23-28 | every entry of the double-line box table is a byte of CP437's box-drawing block 0xB0..0xDF; `LeftInverse` shows each is the byte whose glyph is the entry's code point |
| Utf8Cp437.Convert11Bit | drivers/video/utf8_cp437.c:30-49 | a nonzero result is 0x9F (ƒ) or a byte of CP437's Greek and mathematical block 0xE0..0xFF; `LeftInverse` shows it is the byte whose glyph is the code point |
| Utf8Cp437.Convert2xxx | drivers/video/utf8_cp437.c:51-119 | no contract; `LeftInverseSymbols` states that a nonzero result is the CP437 byte whose glyph is the code point |
| Utf8Cp437.RoundTrip | drivers/video/utf8_cp437.c:8-135 | the glyph of every CP437 byte except 0x7F converts back to that byte |
| Utf8Cp437.HouseGlyphUnknown | drivers/video/utf8_cp437.c:51-119 | the glyph of byte 0x7F (U+2302) is not in the symbol map and converts to 0 |
| Utf8Cp437.LeftInverse | drivers/video/utf8_cp437.c:8-135 | every nonzero byte produced for a code point from U+00A0 up shows that code point, except the placeholder 7 for Latin-1 characters CP437 lacks |
| Utf8Cp437.Latin1NeverZero | drivers/video/utf8_cp437.c:8-21 | every entry of the Latin-1 table is nonzero |
| Utf8Cp437.ZeroExactlyForUnknown | drivers/video/utf8_cp437.c:30-135 | the result is 0 if and only if the code point is U+0000, U+2302, or from U+0100 up and shown by no CP437 byte |
| Utf8Cp437.Lead | drivers/video/utf8_cp437.c:147-156 | a lead byte with top nibble C/D, E or F sets the pending count to 1, 2 or 3 and puts its 5, 4 or 3 payload bits at bit 6, 12 or 18 |
| Utf8Cp437.Continued | drivers/video/utf8_cp437.c:157-163 | a continuation byte that is not the last leaves the pending count one lower |
| Utf8Cp437.Assemble | drivers/video/utf8_cp437.c:137-166 | ASCII passes through and DEL gives 8; a lead byte opens a sequence; a continuation byte lowers the pending count, and completes the code point exactly when the count was 1 |
| Utf8Cp437.Step | drivers/video/utf8_cp437.c:137-169 | ASCII returns the byte and DEL returns 8, both leaving the state word alone; a lead byte returns 0 and sets its pending count; a continuation byte returns 0 while bytes remain, one fewer pending, and clears the state word when it completes the sequence |
| Utf8Cp437.ContinueOpen | drivers/video/utf8_cp437.c:157-163 | with n = 2 or 3 bytes pending, a continuation byte keeps the low 16 gathered bits, ORs its six bits in at position 6·(n−1), stays below 2^24 and leaves n−1 pending |
| Utf8Cp437.ContinueComplete | drivers/video/utf8_cp437.c:157-165 | with one byte pending, a continuation byte completes the code point: the low 16 gathered bits ORed with its six bits |
| Utf8Cp437.Utf8Decoder.Convert | drivers/video/utf8_cp437.c:137-169 | the returned glyph and the state word written in place are those of one decoder step |
| Utf8Cp437.FeedAppend | drivers/video/utf8_cp437.c:137-169 | decoding `a` and then `b` equals decoding `a + b`, because the state word is the decoder's only memory |
| Utf8Cp437.DecodeTwo | drivers/video/utf8_cp437.c:148-165 | the two bytes of a code point U+0080..U+07FF yield 0 and then its glyph, and reset the state to 0 |
| Utf8Cp437.DecodeThree | drivers/video/utf8_cp437.c:151-165 | the three bytes of a code point U+0800..U+FFFF yield 0, 0 and then its glyph, and reset the state to 0 |
| Utf8Cp437.DecodeFour | drivers/video/utf8_cp437.c:154-165 | the four bytes of a code point from U+10000 up yield 0, 0, 0 and then the glyph of its low 16 bits |
| Utf8Cp437.EncodeThenDecode | drivers/video/utf8_cp437.c:137-169 | for every code point, feeding its UTF-8 encoding in any state yields zeros and then its glyph; the state ends at 0, or unchanged for ASCII |
| Utf8Cp437.DecodeText | drivers/video/utf8_cp437.c:137-169 | a whole UTF-8 text decodes, from state 0, to one glyph per code point, each preceded by zeros for its continuation bytes |
| Utf8Cp437.HorizontalLineExample | drivers/video/utf8_cp437.c:77 | from any state, the bytes E2 94 80 (U+2500) yield 0, 0, 196 and leave the decoder idle |
| AppleSpiKbd.Le16RoundTrip | drivers/input/apple_spi_kbd.c:85-94 | reading a 16-bit field back from its little-endian bytes gives the field |
| AppleSpiKbd.ParseReport | drivers/input/apple_spi_kbd.c:68-74 | the report parsed from ten bytes serialises back to those bytes |
| AppleSpiKbd.ReportRoundTrip | drivers/input/apple_spi_kbd.c:68-74 | parsing a serialised report gives the report |
| AppleSpiKbd.ParseMsg | drivers/input/apple_spi_kbd.c:96-105 | reading the message header from the packet data loses nothing: it serialises back to the data's first eight bytes |
| AppleSpiKbd.MsgRoundTrip | drivers/input/apple_spi_kbd.c:96-105 | parsing a serialised message header gives the header |
| AppleSpiKbd.ParsePacket | drivers/input/apple_spi_kbd.c:85-94 | reading a 256-byte frame as a packet gives a 246-byte data area and loses nothing: the packet serialises back to the frame |
| AppleSpiKbd.PacketRoundTrip | drivers/input/apple_spi_kbd.c:85-94 | parsing a serialised packet gives the packet |
| AppleSpiKbd.FrameReportBytes | drivers/input/apple_spi_kbd.c:180-181 | the report is frame bytes 16..25: packet header 8 bytes plus message header 8 bytes in |
| AppleSpiKbd.AcceptedBytes | drivers/input/apple_spi_kbd.c:182-185 | a frame is accepted if and only if flags is 0x20, the packet device is 1, the message type is 0x10, the message device is 1, cmdlen is 10 and the report ID is 1; the CRC is never read |
| AppleSpiKbd.OtherDeviceExample | drivers/input/apple_spi_kbd.c:182 | a frame from another device is rejected |
| AppleSpiKbd.ModifierEvent | drivers/input/apple_spi_kbd.c:113-124 | one modifier test: at most one event, for the given key, present exactly when the bit differs, released exactly when the old bit was set |
| AppleSpiKbd.ModifierEvents | drivers/input/apple_spi_kbd.c:107-125 | at most four modifier events |
| AppleSpiKbd.ModifierEventsIff | drivers/input/apple_spi_kbd.c:113-124 | an event for a modifier key is emitted if and only if its bit differs between old and new, with `released` equal to the old bit |
| AppleSpiKbd.OtherModifierBitsSilent | drivers/input/apple_spi_kbd.c:113-124 | when bits 0, 1, 4 and 5 agree, no modifier event is emitted, whatever the other bits |
| AppleSpiKbd.ModifierEventsKeys | drivers/input/apple_spi_kbd.c:26-30 | modifier events carry only the four modifier key codes |
| AppleSpiKbd.LeftShiftExample | drivers/input/apple_spi_kbd.c:119-121 | pressing left shift alone emits one press of key 0xE1 |
| AppleSpiKbd.Scan | drivers/input/apple_spi_kbd.c:142-143 | the scan stops at the first occurrence of the byte, or at the end when there is none |
| AppleSpiKbd.ScanFinds | drivers/input/apple_spi_kbd.c:142-143 | the scan stops before the end if and only if the byte occurs |
| AppleSpiKbd.ReleaseEvent | drivers/input/apple_spi_kbd.c:127-145 | `service_key(i, 1)`: at most one event, a release of slot i's old key, present exactly when the new report lacks that key |
| AppleSpiKbd.PressEvent | drivers/input/apple_spi_kbd.c:127-145 | `service_key(i, 0)`: at most one event, a press of slot i's new key, present exactly when the old report lacks that key |
| AppleSpiKbd.SlotEvents | drivers/input/apple_spi_kbd.c:189-192 | slots 0..k−1 emit at most two events each |
| AppleSpiKbd.SlotEventsIff | drivers/input/apple_spi_kbd.c:127-145 | over the first k slots, a release of a code is emitted if and only if it is in an old slot and nowhere in the new report; a press if and only if it is in a new slot and nowhere in the old report |
| AppleSpiKbd.KeyChanges | drivers/input/apple_spi_kbd.c:127-145 | over all six slots: a release for exactly the codes that left the report, a press for exactly those that entered it |
| AppleSpiKbd.ReplaceKeyExample | drivers/input/apple_spi_kbd.c:189-192 | replacing key 5 by key 6 in slot 1 emits a release of 5 and then a press of 6 |
| AppleSpiKbd.DiffEvents | drivers/input/apple_spi_kbd.c:188-192 | an accepted poll emits at most 4 + 12 = 16 events |
| AppleSpiKbd.NoChangeNoEvents | drivers/input/apple_spi_kbd.c:188-192 | equal modifiers and key codes emit no events |
| AppleSpiKbd.ApplyAppend | drivers/input/apple_spi_kbd.c:188-192 | applying two event sequences in turn is applying their concatenation |
| AppleSpiKbd.ApplySlots | drivers/input/apple_spi_kbd.c:189-192 | after k slots, the listener's keys are the old keys minus those released so far, plus those pressed so far |
| AppleSpiKbd.SlotEventsTrackKeys | drivers/input/apple_spi_kbd.c:127-145 | a listener holding the old report's keys and applying the slot events ends up holding exactly the new report's keys |
| AppleSpiKbd.HeldModifiers | drivers/input/apple_spi_kbd.c:20-30 | each modifier key is held exactly when its bit is set |
| AppleSpiKbd.ApplyModifier | drivers/input/apple_spi_kbd.c:113-124 | one modifier's event leaves the listener holding that key exactly when its new bit is set |
| AppleSpiKbd.ModifierEventsTrackKeys | drivers/input/apple_spi_kbd.c:107-125 | a listener holding the old modifier keys and applying the modifier events ends up holding the new ones |
| AppleSpiKbd.Keyboard.constructor | drivers/input/apple_spi_kbd.c:76-80 | both stored reports start zero-filled, with no events |
| AppleSpiKbd.Keyboard.ServiceModifier | drivers/input/apple_spi_kbd.c:113-124 | for one modifier bit, appends a key event exactly when the bit differs between the old and new report, released when the old report had it set; the reports are unchanged |
| AppleSpiKbd.Keyboard.ServiceModifiers | drivers/input/apple_spi_kbd.c:107-125 | appends the modifier events for old and new; the reports are unchanged |
| AppleSpiKbd.Keyboard.ServiceKey | drivers/input/apple_spi_kbd.c:127-145 | appends the release event (or the press event) of slot i; the reports are unchanged |
| AppleSpiKbd.Keyboard.Accept | drivers/input/apple_spi_kbd.c:186-195 | both stored reports become the new one; the modifier events and then slots 0..5 are appended |
| AppleSpiKbd.Keyboard.Check | drivers/input/apple_spi_kbd.c:147-199 | a failed claim returns its error, and a rejected frame returns 0, both with nothing changed; an accepted frame returns 1, both reports become its ten report bytes, and the diff from the previous report is appended |
| MachApple.FirstTerminatorUnique | arch/arm/mach-apple/board.c:221-223 | the terminator search has one answer |
| MachApple.T8103Terminator | arch/arm/mach-apple/board.c:19-84 | in the M1 table, as built or rebuilt, the search passes over the framebuffer placeholder and stops at index 8; entries 6 and 7 are RAM and the framebuffer, which starts with no size |
| MachApple.T6000Terminator | arch/arm/mach-apple/board.c:88-177 | in the M1 Pro/Max table, as built or rebuilt, the search stops at index 11; entries 9 and 10 are RAM and the framebuffer |
| MachApple.Board.FindTerminator | arch/arm/mach-apple/board.c:221-223 | the loop stops at the first entry with no size and no attributes |
| MachApple.AlignDown | arch/arm/mach-apple/board.c:229 | the result is a multiple of the alignment, at most x, and within one alignment of x |
| MachApple.AlignUp | arch/arm/mach-apple/board.c:230 | the result is a multiple of the alignment, at least x, and within one alignment of x |
| MachApple.PageAlign | arch/arm/mach-apple/board.c:225-230 | the new base and size are multiples of 4 KiB; the new span covers the old one and extends less than a page past it at either end |
| MachApple.FramebufferSpan | arch/arm/mach-apple/board.c:237-243 | a framebuffer is mapped only when the node exists and its address is not FDT_ADDR_T_NONE |
| MachApple.Rebuilt | arch/arm/mach-apple/board.c:232-253 | only entries i−2 and i−1 change, and no attributes change; entry i−2 maps the aligned RAM with virt = phys; entry i−1 maps the aligned framebuffer, or is untouched when there is none |
| MachApple.RebuiltKeepsLayout | arch/arm/mach-apple/board.c:221-253 | a rebuild keeps the table's layout, so the next search stops at the same terminator |
| MachApple.RebuiltIdempotent | arch/arm/mach-apple/board.c:225-253 | rebuilding twice from the same inputs gives the same table as rebuilding once |
| MachApple.NoFramebufferNoMapping | arch/arm/mach-apple/board.c:237-243 | without a usable framebuffer, the first rebuild leaves the framebuffer entry with size 0 |
| MachApple.Select | arch/arm/mach-apple/board.c:212-219 | "apple,t8103" selects the M1 table first; otherwise "apple,t6000" or "apple,t6001" select the M1 Pro/Max table; nothing else is supported |
| MachApple.Board.constructor | arch/arm/mach-apple/board.c:19-179 | the two tables hold their compiled-in contents, and `mem_map` is unset |
| MachApple.Board.BuildMemMap | arch/arm/mach-apple/board.c:205-254 | an unsupported SoC changes nothing; otherwise `mem_map` is the SoC's table, that table is rebuilt at its terminator, and the other table is unchanged |
| MachApple.LateInitAddresses | arch/arm/mach-apple/board.c:277-290 | the PXE file sits at an 8 MiB boundary; the script follows 4 MiB above; both 4 MiB areas end at least 1 MiB below the stack, in the highest such block; the FDT is the first 2 MiB boundary at or above the RAM base; the kernel, ramdisk and load address are 2 MiB, 128 MiB and 2 GiB above it |
| MachApple.LateInitExample | arch/arm/mach-apple/board.c:277-290 | the concrete addresses for RAM from 0x8_0000_0000 with the stack near 0x9_0000_0000 |
| MachApple.EnvVars | arch/arm/mach-apple/board.c:280-290 | six variables with distinct names, each bound to its address: `scriptaddr`, `pxefile_addr_r`, `fdt_addr_r`, `kernel_addr_r`, `ramdisk_addr_r` and `loadaddr` |
| MachApple.AnyFails | arch/arm/mach-apple/board.c:280-292 | the ORed status is nonzero exactly when one of the settings fails |
| MachApple.BoardLateInit | arch/arm/mach-apple/board.c:269-296 | sets the six variables in order, warns exactly when one setting fails, and returns 0 either way |

## Left out

- The SPI bus transaction (`dm_spi_claim_bus`, `dm_spi_xfer`, `dm_spi_release_bus`) and the `udelay` calls are bus I/O and timing. The claim result and the 256 bytes received are inputs of `Keyboard.Check`.
- `apple_spi_kbd_probe` (the GPIO reset pulse, `input_add_table`, `input_stdio_register`) and the `U_BOOT_DRIVER` registration are calls into the hardware and the driver framework.
- The `hid_kbd_*_xlate` tables are consumed only by the input layer, which is not part of this model.
- `input_add_keycode` is modelled by appending to the `events` queue. Its `released` argument is the masked old bit, modelled as a boolean: nonzero means released.
- `memscan` is in lib/string.c, which is not part of this model. `Scan` models it as a search for the first occurrence of the byte.
- `Keyboard.Accept` is the accepted-frame branch of `apple_spi_kbd_check`, factored out as a method. It is not a separate function of the source.
- `HasBit` tests one modifier bit as a quotient and remainder. It stands for the source's `(new ^ old) & BIT(n)` and `old & BIT(n)`.
- A continuation byte with no sequence pending (`*esc` of 0) makes the source shift by a negative amount, which C leaves undefined. `StepDefined` excludes it by precondition.
- `StepDefined` also excludes a continuation byte arriving with 4 or more bytes pending. The source gives pending counts 4 and 5 a meaning, but no step from the idle state reaches them: a lead byte sets at most 3, and a continuation byte only lowers the count (the last ensures of `Assemble`).
- Utf8Cp437.Assemble: the decoder does not check RFC 3629 well-formedness (overlong forms, surrogates, code points above U+10FFFF), and neither does the model. The round-trip lemmas cover only well-formed encodings.
- The device tree and environment functions that board.c calls are inputs. These are `of_machine_is_compatible`, `ofnode_path`, `ofnode_get_addr_size`, the DRAM bank filled in by `fdtdec_*`, `gd->start_addr_sp`, `gd->ram_base` and the results of `env_set_hex`. `log_warning` becomes the `warned` flag.
- `panic("Unsupported SoC")` does not return; `Board.BuildMemMap` reports it as `false` and changes nothing.
- The PTE attribute macros come from asm/armv8/mmu.h, which is not part of this model. Their values are carried as constants, and the logic depends only on whether an entry's attributes are zero.
- `board_init`, `board_fdt_blob_setup` and `get_page_table_size` are trivial functions that return a constant or a firmware-supplied pointer.
- `dram_init` and `dram_init_banksize` only call the `fdtdec_*` device-tree helpers, which are not part of this model. `enable_caches` only calls `build_mem_map` and the cache routines below.
- `icache_enable` and `dcache_enable` are cache maintenance; they are not modelled.
- `CONFIG_STACK_SIZE` is a build option, so the model takes it as a parameter.
- 64-bit wrap-around in `ALIGN`, `ALIGN_DOWN` and the `board_late_init` arithmetic is excluded by preconditions (`Alignable`, `Fits`, `LateInitFits`), not modelled.
