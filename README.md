# ds3-adapter in Dafny

This project models the sequential core of ds3-adapter and proves properties of the model. ds3-adapter lets a DualSense controller pose as a DualShock 3 (DS3) on a PlayStation 3. It has two nodes.

- **Pi A** (`adapter/`, C) has four parts:
  - It presents itself to the console as a USB HID gadget through FunctionFS.
  - It keeps an emulated DS3 input report and a set of feature reports.
  - It translates DualSense Bluetooth input reports, read from hidraw, into that DS3 report.
  - It sends rumble and lightbar output reports, with a CRC-32 trailer, back to the DualSense.
- **The Bluetooth link.** In relay mode, Pi A also holds a Bluetooth HID link to the console: a control L2CAP channel (PSM 0x11) and an interrupt channel (PSM 0x13). It tunnels both channels over TCP to Pi B.
- **Pi B** (`Pi_B/main.py`, Python) relays between that TCP connection and a real DS3's two L2CAP channels, and logs every packet.

The model follows each source file's own form:
- Pure expressions become functions with contracts.
- Code that updates global state becomes classes with fields and `modifies` clauses:
  - `bt_state` becomes `BtHid.Adapter`;
  - `g_ds3_report` and `report_ef` become `Ds3.Emulator`;
  - the CRC table becomes `Crc32.Table`;
  - `output_seq` and the hidraw writes become `DualSenseOutput.OutputSender`;
  - the USB flags become `UsbGadget.Gadget`;
  - the touch state becomes `DualSense.InputTranslator`.
- Loops become methods with invariants, proved against a specification function.

The files, one module each:
- Shared pieces:
  - `bytes.dfy`: bytes, 16-bit big- and little-endian values.
  - `wire.dfy`: the TCP frame `[channel][len hi][len lo][payload]`.
  - `hex_text.dfy`: two-digit hexadecimal text.
- Pi B:
  - `packet_log.dfy`: the packet log line.
  - `tcp_receive.dfy`: `recv_tcp_packet` over a trace of non-blocking receive results.
  - `relay_node.dfy`: `relay_loop` as a step function over one `select` iteration.
- Pi A:
  - `bt_relay.dfy`: `relay_send`, `relay_recv`, and the two Bluetooth threads' dispatch.
  - `mac_address.dfy`: its MAC text format and parser.
  - `pairing.dfy`: the pairing file.
  - `bt_hid.dfy`: the connection and pairing state machine.
  - `ds3.dfy`: DS3 emulation.
  - `crc32.dfy`: the CRC-32 of IEEE 802.3 (section 3.2.9, reflected polynomial 0xEDB88320). The register is a sequence of 32 bits.
  - `dualsense.dfy`: input translation.
  - `dualsense_output.dfy`: the 78-byte output report and the output thread's change detection.
  - `usb_gadget.dfy`: the USB control and output threads.
- `interop.dfy`: lemmas that connect the two nodes.

Integer semantics:
- C's truncating division is written out as `DualSense.CDiv` and related to Dafny's Euclidean division.
- `int16_t` is a subset type; its wrap-around to 16 bits is written out in `Bytes.Bits16` and `Bytes.Le16`.

The model follows the code where a cleaner design would differ:
- **Long payloads.** `send_tcp_packet` does not reject a payload longer than 65535 bytes. Its length field wraps (`Wire.Header`). A receiver then takes a short frame and treats the rest of the payload as the next frame (`TcpReceive.RecvOversizedFrame`).
- **Unknown tags.** `relay_loop` does not reject a frame whose tag is neither 0x11 nor 0x13. It logs the frame as `INTR` and forwards it nowhere (`PacketLog.ChannelName`, `RelayNode.ForwardFromAdapter`).
- **Signed address fields.** `bt_hid_str_to_mac` scans with `%02X`. In glibc, that conversion accepts a sign, or a `0x` prefix, within its two-character width. So `-1` is stored as the `unsigned int` 0xFFFFFFFF, and so as the byte 0xFF. A pairing-file line written that way is loaded (`MacAddress.ScanHex2`, `MacAddress.SignedFirstField`).
- **Partial transfers.** A short `send` in `relay_send` leaves part of the frame on the wire (`BtRelay.RelaySend`). A payload cut short by the peer's close is already in the caller's buffer when `relay_recv` returns −1 (`BtRelay.RelayRecvInto`).
- **Left rumble.** `usb_output_thread` takes the left rumble value from byte 5 of the output report. Its comment says byte 4. The model follows the code, which matches the DS3 output report layout (`UsbGadget.Rumble`).

## Model

| member | source | states |
|---|---|---|
| Bytes.Take | Pi_B/main.py:231 | a bounded read returns the first min(n, available) bytes |
| Bytes.Lo8 | Pi_B/main.py:164 | `len & 0xFF` is the length modulo 256 |
| Bytes.Hi8 | Pi_B/main.py:164 | `(len >> 8) & 0xFF` is the second byte of the length |
| Bytes.Be16 | Pi_B/main.py:134 | `(h1 << 8) \| h2` is below 65536 |
| Bytes.Be16Value | Pi_B/main.py:134 | the big-endian length is 256 times the high byte plus the low byte |
| Bytes.Be16OfSplit | Pi_B/main.py:164 | joining the two emitted length bytes gives back any length below 65536 |
| Bytes.SplitOfBe16 | adapter/src/bt_hid.c:199 | splitting a decoded length gives back the two header bytes |
| Bytes.ToByte | adapter/src/ds3.c:173 | a number below 256 stored in a byte keeps its value |
| Bytes.ByteIntRoundTrip | adapter/src/ds3.c:173 | a byte read as a number and stored again is unchanged |
| Bytes.Bits16 | adapter/src/ds3.c:173-183 | the bit pattern of an `int16_t` is its value modulo 2^16 |
| Bytes.Le16 | adapter/src/ds3.c:173-174 | the two stored bytes b0 + 256·b1 equal the value modulo 2^16 |
| Bytes.FromLe16 | adapter/src/dualsense.c:396-401 | `(int16_t)(b0 \| b1 << 8)` has bit pattern b1·256 + b0 |
| Bytes.Le16RoundTrip | adapter/src/ds3.c:173-183 | reading back a stored `int16_t` gives the original value |
| Bytes.FromLe16RoundTrip | adapter/src/dualsense.c:396-401 | storing what was read back gives the original two bytes |
| Wire.Header | adapter/src/bt_hid.c:157-160 | the 3-byte header carries the channel and the length modulo 65536, big-endian |
| Wire.Encode | Pi_B/main.py:164-165 | a frame is 3 + len bytes: tag, length, then the payload verbatim |
| Wire.EncodeDecodes | Pi_B/main.py:133-137 | for payloads below 65536 bytes, the header of an encoded frame gives back the tag and length, the payload is the next len bytes, and what follows is untouched |
| HexText.HexDigit | Pi_B/main.py:52 | each nibble is rendered as one uppercase hexadecimal digit |
| HexText.DigitValueOfHexDigit | Pi_B/main.py:52 | a rendered digit reads back as its nibble |
| HexText.Hex2 | Pi_B/main.py:52 | `{b:02X}` is exactly two hexadecimal digits |
| HexText.Hex2Digits | Pi_B/main.py:52 | the two digits are the high and low nibble |
| HexText.Hex2Injective | Pi_B/main.py:52 | distinct bytes render differently |
| HexText.HexJoin | Pi_B/main.py:52 | the joined text of n bytes has 3n − 1 characters, or none for no bytes |
| HexText.HexJoinAt | Pi_B/main.py:52 | byte i is rendered at position 3i, followed by the separator unless it is last |
| HexText.HexJoinChars | Pi_B/main.py:52 | the text holds only hexadecimal digits and the separator |
| HexText.HexJoinInjective | Pi_B/main.py:52 | the joined text determines the bytes |
| PacketLog.HexString | Pi_B/main.py:52 | the space-separated hex rendering has 3n − 1 characters |
| PacketLog.ChannelName | Pi_B/main.py:214 | the label is `CTRL` exactly for tag 0x11, and `INTR` for every other tag |
| PacketLog.LogText | Pi_B/main.py:53 | a log line is the direction, a space, the channel name, a space, then the hexadecimal text of the bytes, each part at its place in the line |
| PacketLog.LogTextInjective | Pi_B/main.py:53 | two log lines with the same direction and channel are equal only if their payloads are |
| TcpReceive.SkipBlocked | Pi_B/main.py:126-131 | after the retries, the trace does not begin with WouldBlock |
| TcpReceive.RecvOnceCases | Pi_B/main.py:122-126 | one `recv` blocks exactly on WouldBlock; it raises or returns empty exactly on an ending result; and it always consumes part of the trace |
| TcpReceive.DropStream | Pi_B/main.py:122 | consuming n bytes of the trace leaves exactly the byte stream after those n bytes |
| TcpReceive.ChunkStep | Pi_B/main.py:143 | a chunk is at most the remaining count and is the next bytes of the stream |
| TcpReceive.ChunkAdvance | Pi_B/main.py:141-146 | a chunk extends what was read by the next stream bytes, and never past the requested count |
| TcpReceive.ReadExact | Pi_B/main.py:119-131 | the read loop returns idle only on WouldBlock before any byte (header only). Otherwise it returns exactly the next `want` stream bytes and leaves the rest; or it reports a loss when the stream ends first; or a stall when it runs dry |
| TcpReceive.RecvTcpPacket | Pi_B/main.py:111-156 | the method computes `RecvSpec`, and `(None, None)` comes exactly from a WouldBlock (or nothing) before any header byte |
| TcpReceive.ReadPayload | Pi_B/main.py:133-151 | after the header, the method computes `RecvSpec` |
| TcpReceive.RecvSpecAfterHeader | Pi_B/main.py:136-151 | with the header read, a frame whose bytes all arrive is received whole and leaves the rest; if not, the result is a disconnection when the trace ends, or a stall |
| TcpReceive.StallOrLoss | Pi_B/main.py:147-149 | a trace that runs dry mid-frame has delivered all its bytes and no end |
| TcpReceive.LossOnEnd | Pi_B/main.py:144-145 | an empty chunk or an error mid-frame means the stream has ended |
| TcpReceive.RecvFrame | Pi_B/main.py:119-151 | under any chunking and WouldBlock interleaving, a frame sent by `send_tcp_packet` is received as the same tag and payload, no byte past it is consumed, and the next frame's bytes stay available |
| TcpReceive.RecvOversizedFrame | Pi_B/main.py:164 | a payload of 65536 bytes or more is received cut to its length modulo 65536, and its remaining bytes are left on the stream |
| TcpReceive.RecvSplitFrame | Pi_B/main.py:126-131 | a frame split by a WouldBlock after a partial header is still assembled, and the following byte is left unread |
| TcpReceive.RecvTruncatedFrame | Pi_B/main.py:144-145 | a connection closed mid-payload yields `(-1, None)` |
| RelayNode.RelayLoop | Pi_B/main.py:184-274 | the `while running` loop computes the fold of `Step` over the iterations |
| RelayNode.RunAppend | Pi_B/main.py:184 | running two stretches of iterations equals running their concatenation |
| RelayNode.StoppedStaysStopped | Pi_B/main.py:184 | once `running` is false, no further iteration changes anything |
| RelayNode.OnTcpStops | Pi_B/main.py:205-226 | the TCP socket's handler stops the relay exactly on a lost frame or a failed forward |
| RelayNode.OnLocalStops | Pi_B/main.py:229-274 | a DS3 socket's handler stops the relay exactly on an empty read, a read error or a failed TCP send |
| RelayNode.StepStopsIff | Pi_B/main.py:189-198 | an iteration keeps the relay running exactly when select succeeds, reports no exceptional socket, and no handler stops it |
| RelayNode.ForwardFromAdapter | Pi_B/main.py:203-226 | a received frame is logged once as from the PS3; tag 0x11 goes only to the control socket and tag 0x13 only to the interrupt socket; the frame leaves the trace |
| RelayNode.ForwardFromController | Pi_B/main.py:229-243 | a non-empty DS3 read is logged once and sent over TCP as one frame with the channel's tag and the same bytes (at most 256) |
| RelayNode.NoDataIsNoOp | Pi_B/main.py:245-246 | a BlockingIOError on a DS3 socket changes nothing |
| RelayNode.LogAppend | Pi_B/main.py:215 | appending one log line adds exactly that line's payload and frame |
| RelayNode.OnTcpAccounted | Pi_B/main.py:203-226 | the TCP handler keeps every forwarded payload matched by its log line |
| RelayNode.OnLocalAccounted | Pi_B/main.py:229-274 | a DS3 handler keeps every TCP frame matched by its log line |
| RelayNode.StepAccounted | Pi_B/main.py:184-274 | a whole iteration keeps the log and the outputs in step |
| RelayNode.LocalsAccounted | Pi_B/main.py:228-274 | the two DS3 handlers in sequence keep the log and the outputs in step |
| RelayNode.RunAccounted | Pi_B/main.py:184-274 | while the relay is running, each destination's output is exactly what the log says was sent to it, at every point of a run |
| BtRelay.Sent | adapter/src/bt_hid.c:161-169 | a `send` puts a prefix of its buffer on the wire, as long as the count it returned (none for −1) |
| BtRelay.RelaySend | adapter/src/bt_hid.c:152-180 | `relay_send` returns 0 exactly when there is a socket and each `send` takes all its bytes, the payload one only being made for a non-empty payload; success puts the encoded frame on the wire; a failure leaves a proper prefix of the frame there, as long as the short send took; with no socket nothing is sent |
| BtRelay.RelayRecv | adapter/src/bt_hid.c:182-210 | `relay_recv` fails on no socket or a short header, and on a short payload of 1..256 bytes, whose received bytes it has then already stored. It decodes channel and big-endian length; reads the payload only when 1 ≤ len ≤ 256; and otherwise leaves the payload unread |
| BtRelay.RelayRecvInto | adapter/src/bt_hid.c:197-206 | the bytes read, a payload cut short included, overwrite the start of the 256-byte buffer, and nothing else is written |
| BtRelay.TruncatedPayloadStored | adapter/src/bt_hid.c:201-205 | a frame of 1 to 256 bytes cut off by the close after k payload bytes fails with exactly those k bytes stored |
| BtRelay.Route | adapter/src/bt_hid.c:638-655 | a failed receive stops the thread; an empty frame is skipped; tag 0x11 goes to the control socket and 0x13 to the interrupt socket, each only when that socket is open; anything else is dropped |
| BtRelay.OversizeFrameOverreads | adapter/src/bt_hid.c:636-655 | as written, a frame longer than 256 bytes makes the thread send len bytes from its 256-byte buffer, and leaves the payload on the stream |
| BtRelay.RelayRecvFixed | adapter/src/bt_hid.c:201-207 | corrected: a payload is only ever delivered when it fits the buffer |
| BtRelay.OutputStepFixedStaysInSync | adapter/src/bt_hid.c:636-655 | corrected: every frame consumes exactly its own bytes, and only bytes that were read are forwarded; longer frames are dropped whole |
| BtRelay.FixedAgreesOnFittingFrames | adapter/src/bt_hid.c:636-655 | corrected and as written agree on every frame of at most 256 bytes |
| BtRelay.InputPass | adapter/src/bt_hid.c:695-731 | control reads are tagged 0x11 and interrupt reads 0x13; each forwarded packet is non-empty and at most 256 bytes; a disconnect ends the pass. The whole pass is pinned down: an empty control read gives only a disconnect; otherwise a readable control packet is forwarded first; a control hang-up then disconnects without touching the interrupt channel; without one, a readable interrupt packet is forwarded (or, if empty, disconnects), and an interrupt hang-up disconnects last |
| MacAddress.MacToStr | adapter/src/bt_hid.c:86-89 | the text is 17 characters; `MacToStrAt` states the format |
| MacAddress.MacToStrAt | adapter/src/bt_hid.c:86-89 | byte k is at position 3k as two uppercase digits, and a colon follows each of the first five |
| MacAddress.SkipSpace | adapter/src/bt_hid.c:91-101 | `sscanf`'s `%02X` skips leading white space and stops at the first non-space |
| MacAddress.ScanHex2 | adapter/src/bt_hid.c:93-94 | a `%02X` field, after white space, is a sign and one digit, `0x`/`0X`, or one or two digits of either case; it yields an `unsigned int` value and the position just after it |
| MacAddress.PrefixOnlyField | adapter/src/bt_hid.c:93-94 | a field `0x` or `0X` fills the width and reads as 0 |
| MacAddress.SignedByte | adapter/src/bt_hid.c:93-99 | a field `-d` leaves the byte (256 − d) mod 256, a field `+d` the byte d |
| MacAddress.SignedField | adapter/src/bt_hid.c:93-99 | a sign and a digit make a complete field of two characters: `-d` stores the number negated as an `unsigned int`, whose low byte is (256 − d) mod 256, and `+d` stores d |
| MacAddress.ScanFields | adapter/src/bt_hid.c:93-94 | when the colon-led fields scan there are exactly n of them, each following a colon, the first being the low byte of its conversion |
| MacAddress.StrToMac | adapter/src/bt_hid.c:91-101 | `bt_hid_str_to_mac` succeeds exactly when the first conversion and the five colon-led ones after it succeed; the address is then the low bytes of the six values, and text after the sixth is ignored |
| MacAddress.SignedFirstField | adapter/src/bt_hid.c:91-101 | an address whose first field is signed, such as `-1:02:03:04:05:06`, is accepted, with the signed field's byte first |
| MacAddress.SignedLaterField | adapter/src/bt_hid.c:93-99 | a signed field after a colon, such as the `+A` of `01:02:03:04:05:+A`, is accepted with its byte |
| MacAddress.MacRoundTrip | adapter/src/bt_hid.c:86-101 | parsing the rendered text, with anything after it, gives back the MAC |
| MacAddress.MacToStrHasNoNewline | adapter/src/bt_hid.c:86-89 | rendered MACs hold no newline, so a saved line ends at its MAC |
| MacAddress.Reverse | adapter/src/bt_hid.c:243-245 | byte i of the reversed address is byte 5 − i of the original |
| MacAddress.ReverseInvolution | adapter/src/bt_hid.c:421-423 | reversing twice gives back the address |
| Pairing.SaveContent | adapter/src/bt_hid.c:369-388 | the file is `PS3_MAC=<mac>\n` followed by `LOCAL_MAC=<mac>\n`, 54 characters |
| Pairing.ChunkLength | adapter/src/bt_hid.c:351 | `fgets` takes up to and including the first newline, bounded by the buffer |
| Pairing.FgetsLines | adapter/src/bt_hid.c:351 | the lines `fgets` returns are non-empty and fit its buffer |
| Pairing.BeforeNewline | adapter/src/bt_hid.c:354-355 | cutting at `strchr(mac_str, '\n')` keeps exactly the part before the first newline |
| Pairing.LineMac | adapter/src/bt_hid.c:352-357 | a MAC is taken only from a line starting with `PS3_MAC=` |
| Pairing.FirstMacAt | adapter/src/bt_hid.c:351-361 | the first `PS3_MAC=` line that parses wins |
| Pairing.FirstMacNone | adapter/src/bt_hid.c:346-367 | loading fails exactly when no line yields a MAC |
| Pairing.LoadPairing | adapter/src/bt_hid.c:346-367 | the line loop returns the first parsed MAC |
| Pairing.PairingRoundTrip | adapter/src/bt_hid.c:351-383 | loading what `save_pairing` wrote recovers the saved PS3 MAC |
| BtHid.StateStr | adapter/src/bt_hid.c:559-569 | every state has a name other than `UNKNOWN` |
| BtHid.StateStrInjective | adapter/src/bt_hid.c:559-569 | distinct states have distinct names |
| BtHid.Initial | adapter/src/bt_hid.c:70-80 | the adapter starts IDLE, unpaired, with both sockets at −1 |
| BtHid.LoadedMac | adapter/src/bt_hid.c:346-367 | no MAC is loaded exactly when the file is missing or none of its `fgets` lines is a `PS3_MAC=` line that parses |
| BtHid.InitSpec | adapter/src/bt_hid.c:216-263 | a failed HCI open or address read returns −1 and changes nothing; otherwise it returns 0, stores the local address reversed, and goes READY with the loaded MAC when the pairing file yields one and WAITING_FOR_MAC otherwise, with no socket touched |
| BtHid.ConnectSpec | adapter/src/bt_hid.c:472-521 | with no MAC it returns −1 and nothing changes; when already CONNECTED it returns 0 and nothing changes; a failed control connect means −1 and ERROR with nothing closed; a failed interrupt connect means −1 and ERROR with the control socket closed and the socket fields unchanged; success means 0, CONNECTED, the two new sockets stored and the handshake and PS3-enabled flags cleared; the MAC, the local address and the pairing file are untouched |
| BtHid.OpenOnes | adapter/src/bt_hid.c:527-535 | only sockets that are open are closed |
| BtHid.DisconnectSpec | adapter/src/bt_hid.c:524-543 | both sockets become −1; CONNECTED and CONNECTING become READY with a MAC and WAITING_FOR_MAC without one; other states are kept |
| BtHid.StoreSpec | adapter/src/bt_hid.c:291-308 | the MAC is held, and only WAITING_FOR_MAC moves to READY |
| BtHid.ClearSpec | adapter/src/bt_hid.c:335-344 | the MAC is zeroed, the flag is cleared, the state is WAITING_FOR_MAC and the file is removed |
| BtHid.GetPs3Mac | adapter/src/bt_hid.c:324-333 | a MAC is returned exactly when one is held, and it is that MAC |
| BtHid.InitKeepsInv | adapter/src/bt_hid.c:216-267 | initialisation establishes the invariant: CONNECTED only with a MAC and both sockets open, READY and CONNECTING only with a MAC, WAITING_FOR_MAC only without one, and no MAC means the all-zero address |
| BtHid.OperationsKeepInv | adapter/src/bt_hid.c:291-543 | connect, disconnect, store and clear preserve the invariant |
| BtHid.DisconnectIdempotent | adapter/src/bt_hid.c:524-543 | disconnecting twice equals disconnecting once |
| BtHid.ConnectThenDisconnect | adapter/src/bt_hid.c:512-539 | a successful connect followed by a disconnect returns to READY, closing the interrupt socket and then the control socket |
| BtHid.StoreSurvivesRestart | adapter/src/bt_hid.c:251-252 | after storing a MAC, a restart comes up READY with that MAC |
| BtHid.ClearSurvivesRestart | adapter/src/bt_hid.c:255-256 | after clearing, a restart comes up WAITING_FOR_MAC and unpaired |
| BtHid.Adapter.constructor | adapter/src/bt_hid.c:70-80 | the object starts in the initial state |
| BtHid.Adapter.Init | adapter/src/bt_hid.c:216-267 | `bt_hid_init` updates the fields as `InitSpec` says |
| BtHid.Adapter.Connect | adapter/src/bt_hid.c:472-521 | `bt_hid_connect` updates the fields as `ConnectSpec` says |
| BtHid.Adapter.Disconnect | adapter/src/bt_hid.c:524-543 | `bt_hid_disconnect` updates the fields as `DisconnectSpec` says |
| BtHid.Adapter.StorePs3Mac | adapter/src/bt_hid.c:291-308 | `bt_hid_store_ps3_mac` updates the fields as `StoreSpec` says |
| BtHid.Adapter.ClearPairing | adapter/src/bt_hid.c:335-344 | `bt_hid_clear_pairing` updates the fields as `ClearSpec` says |
| BtHid.Adapter.GetPs3MacInto | adapter/src/bt_hid.c:324-333 | returns 0 and the MAC when paired, and −1 with the output untouched when not |
| BtHid.Adapter.IsConnected | adapter/src/bt_hid.c:545-550 | true exactly in CONNECTED |
| Ds3.FeatureReport | adapter/src/ds3.c:68-101 | data exists for exactly 0x01, 0xF2, 0xF5, 0xF7, 0xF8 and 0xEF, and the name is `UNKNOWN` otherwise; 0xEF gives the stored 0xEF report |
| Ds3.SetReportEf | adapter/src/ds3.c:106-112 | byte 0 becomes 0xEF, bytes 1..min(len, 63) come from the data, and later bytes are unchanged |
| Ds3.SetReportEfLastWins | adapter/src/ds3.c:106-112 | a longer second SET_REPORT 0xEF overrides the first completely |
| Ds3.ConvertDpad | adapter/src/ds3.c:125-138 | the mask uses the d-pad bits only, and never has Up with Down or Left with Right |
| Ds3.ConvertDpadCentred | adapter/src/ds3.c:136 | the mask is empty exactly for hat values 8-15 |
| Ds3.ConvertDpadBits | adapter/src/ds3.c:127-135 | each direction is set exactly for the hat values within one step of it, clockwise from Up, for the low nibble |
| Ds3.WithInputs | adapter/src/ds3.c:148-163 | the 13 listed offsets receive their values and every other byte is unchanged |
| Ds3.WithMotion | adapter/src/ds3.c:173-183 | each value is stored little-endian at 40, 42, 44 and 46, and reads back; only bytes 40-47 change |
| Ds3.WithBattery | adapter/src/ds3.c:194-200 | bytes 29, 30 and 31 receive the three values and nothing else changes |
| Ds3.BatteryStatus | adapter/src/ds3.c:205-227 | while charging, 0xEF exactly at level ≥ 100 and otherwise 0xEE; not charging, a level from 0x00 to 0x05 |
| Ds3.BatteryCountsThresholds | adapter/src/ds3.c:215-227 | the level is the number of thresholds 5, 15, 35, 60, 85 that the charge exceeds |
| Ds3.BatteryMonotone | adapter/src/ds3.c:215-227 | the status does not decrease as the charge rises |
| Ds3.ConnectionByte | adapter/src/ds3.c:231-236 | 0x10 exactly when either rumble value is non-zero, else 0x12 |
| Ds3.Emulator.constructor | adapter/src/common.c:24-71 | the input report starts as the neutral report, and 0xEF starts as `{0xEF, 0, …}` |
| Ds3.Emulator.HandleSetReport | adapter/src/ds3.c:103-123 | only report 0xEF is modified, as `SetReportEf` says |
| Ds3.Emulator.UpdateReport | adapter/src/ds3.c:140-166 | the report array is changed as `WithInputs` says |
| Ds3.Emulator.UpdateMotion | adapter/src/ds3.c:168-186 | the report array is changed as `WithMotion` says |
| Ds3.Emulator.UpdateBattery | adapter/src/ds3.c:194-200 | the report array is changed as `WithBattery` says |
| Ds3.Emulator.UpdateBatteryFromDualsense | adapter/src/ds3.c:202-239 | plugged is 0x02, then the status from the level and charging flag, then the connection byte from the rumble values |
| Crc32.Bits | adapter/src/dualsense.c:30 | a number as a k-bit register, least significant bit first; `ValueOfBits` reads it back |
| Crc32.Value | adapter/src/dualsense.c:30 | a register's value is below 2^k |
| Crc32.ValueOfBits | adapter/src/dualsense.c:30 | reading back a number stored in a register gives the number |
| Crc32.BitsOfValue | adapter/src/dualsense.c:30 | storing a register's value in a wider register pads it with zeros |
| Crc32.ValueAppend | adapter/src/dualsense.c:96 | the value of joined registers is the low part plus the high part shifted |
| Crc32.Xor | adapter/src/dualsense.c:96 | XOR works bit by bit |
| Crc32.Not | adapter/src/dualsense.c:98 | the final complement flips every bit |
| Crc32.Low8 | adapter/src/dualsense.c:96 | `& 0xFF` yields a table index below 256 |
| Crc32.ChecksumValue | adapter/src/dualsense.c:93-99 | the CRC is a 32-bit value |
| Crc32.PolyValue | adapter/src/dualsense.c:32 | the reflected polynomial is 0xEDB88320 |
| Crc32.ChecksumOfEmpty | adapter/src/dualsense.c:94-98 | the CRC of no bytes is 0 |
| Crc32.UpdateAppend | adapter/src/dualsense.c:95-97 | the register after two pieces of data is the register after the first, carried through the second |
| Crc32.RoundXor | adapter/src/dualsense.c:32 | one reflected shift/XOR round is linear over XOR |
| Crc32.RoundsXor | adapter/src/dualsense.c:31-33 | eight rounds are linear over XOR |
| Crc32.RoundsOfHigh | adapter/src/dualsense.c:31-33 | rounds over a register whose low byte is zero only shift it |
| Crc32.TableStep | adapter/src/dualsense.c:96 | the table-driven step `(crc >> 8) ^ table[(crc ^ b) & 0xFF]` equals eight bitwise rounds over `crc ^ b` |
| Crc32.TableUpTo | adapter/src/dualsense.c:29-35 | entry i of the table is i run through eight reflected rounds |
| Crc32.TableEntry | adapter/src/dualsense.c:29-35 | entry i is i after eight reflected rounds; entry 0 is 0 and entry 128 is the polynomial 0xEDB88320 |
| Crc32.RoundsOfTop | adapter/src/dualsense.c:31-33 | eight rounds take the register 128 to the polynomial: seven halvings, then one subtraction |
| Crc32.RoundOfEven | adapter/src/dualsense.c:32 | a round on an even register halves it, with no subtraction |
| Crc32.RoundsOfZero | adapter/src/dualsense.c:31-33 | any number of rounds leaves the zero register zero |
| Crc32.Table.constructor | adapter/src/dualsense.c:23-24 | the table starts zeroed and not initialised |
| Crc32.Table.Init | adapter/src/dualsense.c:26-37 | afterwards the table holds every entry, and a second call changes nothing |
| Crc32.Table.Calc | adapter/src/dualsense.c:93-99 | with the table initialised, the table-driven loop equals the bitwise CRC-32 with initial value 0xFFFFFFFF and a final complement |
| DualSense.CDivBounds | adapter/src/dualsense.c:320-321 | C's truncating quotient rounds toward zero |
| DualSense.CDivVersusEuclid | adapter/src/dualsense.c:408-411 | it is odd, and differs from Euclidean division by one exactly for inexact negative dividends |
| DualSense.CDivMonotone | adapter/src/dualsense.c:320-321 | the truncating quotient is monotone |
| DualSense.ClampByte | adapter/src/dualsense.c:324-327 | values in 0..255 are kept, and others clamp to 0 or 255 |
| DualSense.TouchStickCentred | adapter/src/dualsense.c:320 | no movement gives 128 |
| DualSense.TouchStickMonotone | adapter/src/dualsense.c:320-327 | the touch stick is non-decreasing in the delta |
| DualSense.TouchStickRange | adapter/src/dualsense.c:318-327 | the stick is symmetric about 128 within ±403; it saturates at 255 exactly from +400 and at 0 exactly from −404 |
| DualSense.Accel | adapter/src/dualsense.c:408-410 | `512 + v/16` lies in −1536..2559 |
| DualSense.Gyro | adapter/src/dualsense.c:411 | `498 + v/32` lies in −526..1521 |
| DualSense.MotionConversions | adapter/src/dualsense.c:408-411 | both conversions are odd about their centre, are centred exactly for small readings, and are monotone |
| DualSense.TouchX | adapter/src/dualsense.c:292 | a 12-bit coordinate |
| DualSense.TouchY | adapter/src/dualsense.c:293 | a 12-bit coordinate |
| DualSense.TouchCoordsRoundTrip | adapter/src/dualsense.c:292-293 | the shared-nibble packing of two 12-bit coordinates decodes back to both |
| DualSense.Buttons1 | adapter/src/dualsense.c:351-380 | the d-pad comes from the hat; L3, R3 and Start each set exactly from their DualSense bit; Select comes from Create, or from a touchpad click only when touchpad-as-R3 is off |
| DualSense.Buttons2 | adapter/src/dualsense.c:354-364 | each face and shoulder bit sets exactly its DS3 counterpart |
| DualSense.PsButton | adapter/src/dualsense.c:375 | the PS byte is the DS3 PS bit exactly when the PS button is down |
| DualSense.Pressure | adapter/src/dualsense.c:383-386 | a face pressure is 0xFF exactly when pressed, else 0 |
| DualSense.BatteryLevel | adapter/src/dualsense.c:427-431 | the low nibble times 10, capped at 100 |
| DualSense.BatteryByteStatus | adapter/src/dualsense.c:426-441 | CHARGED exactly when charging at a nibble of 10 or more; the status rises with the nibble |
| DualSense.TouchStepCases | adapter/src/dualsense.c:284-334 | without touchpad-as-R3 or touch data, nothing changes. With the contact inactive, the touch is released and the stick is not overridden. With it active, a point outside the pad changes neither the touch state nor the stick; a point inside overrides the stick, becomes the current position and, on the first touch, the anchor (centre 128); a later touch keeps the anchor and steers from it |
| DualSense.SteerCentred | adapter/src/dualsense.c:311-321 | a touch at its anchor gives 128 |
| DualSense.MotionReport | adapter/src/dualsense.c:394-418 | the motion update keeps the report's size; `ReportAfterMotion` states the stored values |
| DualSense.BatteryReport | adapter/src/dualsense.c:421-442 | the battery update keeps the report's size; `ReportAfterBattery` states the stored bytes |
| DualSense.ReportAfterInputs | adapter/src/dualsense.c:389-391 | the bytes before the battery are exactly `ds3_update_report`'s |
| DualSense.ReportAfterShort | adapter/src/dualsense.c:394 | a report shorter than 28 bytes changes only the input offsets |
| DualSense.ReportAfterNoBattery | adapter/src/dualsense.c:421 | a report of at most 54 bytes leaves the battery bytes alone |
| DualSense.ReportAfterMotion | adapter/src/dualsense.c:394-418 | with 28 bytes or more, the stored motion values read back as the converted readings |
| DualSense.ReportAfterBattery | adapter/src/dualsense.c:421-442 | with 55 bytes or more, the battery bytes come from the DualSense battery byte and the rumble values |
| DualSense.InputTranslator.constructor | adapter/src/dualsense.c:264 | the translator starts with the given touch state |
| DualSense.InputTranslator.ProcessInput | adapter/src/dualsense.c:264-445 | returns −1 and changes nothing for fewer than 12 bytes or a report id other than 0x31; otherwise returns 0 and updates the touch state and the DS3 report as the pure translation says |
| DualSense.InputTranslator.ApplyMotion | adapter/src/dualsense.c:396-417 | the report array changes as `MotionReport` says |
| DualSense.InputTranslator.ApplyBattery | adapter/src/dualsense.c:426-441 | the report array changes as `BatteryReport` says |
| DualSense.InputTranslator.ApplyTouch | adapter/src/dualsense.c:285-344 | the touch state and stick override follow `TouchStep` |
| DualSense.InputTranslator.TouchContact | adapter/src/dualsense.c:286-343 | with touch data present, the state follows `TouchStep` |
| DualSense.InputTranslator.TouchDown | adapter/src/dualsense.c:300-331 | an in-bounds touch updates the state and stick as `TouchAt` says |
| DualSense.StickAxis | adapter/src/dualsense.c:318-327 | the imperative clamp computes `Steer` |
| DualSenseOutput.SeqTag | adapter/src/dualsense.c:210-211 | byte 1 is `seq << 4`: low nibble zero, high nibble the sequence number |
| DualSenseOutput.OutputBody | adapter/src/dualsense.c:206-229 | the body is 74 bytes; `OutputFixedBytes` and `OutputRoundTrip` state its contents |
| DualSenseOutput.CrcTrailer | adapter/src/dualsense.c:238-242 | the trailer is 4 bytes; `CrcTrailerValue` states that they hold the CRC little-endian |
| DualSenseOutput.CrcTrailerValue | adapter/src/dualsense.c:238-242 | the trailer holds the CRC little-endian |
| DualSenseOutput.OutputReport | adapter/src/dualsense.c:201-253 | the report is 78 bytes; `OutputRoundTrip` states what it carries |
| DualSenseOutput.Framed | adapter/src/dualsense.c:233-242 | the trailer adds 4 bytes to the body; `FramedParses` states that it checks |
| DualSenseOutput.FramedParses | adapter/src/dualsense.c:206-242 | a framed body decodes to its sequence number and command, the CRC checking |
| DualSenseOutput.ParseOutput | adapter/src/dualsense.c:210-211 | a decoded sequence number is 4 bits |
| DualSenseOutput.OutputRoundTrip | adapter/src/dualsense.c:201-253 | decoding a built report gives back the sequence number (mod 16), motors, lightbar colour and player LEDs, with a valid CRC over 0xA2 and bytes 0-73 |
| DualSenseOutput.OutputFixedBytes | adapter/src/dualsense.c:206-229 | bytes 0, 2, 3, 4, 41, 44 and 45 are 0x31, 0x10, 0x03, 0x0C, 0x02, 0x02 and 0xFF; every unlisted byte is 0 |
| DualSenseOutput.OutputSender.constructor | adapter/src/dualsense.c:199 | the counter starts at 0 and nothing has been written |
| DualSenseOutput.OutputSender.SendOutput | adapter/src/dualsense.c:201-253 | the counter advances by 1 mod 16; the frame is the report for the old counter value; it is written only when the device is open |
| DualSenseOutput.OutputSender.SendRumble | adapter/src/dualsense.c:255-262 | sends the motors with the lightbar state's colour and player LEDs |
| DualSenseOutput.NewReport | adapter/src/dualsense.c:206-229 | the in-place fill of a zeroed array produces the body |
| DualSenseOutput.WriteTrailer | adapter/src/dualsense.c:238-242 | the last four bytes receive the trailer and the body is kept |
| DualSenseOutput.OutputThread | adapter/src/dualsense.c:497-545 | the thread loop emits exactly the events of the specification run over the samples |
| DualSenseOutput.Iteration | adapter/src/dualsense.c:505-539 | one pass of the loop computes `Step` |
| DualSenseOutput.RefreshesAppend | adapter/src/dualsense.c:507-511 | refreshes of joined event lists add up |
| DualSenseOutput.RefreshCadence | adapter/src/dualsense.c:507-511 | over any run, the lightbar file is re-read exactly once per 50 iterations: the number of refreshes is (count + iterations) / 50 |
| DualSenseOutput.NoRepeatSend | adapter/src/dualsense.c:525-539 | after a send, the same rumble and lightbar do not cause another send |
| DualSenseOutput.BrightnessIgnored | adapter/src/dualsense.c:525-530 | brightness alone never triggers or shapes a send |
| DualSenseOutput.ClosedDeviceKeepsPending | adapter/src/dualsense.c:525 | with no device nothing is sent and the last-sent values are kept, so the change is sent later |
| DualSenseOutput.FirstIterationSendsDefault | adapter/src/dualsense.c:502-539 | the first pass sends the default blue lightbar with motors off, when the device is open |
| UsbGadget.HidDescriptorFields | adapter/src/usb_gadget.c:24-32 | the HID descriptor is 9 bytes of type 0x21, declares bcdHID 1.11, and a 148-byte report descriptor |
| UsbGadget.ReportId | adapter/src/usb_gadget.c:270 | the report id is `wValue & 0xFF` |
| UsbGadget.SetReportMax | adapter/src/usb_gadget.c:302 | the read size is min(wLength, 64) |
| UsbGadget.Answer | adapter/src/usb_gadget.c:275-313 | only unknown GET_REPORTs and requests other than GET/SET_REPORT end in a zero-length read (SET_IDLE's acknowledgement, or a stall); GET_REPORT writes the first min(64, wLength) bytes of the report; SET_REPORT reads min(wLength, 64) bytes when wLength > 0, then acknowledges with a zero-length write |
| UsbGadget.SetReportData | adapter/src/usb_gadget.c:301-305 | what is passed on is a prefix of the data phase, at most wLength and 64 bytes, and non-empty when both are |
| UsbGadget.EfAfterSetup | adapter/src/usb_gadget.c:296-308 | only a SET_REPORT that read data can change the 0xEF report |
| UsbGadget.ControlStep | adapter/src/usb_gadget.c:264-338 | ENABLE sets enabled; DISABLE clears it and zeroes both rumble values; UNBIND clears running; SETUP leaves the flags alone; other events change nothing |
| UsbGadget.ControlRun | adapter/src/usb_gadget.c:255-342 | folding `ControlStep` over the ep0 reads keeps a 64-byte 0xEF report; what the run does is stated by `NothingAfterTheEnd` and `SetThenGetReadsBack` |
| UsbGadget.NothingAfterTheEnd | adapter/src/usb_gadget.c:258-261 | after a read error or UNBIND the loop stops and later events change nothing |
| UsbGadget.SetThenGetReadsBack | adapter/src/usb_gadget.c:280-308 | the console's SET_REPORT 0xEF followed by GET_REPORT 0xEF reads back 0xEF and the stored bytes |
| UsbGadget.Rumble | adapter/src/usb_gadget.c:418-438 | packets under 6 bytes change nothing; right is 0xFF exactly when byte 3 is non-zero and 0 otherwise; left is byte 5 verbatim |
| UsbGadget.RumbleFollowsLastLong | adapter/src/usb_gadget.c:394-442 | the rumble values are those of the last packet of 6 or more bytes, or unchanged when there is none |
| UsbGadget.RumbleRunAppend | adapter/src/usb_gadget.c:404-440 | each packet applies `Rumble` to the current values |
| UsbGadget.Gadget.View | adapter/src/usb_gadget.c:250-345 | the gadget's fields and the emulator's 0xEF report form a control state with a 64-byte 0xEF report |
| UsbGadget.Gadget.constructor | adapter/src/common.c:75-76 | USB starts disabled, running, with both rumble values 0 |
| UsbGadget.Gadget.HandleSetup | adapter/src/usb_gadget.c:265-315 | a SETUP keeps the flags, answers as `Answer` says and updates the 0xEF report as `EfAfterSetup` says |
| UsbGadget.Gadget.HandleEvent | adapter/src/usb_gadget.c:264-339 | one event changes the state as `ControlStep` says |
| UsbGadget.Gadget.ControlThread | adapter/src/usb_gadget.c:250-345 | the loop over ep0 reads changes the state as `ControlRun` says |
| UsbGadget.Gadget.OutputThread | adapter/src/usb_gadget.c:394-442 | while running, the rumble values follow `RumbleRun`; the flags and the ep0 log are unchanged |
| Interop.AdapterFrameReachesNode | adapter/src/bt_hid.c:152-180 | a frame `relay_send` writes successfully is received by `recv_tcp_packet` as the same channel and payload, leaving what follows |
| Interop.NodeFrameReachesConsole | Pi_B/main.py:229-243 | the frame Pi B makes from a DS3 read is routed by Pi A's output thread to the matching console channel with the same bytes, leaving what follows |
| Interop.ConsoleGetsFrame | adapter/src/bt_hid.c:636-655 | any frame of 1..256 bytes tagged 0x11 or 0x13 reaches the console channel of that tag |

## Left out

- Socket, L2CAP and HCI I/O, and timing, are not modelled: `select`, `poll`, `usleep`, `time.sleep`, `l2cap_connect_psm`, and the `hci_*` calls. Receive results are event traces; send results and new socket numbers are parameters.
- Threads and mutexes are not modelled. Each operation is treated as atomic and sequential.
- `g_running`, when another thread or the signal handler clears it (adapter/src/main.c), is not modelled. In `UsbGadget.Gadget.ControlThread` and `UsbGadget.Gadget.OutputThread` it changes only through the thread's own events.
- The timestamp of `log_packet` is left out: it is wall-clock, floating-point text.
- `parse_lightbar_json` and `read_lightbar_state` are left out: they rely on `atoi`/`atof` and floating point. Re-reading the lightbar file is the `Refresh` event; the state it reads is a parameter of each sample.
- `DualSenseOutput.OutputSender.SendRumble`: the lightbar brightness is not sent, as in the source, which never writes it into the report.
- Setup through `system()` is left out, because it is shell commands: `usb_gadget_init`, bind and unbind, the device class, name and discoverable mode.
- The USB descriptor structures and `usb_gadget_write_descriptors` are left out, because they are static data for the kernel. Only the HID descriptor's fields are stated.
- `usb_input_thread` is left out: it copies the DS3 report to the endpoint while USB is enabled, and is I/O only.
- File and device access are left out: opening and writing the pairing file, hidraw discovery (`dualsense_find_hidraw`), and opening endpoints. The pairing file is a string, and lines are what `fgets` returns.
- `dualsense_thread` is left out: it only reads hidraw and calls `dualsense_process_input`.
- `adapter/src/main.c` and `main()` in Pi_B/main.py are left out: argument parsing, signals, banners and teardown.
- Pi B's connection setup (`setup_l2cap_server`, `accept_ds3_connection`, `setup_tcp_server`, `accept_tcp_connection`) is left out: it is blocking socket setup.
- `print_hex` and the periodic debug printouts are left out.
- `ds3_handle_set_report`'s 0xF4 and 0x01 branches only print; the model records that they change no report.
- `bt_hid_send_input_report`, `bt_hid_set_ps3_enabled` and `bt_hid_is_ps3_enabled` are not used by the relay and are left out.
- The touchpad flags, geometry and inactive bit (`g_touchpad_as_r3`, `DS_TOUCHPAD_WIDTH`/`HEIGHT`, `DS_TOUCH_INACTIVE`) are fields of `DualSense.TouchConfig`, because their definitions are not part of this model.
- `Crc32.Table.Calc`: the result equals the CRC only once the table is initialised. Before `dualsense_init`, the source would use a zero table, and the model states nothing about that result.
- `DualSenseOutput.OutputSender.SendOutput`: the frame equals `OutputReport` only once the CRC table is initialised. Its body is stated unconditionally.
- `BtHid.ConnectSpec`: the 100 ms pause between the two channel connects is not modelled.
- `TcpReceive.ReadExact`: a trace that runs dry mid-frame is reported as a stall. The source would spin on `BlockingIOError` until more bytes arrive.
- Any other exception inside `recv_tcp_packet` is the trace's `Failed` result. It yields `(-1, None)`, like a closed connection.

## Findings

| source | as written | input that shows it | evidently intended | confidence | as-written member | corrected member |
|---|---|---|---|---|---|---|
| adapter/src/bt_hid.c:201-207 | A frame that declares more than 256 bytes returns 0 with the payload left unread. The output thread then sends `len` bytes from its 256-byte buffer (adapter/src/bt_hid.c:651-654), and the unread payload's first bytes are taken as the next header. | a control frame `11 01 2C` followed by 300 payload bytes, with the control socket open | a frame too long for the buffer is read and discarded, so the thread never sends more than it read and the stream stays at a frame boundary | not executed; Pi B never produces such a frame, because it reads at most 256 bytes per packet (`Interop.NodeFrameReachesConsole`) | BtRelay.OversizeFrameOverreads | BtRelay.OutputStepFixedStaysInSync |
