# libxbee v1 driver core in Dafny

This project models the core of the libxbee v1 driver (`api.c`) for XBee
radio modems in API mode. A host talks to the radio in API frames: the
delimiter 0x7E, a big-endian length, a body whose first byte is the API
identifier, and a checksum byte that makes the body's sum `0xFF` modulo 256.
The bytes 0x11, 0x13, 0x7D and 0x7E are escaped as 0x7D followed by the byte
XOR 0x20. The driver keeps two lists:

- the **connections** the application opened, each a key made of a type,
  a frame ID and an address;
- the **packets** the receive loop decoded and has not handed out yet.

The modules follow the parts of the driver:

| file | module | what it holds |
|---|---|---|
| `types.dfy` | `Types` | bytes, `Option`, the `xbee_types` enumeration, byte sums, bit tests of the IO masks |
| `codec.dfy` | `Codec` | escaping, `xbee_make_pkt` (a method over an array, proved against the frame specification), `xbee_getByte`, one pass of the receive loop up to the checksum test |
| `decoder.dfy` | `Decoder` | the `xbee_pkt` record, the decoding of every frame type, the per-sample splitting of IO frames (a loop with a moving cursor), and the IO accessors |
| `connections.dfy` | `Connections` | the `xbee_con` record (a class, because the driver hands out and compares pointers), type normalisation and address packing of `xbee_newcon`, its lookup tests, `xbee_matchpktcon`, and list unlinking |
| `queue.dfy` | `Queue` | which queued packet `xbee_getpacket` takes, what a purge leaves, and what the receiver appends |
| `requests.dfy` | `Requests` | the request `xbee_nsenddata` writes into its `buf[128]` |
| `session.dfy` | `Session` | the global `xbee` state as a class with its connection list, packet list, unread input and written output, and the public operations as methods on it |

The serial line is modelled as values. What the radio has sent and the
driver has not read yet is the sequence `rx`. What the driver wrote is the
sequence `tx`. A read that would have to wait for more bytes is modelled as
a `Blocked` pass that consumes nothing.

## Model

| member | source | states |
|---|---|---|
| Types.SumAppend | api.c:1405-1408 | the running checksum sum of a concatenation is the sum of the parts |
| Types.Xor20Involutive | api.c:1290 | un-escaping (XOR 0x20) undoes escaping |
| Types.Bit | api.c:85-87 | the bit-n test of the masks, `!!(x & mask)` with `mask = 1 << n` |
| Types.BitBound | api.c:85-87 | a value with bit n set is at least 2^n |
| Types.MaskBits | api.c:1174 | bit k of `(hi<<8 \| lo) & 0x7FFF` is bit k of `lo` below 8 and bit k-8 of `hi` above |
| Types.DigitalBits | api.c:1177 | bit k (k < 8) of `(hi<<8 \| lo) & 0x01FF` is bit k of `lo` |
| Codec.StuffHasNoReservedRaw | api.c:1392-1404 | an escaped byte string holds no raw 0x7E, 0x11 or 0x13 |
| Codec.StuffAppend | api.c:1392-1404 | escaping works byte by byte: it distributes over concatenation |
| Codec.StuffPlain | api.c:1392-1404 | a string without reserved bytes is sent unchanged |
| Codec.Checksum | api.c:1384 | the checksum byte brings the sum of type, body and checksum to 0xFF modulo 256 |
| Codec.ChecksumOfSumTo | api.c:1382-1408 | the checksum is `0xFF - t % 256` for the running sum `t` of the loop |
| Codec.Framed | api.c:1360-1415 | the frame `xbee_make_pkt` builds: the delimiter followed by the escaped length, data and checksum (`7E FF FF FF` for no data); at least four bytes, starting with 0x7E |
| Codec.FramedShape | api.c:1369-1412 | a frame is 4 bytes longer than its data plus one per escape (the `l` the driver records), holds no 0x7E after the delimiter, and its checksum completes the sum |
| Codec.EmittedIsFramed | api.c:1382-1409 | the byte sequence the loop chooses (length bytes, data, checksum), escaped, after the delimiter, is the frame |
| Codec.WireThenStuff | api.c:1382-1409 | what the loop has written after k steps, followed by the remaining bytes escaped, is the whole escaped frame |
| Codec.StuffedSteps | api.c:1382-1409 | after all steps the loop has written the frame |
| Codec.NextByte | api.c:1383-1390 | the byte chosen at step `m` is the checksum, a length byte or a data byte, as the frame specification fixes |
| Codec.PutEscaped | api.c:1392-1404 | writing one byte appends its escaped form and counts the escape in `l` |
| Codec.CopyLoop | api.c:1373-1412 | the array loop writes exactly the delimiter followed by the escaped frame bytes |
| Codec.MakePkt | api.c:1360-1415 | no frame for more than 112 data bytes; otherwise exactly the framed data |
| Codec.GetByte | api.c:1282-1293 | `xbee_getByte`: one raw byte, or after 0x7D the next byte XOR 0x20; nothing at the end of the input; it always consumes input |
| Codec.GetBytesSnoc | api.c:1282-1293 | reading n+1 unescaped bytes is reading n and then one more |
| Codec.GetBytesNoneGrows | api.c:1282-1293 | once a read runs out of input, every longer read does too |
| Codec.GetByteOfEscaped | api.c:1282-1293 | `xbee_getByte` decodes the escaped form of a byte to that byte |
| Codec.GetBytesCons | api.c:1282-1293 | a byte read first is the first byte of a longer read |
| Codec.GetBytesOfStuff | api.c:1282-1293 | reading back an escaped string yields the string and leaves the rest of the stream |
| Codec.ListenIteration | api.c:819-885 | a pass consumes input when it finishes, skips exactly the bytes that are not a delimiter, and accepts at most 99 body bytes |
| Codec.ListenIterationOfFrame | api.c:827-885 | after a delimiter and a length of 1..100, the pass reads length+1 bytes and accepts them exactly when their sum is 0xFF modulo 256 |
| Codec.FramedWithRightChecksum | api.c:1382-1409 | a frame whose last byte is the checksum is the frame `xbee_make_pkt` builds |
| Codec.ChecksumTest | api.c:880 | the receiver's test `(chksum & 0xFF) == 0xFF` holds exactly for the right checksum byte |
| Codec.ReadStuffedFrame | api.c:827-869 | the receiver reads the length bytes and the body of an escaped frame back unchanged |
| Codec.ReadFramedWithChecksum | api.c:827-885 | a frame with any checksum byte is accepted as its type and body when the byte is right and dropped otherwise |
| Codec.FrameRoundTrip | api.c:819-885 | every frame `xbee_make_pkt` builds for 1..100 bytes is received as the same type byte and body, and the rest of the stream is left |
| Codec.WrongChecksumDiscarded | api.c:880-885 | a frame with a wrong checksum byte is dropped and reading goes on after it |
| Codec.HeaderOversized | api.c:838-843 | a length above 100 drops the frame after the two length bytes |
| Codec.OversizedFrameDropped | api.c:838-843 | a frame of 101..112 bytes, which `xbee_make_pkt` still builds, is dropped by the receiver |
| Codec.EmptyFrameDropped | api.c:1382-1409 | `xbee_make_pkt` of no data writes `7E FF FF FF`, which the receiver drops as oversized |
| Codec.ZeroLengthDropped | api.c:832-837 | a length of zero is dropped after the length bytes |
| Codec.SumUpdate | api.c:855-860 | changing one byte changes the sum by the difference |
| Codec.ShiftedResidue | api.c:880 | a non-zero change of less than 256 moves the sum off 0xFF modulo 256 |
| Codec.CorruptedByteRejected | api.c:855-885 | a frame with any one byte of body or checksum changed fails the checksum test |
| Codec.CorruptedBodyDropped | api.c:855-885 | a frame with one type or body byte changed, sent with the original checksum byte, is dropped and reading resumes right after it |
| Codec.NodeIdentifierSum | api.c:1382-1408 | the bytes of the local AT command `NI` with frame ID 1 sum to 0xA0 |
| Codec.NodeIdentifierLogical | api.c:1360-1415 | the logical frame of that command is its length `00 04`, the command bytes and checksum 0x5F |
| Codec.NodeIdentifierFrame | api.c:1360-1415 | that command is framed as `7E 00 04 08 01 4E 49 5F` |
| Decoder.Blank | api.c:888-890 | a fresh record is well formed, with no data, no mask and no digital word |
| Decoder.OnBeforeGrows | api.c:1183-1188 | a channel's word comes no later than the words of all enabled channels |
| Decoder.DecodeFixed | api.c:893-1096 | the fixed layouts of the non-IO types: a well-formed packet with no IO fields whose type gives the type byte back, or an `Unknown` packet for any other type byte |
| Decoder.IOChain | api.c:1123-1188 | the packets of the sample loop, one per sample, each read one sample size after the previous |
| Decoder.Decode | api.c:887-1218 | an IO frame decodes to one packet per sample, any other frame to one packet |
| Decoder.CopyTail | api.c:950-951 | the copy loop yields the bytes from the given offset on |
| Decoder.ReadAnalog | api.c:1183-1188 | the six analog tests read the words of enabled channels in order and advance the cursor by two per enabled channel |
| Decoder.IOChainStep | api.c:1123-1188 | a chain of n samples is one sample followed by the chain of the rest, one sample size on |
| Decoder.ReadSample | api.c:1128-1188 | one loop iteration builds exactly the sample packet for the cursor and moves the cursor by the sample size |
| Decoder.SampleLoop | api.c:1123-1188 | the sample loop builds exactly the chain the IO specification gives |
| Decoder.DecodeIO | api.c:1097-1209 | the IO branch builds exactly `Decode` of the frame |
| Decoder.DecodeFrame | api.c:887-1218 | the dispatch on the type byte builds exactly `Decode` of the frame |
| Decoder.FixedDecodeLossless | api.c:893-1096 | a known non-IO frame gives a well-formed packet of the matching type from which its body (or its fixed part) is recovered, and an unknown type gives a blank packet of type unknown |
| Decoder.ATBodyLossless | api.c:924-1009 | the fields of a decoded local or remote AT response, laid out again, are the whole frame body |
| Decoder.DataBodyLossless | api.c:1037-1097 | the fields of a decoded 64- or 16-bit data frame, laid out again, are the whole frame body |
| Decoder.TxStatusExample | api.c:1009-1035 | the TX status frame `89 03 01` decodes to frame ID 3 and status 1 |
| Decoder.IOChainShares | api.c:1128-1174 | every packet of an IO chain carries the frame's type, address, signal strength, options and mask |
| Decoder.IOChainAt | api.c:1120-1188 | packet j of a chain is the sample at `c + j * size` |
| Decoder.ChannelsBit | api.c:1183-1188 | analog channel k is enabled by bit k+1 of the high mask byte |
| Decoder.HasDigital | api.c:81-88 | `xbee_hasdigital`: the line is 0..7 and its mask bit is set |
| Decoder.GetDigital | api.c:92-99 | `xbee_getdigital`: the line is in the mask and its digital-word bit is set |
| Decoder.HasAnalog | api.c:103-110 | `xbee_hasanalog`: the channel is 0..5 and mask bit 9+input is set |
| Decoder.AccessorBounds | api.c:81-110 | a line or channel out of range is never present; a present one makes the mask at least its bit's value; only a present line reads high, and then the digital word is at least its bit's value |
| Decoder.AnalogRaw | api.c:114-121 | `xbee_getanalog` with a zero reference: a non-zero result is the stored word of a sampled channel |
| Decoder.SampleDigital | api.c:81-99 | for a decoded sample, `xbee_hasdigital` is bit k of the low mask byte and `xbee_getdigital` adds bit k of the low digital-word byte |
| Decoder.SampleAnalog | api.c:103-121 | for a decoded sample, `xbee_hasanalog` is bit k+1 of the high mask byte, and the raw `xbee_getanalog` is the channel's word modulo 0x400 when enabled and 0 otherwise |
| Decoder.SampleAccessors | api.c:81-121 | for a decoded sample, `xbee_hasdigital`, `xbee_getdigital`, `xbee_hasanalog` and the raw `xbee_getanalog` are the mask bits, the digital-word bits and the enabled channels' words modulo 0x400, and 0 otherwise |
| Decoder.GetAnalogAsWritten | api.c:115-121 | without a reference voltage the raw word of a sampled channel, 0 for a channel not sampled |
| Decoder.GetAnalog | api.c:115-121 | the word of the asked channel, scaled by `Vref / 1024` when a reference is given; 0 for a channel not sampled |
| Decoder.GetAnalogAgrees | api.c:115-121 | the driver's result is the intended one for channel 0 and for a zero reference |
| Decoder.AsWrittenScalesChannelZero | api.c:119 | with a reference, asking for channel 1 answers channel 0's scaled word |
| Decoder.DecodeIOAsWritten | api.c:1097-1209 | the IO decoding whose analog tests read `d[11]` yields one packet per sample |
| Decoder.AsWrittenAgreesOn64 | api.c:1183-1188 | for 64-bit IO frames, where `d[11]` is the high mask byte, the driver's decoding is the intended one |
| Decoder.Io16Layout | api.c:1100-1188 | the 16-bit example frame has no digital word, analog channel 0 in its mask, and a clear bit 1 at `d[11]` |
| Decoder.AsWrittenChannelZero | api.c:1183-1188 | whenever a 16-bit frame's mask enables channel 0 but bit 1 of `d[11]` is clear, the driver's first packet says channel 0 is sampled and reports 0 for it |
| Decoder.AsWrittenAnalogMissed | api.c:1183-1188 | in the 16-bit example the driver's first packet says channel 0 is sampled and reports 0 for it |
| Decoder.ChannelZeroRead | api.c:1097-1188 | in a 16-bit IO frame with only analog channel 0, packet j reports sample j's word modulo 0x400 |
| Decoder.IntendedAnalogRead | api.c:1097-1188 | in a 16-bit frame laid out as the example (no digital word, channel 0 only, first sample word `01 23`), the intended decoding's first packet says channel 0 is sampled and reports 0x123 |
| Decoder.Io16Intended | api.c:1097-1188 | the 16-bit example frame has that layout |
| Decoder.Io16Words | api.c:1183-1188 | the three sample words of the 16-bit example are 0x123, 0x234 and 0x045 |
| Connections.Con.constructor | api.c:389-401 | a new connection holds the key it was made for, is 64-bit exactly for the 64-bit types, and has all flags clear |
| Connections.NormaliseType | api.c:301-302 | unknown becomes local AT, generic remote AT becomes 64-bit remote AT, and every other type stays |
| Connections.NormaliseIdempotent | api.c:301-302 | normalising twice is normalising once |
| Connections.Be32Value | api.c:309-318 | the four bytes `(t >> 24) & 0xFF … t & 0xFF` are the unsigned value of `t`, big-endian |
| Connections.Be16Value | api.c:324-325 | the two bytes `(t >> 8) & 0xFF, t & 0xFF` are the low 16 bits of `t`, big-endian |
| Connections.PackAddress | api.c:305-337 | 64-bit types pack both integers into 8 bytes, 16-bit types pack one into 2 bytes and zeros, other types get zeros |
| Connections.PackAddressValue | api.c:305-337 | the packed bytes read back, big-endian, as the integers given |
| Connections.KeyMatches | api.c:344-372 | the four tests of the lookup loop of `xbee_newcon`; a connection of another type is never accepted |
| Connections.KeyMatchesOwn | api.c:344-372 | the lookup for a connection's own key finds it |
| Connections.FirstKey | api.c:344-386 | the lookup returns the first listed connection its tests accept, and nothing exactly when none is accepted |
| Connections.FirstKeyAppend | api.c:438-444 | appending a connection leaves every earlier lookup result and adds a hit only where no earlier connection answers |
| Connections.KeysDistinctAppend | api.c:344-444 | a connection appended because its lookup failed keeps every pair of listed connections apart |
| Connections.KeyMatchesSymmetric | api.c:344-372 | the lookup tests are symmetric between two connections |
| Connections.Match | api.c:775-801 | `xbee_matchpktcon`: the types agree (a remote AT response and a remote AT connection of either width), then a modem status always matches, AT and status responses match on the frame ID, and the rest on the 8- or 2-byte source address |
| Connections.MatchOwnType | api.c:775-801 | a packet reaches only a connection of its own type, except that a remote AT response reaches a remote AT connection of either width |
| Connections.MatchDependsOnHeader | api.c:775-801 | `xbee_matchpktcon` reads only the type, frame ID and address of a packet |
| Connections.UnknownNeverRouted | api.c:775-801 | a packet of type unknown matches no connection |
| Connections.DecodedRouting | api.c:775-801 | any packet of a decoded frame matches a connection exactly when the frame is addressed to it |
| Connections.IORouting | api.c:1128-1174 | every sample packet of an IO frame matches a connection exactly when the frame is addressed to it |
| Connections.FixedRouting | api.c:893-1096 | the packet of a non-IO frame matches a connection exactly when the frame is addressed to it |
| Connections.Unlink | api.c:747-754 | unlinking position k keeps the elements before it and shifts those after it down by one |
| Connections.UnlinkRemoves | api.c:475-490 | unlinking a connection from a list without repeats removes it, keeps every other one, and keeps the list without repeats |
| Connections.UnlinkAsWritten | api.c:475-490 | the unlink of `xbee_endcon2` removes one element |
| Connections.UnlinkHeadAsWritten | api.c:475-490 | for the list `[1, 2]` and the head, the driver's unlink leaves `[1]` where `[2]` is meant |
| Connections.UnlinkAsWrittenAwayFromHead | api.c:475-490 | away from the head, the driver's unlink is the intended one |
| Queue.FirstMatch | api.c:724-736 | the position of the first queued packet that matches, and nothing exactly when none matches |
| Queue.Unmatched | api.c:497-523 | the packets a purge for a connection keeps, in queue order; never more than the queue held |
| Queue.UnmatchedMembers | api.c:497-523 | a purge keeps exactly the packets that do not match |
| Queue.UnmatchedAppend | api.c:497-523 | purging distributes over concatenation |
| Queue.UnmatchedOfNoMatch | api.c:497-523 | a queue with no match is kept whole |
| Queue.UnmatchedOfMatch | api.c:497-523 | a single matching packet is purged |
| Queue.UnlinkFirstMatchKeepsUnmatched | api.c:458-463 | taking out the first match leaves what a purge would keep unchanged |
| Queue.UnmatchedIdempotent | api.c:497-523 | after a purge nothing matches, and purging twice is purging once |
| Queue.FirstMatchAppend | api.c:724-736 | packets of one connection leave in arrival order: later packets are taken only when no earlier one matches |
| Queue.Routed | api.c:1224-1264 | the receiver appends the whole chain or nothing |
| Queue.RoutedFrame | api.c:1224-1264 | the chain of a frame is appended exactly when a listed connection is the one it is addressed to, and dropped otherwise |
| Requests.Options | api.c:663 | bit 0 of the options byte disables the ACK and bit 2 broadcasts |
| Requests.SendRequest | api.c:560-686 | `xbee_nsenddata` up to `xbee_make_pkt`: refused, not sent, or a request of at most 127 data bytes after the header its type fixes |
| Requests.SendRequestCases | api.c:560-686 | -1 exactly for no connection, an unknown type, more than 127 bytes or an AT command under 2 bytes; -2 exactly for the other types; otherwise the header of the type's size followed by the data |
| Requests.RemoteRequestParses | api.c:608-629 | a remote AT request parses back to the connection's frame ID, the address for its width, the apply flag and the data |
| Requests.TransmitRequestParses | api.c:640-668 | a 16- or 64-bit transmit request parses back to the connection's frame ID, address, options and the data |
| Requests.RequestParses | api.c:584-675 | the request carries the connection's queue flag, frame ID, address for its width, options and the data unchanged |
| Requests.CopyData | api.c:594-597 | the copy loop writes the data after the header and leaves the header alone |
| Requests.LocalHeader | api.c:590-592 | identifier 0x08 (0x09 when queued) and the frame ID |
| Requests.RemoteHeader | api.c:611-624 | 0x17, the frame ID, the 64-bit address and 0xFFFE or zeros and the 16-bit address, and the apply option |
| Requests.DataHeader | api.c:644-663 | 0x01 or 0x00, the frame ID, the 2- or 8-byte destination and the options byte, and the data offset |
| Requests.BuildRequest | api.c:560-686 | the buffer code builds exactly the request of the specification |
| Session.Delivered | api.c:1219-1275 | only an accepted frame delivers packets |
| Session.Receive | api.c:819-1275 | the receive loop never grows the unread input |
| Session.ReceiveFrame | api.c:819-1275 | a frame built by `xbee_make_pkt` is received as that response, then the rest of the stream |
| Session.ReceiveSkipsNoise | api.c:821 | a byte that is not a delimiter is skipped |
| Session.ReceiveStep | api.c:819-1275 | a run is one finished pass followed by the run on what is left |
| Session.Xbee.constructor | api.c:171-178 | a driver starts with no connections and no packets |
| Session.Xbee.NewCon | api.c:292-452 | the type normalised and the address packed, the first listed connection the lookup accepts is returned unchanged, or else a new connection with the key and clear flags is appended; either way a second lookup finds what was returned |
| Session.Xbee.NewConTwice | api.c:292-452 | opening the same connection twice returns the same connection and adds at most one |
| Session.Xbee.GetPacket | api.c:705-770 | the first matching packet is returned and unlinked; with no match nothing changes |
| Session.Xbee.GetPacketWait | api.c:692-704 | twenty attempts give the same result as one, because nothing else fills the queue |
| Session.Xbee.FlushCon | api.c:458-463 | the queue loses exactly the packets of the connection |
| Session.Xbee.EndCon | api.c:468-528 | the connection leaves the list, every other stays, the state stays valid, and the queue loses exactly its packets |
| Session.Xbee.Purge | api.c:497-523 | the purge loop keeps exactly the packets that do not match |
| Session.Xbee.SendData | api.c:560-686 | the return code of the request, and the frame of the request written to the line exactly when there is one |
| Session.Xbee.ReadByte | api.c:1282-1293 | one unescaped byte is taken from the input, or nothing is consumed at its end |
| Session.Xbee.ReadFrame | api.c:849-869 | the type byte, the body and the checksum byte are read, with their sum |
| Session.Xbee.ReadBody | api.c:855-866 | the body loop reads `length - 1` bytes and sums them |
| Session.Xbee.ReadLength | api.c:827-829 | the two length bytes are read as a big-endian length |
| Session.Xbee.FindCon | api.c:1224-1233 | the scan finds a connection exactly when one matches |
| Session.Xbee.ListenOnce | api.c:819-1275 | one pass is the pass of the specification: it blocks without consuming, or consumes its bytes and appends the routed packets |
| Session.Xbee.Deliver | api.c:887-1275 | decoding and routing an accepted frame appends exactly the delivered packets |
| Session.Xbee.Listen | api.c:819-1275 | the loop appends exactly the packets the receive specification delivers and stops where it blocks |
| Connections.FirstKeyIs | api.c:344-386 | a connection accepted with none before it accepted is the lookup's answer |
| Session.FirstMatchIs | api.c:724-736 | a matching packet with no match before it is the packet taken |

## Left out

- The serial port, `select`, `usleep`, the listener thread and the three mutexes are not modelled. One caller owns the state, and the line is the pair of sequences `rx` and `tx`.
- `xbee_getRawByte` treats a read of zero bytes with `continue` inside `do … while (0)`, so it returns an uninitialised byte. The model treats the end of the input as waiting for more, a `Blocked` pass that consumes nothing.
- Logging through `xbee.log` is left out, including the unconditional `fprintf` for IO connections in `xbee_nsenddata`.
- `Xmalloc`/`Xcalloc` failures (which `exit`) are left out. So are the frees, including the leak on a routing miss: only the last packet of the chain is freed, so every packet before it leaks.
- `xbee_setup` and `xbee_setuplog` (opening the port, starting the thread) are reduced to the constructor of `Xbee`. `xbee_senddata` and `xbee_vsenddata` (formatting through `vsnprintf`) are not part of this model. `main.c` is not part of this model.
- `xbee_endcon` (the macro over `xbee_endcon2`) and its clearing of the caller's pointer are left out: the model has no pointer to a pointer.
- The numeric values of the `xbee_types` enumeration come from `api.h`, which is not part of this model. The model assumes `xbee_unknown` is zero, so `!type` and `type == xbee_unknown` coincide. It also assumes a zeroed record has type `xbee_unknown`.
- Packets are records without the `next` link (a chain is a sequence). They also lack the per-kind flags `dataPkt`, `txStatusPkt` and so on, which the decoder sets from the type alone.
- A frame whose body is shorter than the fixed layout of its type makes the driver read stale bytes of `d[]` (and, for AT and data frames, underflow `i` when computing `datalen`). The model drops such frames (`Decodable`). An IO frame with zero samples yields a zeroed record of type unknown, which matches no connection; the model drops it too, with the same effect.
- The receiver's body loop stops at 128 bytes, a bound the 100-byte length limit never reaches. The model reads `length - 1` bytes.
- Decoder.GetAnalog: real arithmetic stands for the C `double`, so rounding is not modelled.
- Requests.BuildRequest: requires the request to fit `buf[128]`. A remote AT request with 127 data bytes is 140 bytes long, and the driver writes past the end of `buf`; the model does not describe that overflow.
- Session.Xbee.SendData: requires a request of at most 112 bytes. For a longer one `xbee_make_pkt` returns NULL, which `xbee_send_pkt` dereferences, and a request of more than 128 bytes also overflows `buf[128]`.
- Session.Xbee.EndCon: requires the connection to be listed, or the list to be empty. For an unlisted connection in a non-empty list, and for the only connection of a one-element list, the driver dereferences NULL.
- Session.Xbee.EndCon: the purge loop of `xbee_endcon2` frees a matching packet with `Xfree`, which sets `p` to NULL, and then reads `p->next`, so the purge dereferences NULL at the first matching packet. The model keeps the intended filter.
- Session.Xbee.GetPacketWait: the 50 ms waits are gone. Because nothing fills the queue between attempts here, the twenty attempts behave as one.
- Lengths are the lengths of the given sequences: a negative `length` argument to `xbee_nsenddata` cannot be expressed.

## Findings

| source | as written | input that shows it | evidently intended | confidence | as-written member | corrected member |
|---|---|---|---|---|---|---|
| api.c:475-490 | `u = t = xbee.conlist` and then `u->next = u->next->next` for the found connection, so closing the head unlinks its successor | the list `[1, 2]`, closing position 0 | the head is unlinked by moving `xbee.conlist` to its successor | not executed | Connections.UnlinkHeadAsWritten | Session.Xbee.EndCon |
| api.c:1183-1188 | the analog tests read bit 1..6 of `d[11]`, which is the high mask byte only for 64-bit frames (`offset + 3` with `offset = 8`) | a 16-bit IO frame with mask 0x0200 and byte 11 = 0x00 | test bit 1..6 of `d[offset + 3]` | not executed | Decoder.AsWrittenAnalogMissed | Decoder.IntendedAnalogRead |
| api.c:119 | with a non-zero `Vref` the result scales `IOanalog[0]` whatever channel was asked for | channels 0 and 1 at 0x100 and 0x200, channel 1, `Vref` 1024 | scale `IOanalog[input]` | not executed | Decoder.AsWrittenScalesChannelZero | Decoder.GetAnalog |
