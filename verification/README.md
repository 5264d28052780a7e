# obs-zcamera in Dafny

A model of the self-contained cores of the obs-zcamera OBS plugin, with proofs about every input,
every run or every interleaving.

- **Bit-depth sniffer** (`Bits`, `Sps`, `Nal`, `NalStream`, `NalPrefixed`): the start-code scanner,
  the removal of emulation prevention, the bit and Exp-Golomb readers and the H.264 and H.265 SPS
  walks, against encoders written from the standards. Four intended properties are false of the code
  and are stated with their exact conditions: the Annex B loop steps over every second unit; the
  H.265 walk is right on all SPS with m sub-layers only for m = 0, and on all whose sub-layers carry
  no data only for m = 0 and m = 4; profile 135 is not in the H.264 list; and the length of a
  length-prefixed unit can be taken for a start code. The answer is given for every list of units,
  and for ordinary H.264 units it is wrong exactly when a chunk between such lengths passes for an
  SPS and the right answer is not 8: a ten-bit SPS in a unit of 263 octets is reported as 8 bits,
  and so is any SPS in front of a slice of 263 octets.
- **WebSocket client** (`WebSocket`): incremental frame parsing, frame writing, upgrade hand-over.
  Two properties hold only under a condition, stated exactly: cuts into reads are invisible while
  the header stays within its size limit, and behind a close frame only while no text frame stands
  there.
- **Camera HTTP transport and settings** (`Digest`, `Transport`, `Settings`): challenge parameters,
  nonce counting, the one-at-a-time queue with re-entrant callbacks and the settings reader on top.
  The rule of RFC 2617 on nonce counts is met exactly when no nonce comes back.
- **Source lifecycle** (`Lifecycle`, `LifecycleDiscipline`, `LifecycleSafety`, `LifecycleDeadlock`,
  `LifecycleSilence`, `LifecycleAlone`): four threads as small-step programs over five locks, with a
  static discipline, a census of frames and decoders, and freedom from cycles of waits. What is left
  is a join that waits for a silent pipe, and it is shown to be reachable. `LifecycleAlone` says what
  each handler does when nothing interferes. `Handlers` takes every handler as one step and tracks
  which decoder is installed, down from the bits of the parameter set that decides it.
- **DNS codec** (`Dns`, `DnsNames`, `DnsPacket`, `DnsAnswer`, `DnsBuilder`): compressed names, the
  answer builder and the record walk.
- **Pipe and frame queue** (`Pipe`, `PipeProof`, `PipeWire`, `PipeIO`, `FrameQueue`): packed
  messages over short reads, and the dropping queue, which after stop takes at most one more frame
  and leaves the others unfreed.

Objects that the program updates in place are classes whose methods are proved against functions on
a state value; the properties are proved about these functions over all runs. In the lifecycle
model, calls whose outcome is foreign (creation, decode, import, timing) and tests on data outside
the model are free choices, and each thread carries the facts known at its program point, which the
proofs show to be true.

Check everything with `dafny verify dfyconfig.toml`.

## Model

| member | source | states |
|---|---|---|
| `Bits.BitReader.Read` | src/hwdecode/hw_decode.c:121-133 | Reading n bits advances the position and returns the value of the next n bits of the payload, with the code's behaviour past the end |
| `Bits.ReadU` | src/hwdecode/hw_decode.c:121-133 | A field written with n bits anywhere in a payload is read back as the same number, and the position moves past it |
| `Bits.BitReader.ReadExpGolomb` | src/hwdecode/hw_decode.c:136-147 | The Exp-Golomb reader computes the specified value and position, including its limit of 32 leading zeros |
| `Bits.ReadUeAt` | src/hwdecode/hw_decode.c:136-147 | Every ue(v) code word up to 2^32 - 2 (section 9.1 of H.264, section 9.2 of H.265) is read back as its value |
| `Bits.ReadUeGivesUp` | src/hwdecode/hw_decode.c:136-147 | A run of 32 zeros, or of zeros to the end of the data, reads as 0 and leaves the reader behind it |
| `Bits.ReadUeCut` | src/hwdecode/hw_decode.c:121-147 | In a code word cut off behind its leading one the missing low bits count as 0 |
| `Bits.BitsOfPack` | src/hwdecode/hw_decode.c:115-133 | Octets packed from a bit string are read as that bit string |
| `Sps.SpsH264BitDepth` | src/hwdecode/hw_decode.c:188-220 | The H.264 walk on octets equals the walk on their bits |
| `Sps.H264DepthOfEncoded` | src/hwdecode/hw_decode.c:188-220 | For every SPS encoded per section 7.3.2.1.1 of H.264 the walk returns 8 + bit_depth_luma_minus8 when the profile is in the code's list, else 8 |
| `Sps.H264DepthExact` | src/hwdecode/hw_decode.c:196-219 | That is the depth the standard declares if and only if it is not profile 135 with a depth above 8: the standard lists that profile, the code does not |
| `Sps.SpsHevcBitDepth` | src/hwdecode/hw_decode.c:223-275 | The H.265 walk on octets equals the walk on their bits |
| `Sps.HevcDepthOfEncoded` | src/hwdecode/hw_decode.c:223-275 | For every SPS without sub-layers encoded per sections 7.3.2.2 and 7.3.3 of H.265 the walk returns 8 + bit_depth_luma_minus8 |
| `Sps.SubLayersMisread` | src/hwdecode/hw_decode.c:242-259 | For each number of sub-layers from 1 to 6 there is a family of well-formed SPS, of any depth, that the walk reports as 8 |
| `Sps.HevcDepthExact` | src/hwdecode/hw_decode.c:242-259 | The walk is right on all SPS with m sub-layers if and only if m is 0 |
| `Sps.BareDepthExact` | src/hwdecode/hw_decode.c:242-259 | Among the SPS whose sub-layers carry no data, the walk is right on all with m sub-layers if and only if m is 0 or 4 |
| `Nal.NalToRbsp` | src/hwdecode/hw_decode.c:171-185 | The in-place loop writes the payload with emulation-prevention octets removed, no longer than its input |
| `Nal.UnescapeEscapeExact` | src/hwdecode/hw_decode.c:171-185 | Removing emulation prevention undoes the escaping of section 7.3.1 of H.264 and section 7.3.1.1 of H.265 if and only if the payload ends in an even number of zero octets, as every payload of the standards does; otherwise a final 3 stays |
| `Nal.UnescapeEscapeThen` | src/hwdecode/hw_decode.c:171-185 | The same when further octets are counted into the unit |
| `Nal.EscapedUnitIsClean` | src/hwdecode/hw_decode.c:151-185 | An escaped unit contains no start code and does not end in zero, so a scanner never splits it |
| `Nal.NalFindStart` | src/hwdecode/hw_decode.c:151-167 | The scanning loop returns the offset that the specification function gives |
| `Nal.NextStartIsFirst` | src/hwdecode/hw_decode.c:151-167 | That offset follows the first start code at or after the search position; none is reported exactly when there is none |
| `Nal.NextAfterUnit` | src/hwdecode/hw_decode.c:151-167 | From inside a clean unit the scanner stops at the start code of the next one |
| `Nal.TrySpsUnit` | src/hwdecode/hw_decode.c:291-307 | A unit is read as an SPS when its payload fits 2048 octets, with the depth of its unescaped payload |
| `Nal.AnnexBLoop` | src/hwdecode/hw_decode.c:309-330 | The Annex B loop, restarting its search at the start of the following unit |
| `Nal.PrefixedLoop` | src/hwdecode/hw_decode.c:332-350 | The loop over 4-byte lengths, with its exits on zero and overlong lengths |
| `Nal.NalBitDepth` | src/hwdecode/hw_decode.c:277-353 | The whole sniffer: Annex B pass first, then length prefixes, 0 when unknown |
| `NalStream.AnnexBScansEvenUnits` | src/hwdecode/hw_decode.c:309-330 | On every stream of escaped units the loop examines exactly the units 0, 2, 4, ... |
| `NalStream.AnnexBExact` | src/hwdecode/hw_decode.c:309-330 | It reports the first usable SPS at an even position; this is the first usable SPS of the stream if and only if that one stands at an even position |
| `NalStream.VpsThenSpsIsMissed` | src/hwdecode/hw_decode.c:309-353 | A short VPS followed by any SPS is answered with 0 |
| `NalStream.OtherFirstExact` | src/hwdecode/hw_decode.c:309-353 | Every access unit below 16 MiB, of either codec, that starts behind a four-octet start code with a unit other than an SPS, its second octet not zero, is answered with its first usable SPS at an even position, and with 0 when there is none |
| `NalStream.VpsFirstExact` | src/hwdecode/hw_decode.c:309-353 | Every H.265 access unit below 16 MiB that starts with a VPS behind a four-octet start code is answered with its first usable SPS at an even position, and with 0 when there is none |
| `NalStream.DelimiterFirstIsMissed` | src/hwdecode/hw_decode.c:309-353 | Every H.264 access unit with a delimiter first and its SPS at odd positions only is answered with 0 |
| `NalStream.H264StreamDepth` | src/hwdecode/hw_decode.c:121-353 | Every H.264 SPS, escaped and placed first in an Annex B stream followed by anything, is reported with its depth |
| `NalStream.HevcStreamDepth` | src/hwdecode/hw_decode.c:121-353 | The same for every H.265 SPS without sub-layers |
| `NalPrefixed.AccidentExact` | src/hwdecode/hw_decode.c:309-350 | A length-prefixed buffer of clean units holds a start code if and only if one unit has 256 to 511 octets, a size that is 1 modulo 2^24, a size that is 0 modulo 2^16 and a first octet 1, or a size that is 0 modulo 256 and first octets 0 and 1 |
| `NalPrefixed.AnnexBOfAnyBytes` | src/hwdecode/hw_decode.c:309-330 | For every byte string the Annex B pass answers with the first usable one of the first, third, fifth, ... chunk between start codes, each measured to the end of the next |
| `NalPrefixed.ListStartsAreAll` | src/hwdecode/hw_decode.c:151-167 | The start codes of a length-prefixed buffer of clean units stand exactly where the sizes and first octets of its units put them |
| `NalPrefixed.PrefixedExact` | src/hwdecode/hw_decode.c:277-353 | The answer to every length-prefixed buffer of clean units: the first usable even chunk between those start codes, and where there is none the first usable unit |
| `NalPrefixed.PrefixedStreamDepth` | src/hwdecode/hw_decode.c:332-350 | Without such a unit the buffer is answered with the first usable SPS of all its units |
| `NalPrefixed.PrefixedHevcSps` | src/hwdecode/hw_decode.c:332-350 | Every length-prefixed H.265 buffer of clean units without an accident: an SPS without sub-layers, its type field 33, behind units of other types, is reported with its coded depth |
| `NalPrefixed.PrefixedH264Sps` | src/hwdecode/hw_decode.c:332-350 | The same for every H.264 SPS, its type field 7 |
| `NalPrefixed.SearchEnds` | src/hwdecode/hw_decode.c:332-350 | The prefixed search ends at fewer than four octets, at a length of zero and at a length beyond the end of the buffer |
| `NalPrefixed.OneLengthTaken` | src/hwdecode/hw_decode.c:277-353 | With one unit of 256 to 511 octets at any place as the one accident, the answer is that of the prefixed search unless the last octet of its length reads as an SPS header and the rest fits 2048 octets; then it is the depth read from everything behind it |
| `NalPrefixed.OneLengthEight` | src/hwdecode/hw_decode.c:277-353 | For H.264 and a unit whose first octet is no listed profile that answer is 8, exactly when its size is 7 modulo 32 and at most 2052 octets are left |
| `NalPrefixed.OrdinaryExact` | src/hwdecode/hw_decode.c:277-353 | Every list of ordinary H.264 units, with any number of accidents: the answer is 8 when a first, third, ... chunk passes for an SPS, else the first usable unit; so it is right if and only if no such chunk passes or the right answer is 8 |
| `NalPrefixed.SliceHidesSps` | src/hwdecode/hw_decode.c:277-353 | A failing family: any H.264 SPS in a unit below 256 octets, of whatever depth, followed by an IDR slice of 263 octets, is answered with 8 |
| `NalPrefixed.TenBitsReadAsEight` | src/hwdecode/hw_decode.c:309-350 | A failing input: a ten-bit High 10 SPS in a unit of 263 octets, alone in its buffer, is answered with 8 |
| `WebSocket.ReadLength` | src/cameractrl/zc_ws_client.cpp:226-241 | The three length encodings of section 5.2 of RFC 6455 |
| `WebSocket.TakeFrame` | src/cameractrl/zc_ws_client.cpp:221-252 | One frame is cut from the buffer, unmasked, or more bytes are awaited; a length that does not survive the conversion to int is told apart |
| `WebSocket.ApplyMask` | src/cameractrl/zc_ws_client.cpp:248-251 | The masking loop of section 5.3 |
| `WebSocket.MaskTwice` | src/cameractrl/zc_ws_client.cpp:248-251 | Masking twice with the same key gives back every byte string |
| `WebSocket.MaskBits` | src/cameractrl/zc_ws_client.cpp:248-251 | Each bit of a masked octet is set exactly when it differs between the octet and its key octet (section 5.3) |
| `WebSocket.ConversionExact` | src/cameractrl/zc_ws_client.cpp:226-252 | Once a header has arrived, the parser agrees with one that keeps the declared length, whatever arrives later, if and only if header and payload together stay within INT_MAX |
| `WebSocket.ParseServer` | src/cameractrl/zc_ws_client.cpp:220-252 | Every unmasked frame, whatever follows it, is parsed as its FIN bit, opcode and payload |
| `WebSocket.ServerEffects` | src/cameractrl/zc_ws_client.cpp:254-265 | A final text frame emits its payload and an unfinished one the error, a ping is answered with its payload, a close frame disconnects, every other frame is passed over |
| `WebSocket.Client.HandleIncoming` | src/cameractrl/zc_ws_client.cpp:216-268 | The parse loop consumes every complete frame, emits its effects in order, sends pongs only on a connected socket, and stops at a close frame with later bytes still buffered |
| `WebSocket.Client.OnReadyRead` | src/cameractrl/zc_ws_client.cpp:157-200 | The upgrade: bytes are collected up to the blank line, the header is judged, and what follows it goes to the frame parser |
| `WebSocket.HeaderEndsAt` | src/cameractrl/zc_ws_client.cpp:162 | The header ends at the first two line ends of carriage return and line feed in a row |
| `WebSocket.HeaderNeverEnds` | src/cameractrl/zc_ws_client.cpp:160-168 | A stream without a header end is reported as too large by every read that finds more than 16384 bytes, and has no other effect |
| `WebSocket.RefusedUpgrade` | src/cameractrl/zc_ws_client.cpp:169-188 | A refused header is reported once it is complete, and nothing behind it is parsed |
| `WebSocket.DrainAppend` | src/cameractrl/zc_ws_client.cpp:216-268 | Parsing a longer buffer is parsing its front and then its rest |
| `WebSocket.OpenRun` | src/cameractrl/zc_ws_client.cpp:216-268 | On an open connection the effects up to the first close (or lost length) do not depend on how the stream is cut into reads |
| `WebSocket.UpgradeRun` | src/cameractrl/zc_ws_client.cpp:157-200 | The same from any point inside the upgrade |
| `WebSocket.ChunkingIsInvisible` | src/cameractrl/zc_ws_client.cpp:157-268 | For every stream with an accepted upgrade and every way to cut it into reads, the text, error, pong and close effects up to the first close (or lost length) are those of one parse of the whole stream |
| `WebSocket.ChunkingExact` | src/cameractrl/zc_ws_client.cpp:157-200 | For an accepted header of any size that holds if and only if all but its last byte stay within the size limit |
| `WebSocket.DrainToClose` | src/cameractrl/zc_ws_client.cpp:254-265 | What stays buffered at a close frame is exactly the rest of the input, and the bytes before it parse to the same effects on their own |
| `WebSocket.WholeRunsExact` | src/cameractrl/zc_ws_client.cpp:216-273 | All effects, those behind a close frame included, are independent of the cuts if and only if no text frame and no lost length stands behind the first close frame |
| `WebSocket.CloseThenText` | src/cameractrl/zc_ws_client.cpp:254-261 | A failing input: any text frame directly behind a close frame |
| `WebSocket.CloseThenOthers` | src/cameractrl/zc_ws_client.cpp:254-273 | Any list of written frames without text behind a close frame is harmless: pings there go unanswered in every cut |
| `WebSocket.WriteFrame` | src/cameractrl/zc_ws_client.cpp:270-298 | Nothing is written on a socket that is not connected; otherwise the loops produce a final, masked frame with the shortest length form |
| `WebSocket.ParseWritten` | src/cameractrl/zc_ws_client.cpp:216-298 | The parser reads a written frame back as its opcode and payload, whatever follows |
| `WebSocket.LengthFieldIsMinimal` | src/cameractrl/zc_ws_client.cpp:276-291 | No frame header that declares the same length is shorter |
| `WebSocket.FramesOfWritten` | src/cameractrl/zc_ws_client.cpp:216-298 | Every list of opcodes, payloads and keys, written one after the other, parses back to that list |
| `WebSocket.DrainIsEffectsOfFrames` | src/cameractrl/zc_ws_client.cpp:254-265 | The effects are those of the frames in order, up to a close or a lost length |
| `WebSocket.PongsAnswerPings` | src/cameractrl/zc_ws_client.cpp:157-273 | For every stream with an accepted upgrade and every way to cut it, the pongs ever sent carry exactly the payloads of the pings in front of the first close frame, in order (section 5.5.3) |
| `Digest.DigestParam` | src/cameractrl/zc_http_transport.cpp:76-105 | The cursor loop terminates and computes the specified parameter value |
| `Digest.DigestParamOfPrinted` | src/cameractrl/zc_http_transport.cpp:76-105 | For every list of parameters printed with quoted or bare values and any spacing, the value found is the first one stored under the key, compared letter by letter in either case, or empty |
| `Digest.ReadChallenge` | src/cameractrl/zc_http_transport.cpp:358-375 | The scheme is matched in any case, and the five parameters are read; no nonce means no challenge |
| `Digest.ChallengeOfPrinted` | src/cameractrl/zc_http_transport.cpp:350-375 | For every list of parameters printed behind the six letters of the scheme in either case, with any of the six blank characters around it, the first value of each parameter is adopted, or nothing when there is no nonce |
| `Digest.ChooseQop` | src/cameractrl/zc_http_transport.cpp:396-409 | The loop over the offered protections picks auth when offered, else the first offer |
| `Digest.OffersOfJoined` | src/cameractrl/zc_http_transport.cpp:399 | Every list of offers without commas, joined by commas, is split into that list |
| `Digest.ChosenOfJoined` | src/cameractrl/zc_http_transport.cpp:396-409 | From such a list auth is chosen exactly when it is among the offers, else the first offer |
| `Digest.ChosenOfPrinted` | src/cameractrl/zc_http_transport.cpp:396-409 | From a printed list of offers with white space around them the word auth is chosen when one of them is that word in either case, else the first word |
| `Digest.CountTextIncreases` | src/cameractrl/zc_http_transport.cpp:411-412 | The zero-padded decimal nonce count, read as hexadecimal, still increases with the count (section 3.2.2 of RFC 2617) |
| `Digest.CountTextExact` | src/cameractrl/zc_http_transport.cpp:411-412 | Read as hexadecimal it is the count itself if and only if the count is below 10 |
| `Digest.CountTextIs` | src/cameractrl/zc_http_transport.cpp:411-412 | The count text is the decimal number, padded with zeros to eight digits and no further |
| `Transport.HttpTransport.DoIssue` | src/cameractrl/zc_http_transport.cpp:251-305 | send and doRequest: a fresh Authorization when there is a nonce and a user, then the request goes out |
| `Transport.HttpTransport.DoPump` | src/cameractrl/zc_http_transport.cpp:216-224 | The next queued request starts when none is on the wire |
| `Transport.HttpTransport.Do` | src/cameractrl/zc_http_transport.cpp:201-249 | get, getQuery, post and setCredentials |
| `Transport.HttpTransport.Finish` | src/cameractrl/zc_http_transport.cpp:307-348 | onFinished: a challenged request is repeated once, any other answer frees the transport, calls back and pumps |
| `Transport.HttpTransport.Adopt` | src/cameractrl/zc_http_transport.cpp:368-386 | The new parameters are kept; only a new nonce starts the count again and drops the cached header |
| `Transport.HttpTransport.RunCallback` | src/cameractrl/zc_http_transport.cpp:343-346 | What a callback does re-entrantly, one action after the other |
| `Transport.RunKeepsInv` | src/cameractrl/zc_http_transport.cpp:210-348 | In every run, calls inside callbacks included: at most one request on the wire; requests start and call back in the order queued; a repeat directly follows its first send; a waiting request implies a busy transport |
| `Transport.RetryExact` | src/cameractrl/zc_http_transport.cpp:307-386 | In every run a reply leads to a second send of its request, and no callback, if and only if it is a 401 to the first send, there is a user, and WWW-Authenticate-X, or WWW-Authenticate where that is empty, carries a challenge; that send carries every parameter of the challenge. Any other reply calls back |
| `Transport.LoginForgets` | src/cameractrl/zc_http_transport.cpp:201-208 | After new credentials the next request on an idle transport goes out for the new user without Authorization |
| `Transport.CountIsShown` | src/cameractrl/zc_http_transport.cpp:426-427 | The count is printed exactly when a protection is chosen, and is then the decimal count |
| `Transport.NothingOwedAllAnswered` | src/cameractrl/zc_http_transport.cpp:210-348 | When no reply is owed every queued request has called back, once and in order |
| `Transport.WireTraffic` | src/cameractrl/zc_http_transport.cpp:210-348 | In every run the wire carries the requests in the order queued, each once or twice in direct succession: those that have called back, then the one still owed |
| `Transport.SendsAreAuthorized` | src/cameractrl/zc_http_transport.cpp:251-274 | Every send carries an Authorization exactly when there is a nonce and a user, built for its own method and URI, the current nonce and user, and the count 1, 2, 3, ... of its epoch |
| `Transport.NonceCountsIncrease` | src/cameractrl/zc_http_transport.cpp:350-412 | In every run, between changes of nonce or credentials, a later Authorization carries a larger count, and where it is printed also when its decimal text is read as hexadecimal |
| `Transport.NonceReuseExact` | src/cameractrl/zc_http_transport.cpp:374-386 | In every run the counts used with each nonce strictly increase, as section 3.2.2 of RFC 2617 asks, if and only if no nonce comes back after another nonce or other credentials |
| `Transport.NonceComesBack` | src/cameractrl/zc_http_transport.cpp:201-208 | Such a return, for every user, request and challenge: logging in again under the same challenge repeats the earlier Authorization, count 1 included and the client nonce aside |
| `Settings.Engine.RequestGroup` | src/cameractrl/zc_settings_engine.cpp:50-62 | readGroup asks for the whole catalog; without a transport it only calls back |
| `Settings.Engine.RequestKeys` | src/cameractrl/zc_settings_engine.cpp:98-134 | The fallback asks for every schema key in order, or completes at once for an unknown catalog |
| `Settings.Engine.StoreBatch` | src/cameractrl/zc_settings_engine.cpp:204-247 | applyBatch caches every named entry and lists their keys in order |
| `Settings.Engine.RequestDependents` | src/cameractrl/zc_settings_engine.cpp:249-257 | applyDependencies reads again the target catalogs of every rule that names the key |
| `Settings.Engine.OnReply` | src/cameractrl/zc_settings_engine.cpp:62-202 | The callbacks of readGroup, readKey and writeKey |
| `Settings.DetachedDoesNothing` | src/cameractrl/zc_settings_engine.cpp:50-190 | Without a transport readGroup calls back with failure, readKey asks nothing, a write is reported as failed, and no request is made |
| `Settings.AttachedAsksOnce` | src/cameractrl/zc_settings_engine.cpp:50-202 | With one each call makes exactly one request |
| `Settings.BatchIsCached` | src/cameractrl/zc_settings_engine.cpp:62-92 | After a batch answer each named key has the value and, field by field, the definition of the last entry with that key; other keys keep theirs; the group lists the named keys in order; the call succeeds |
| `Settings.KeyIsCached` | src/cameractrl/zc_settings_engine.cpp:136-180 | readKey caches the fields of the answered object, or the defaults of a supported setting without a value, and nothing else |
| `Settings.UnknownIsEmpty` | src/cameractrl/zc_settings_engine.cpp:98-114 | A catalog that the schema does not have completes as an empty group, without success |
| `Settings.LastKeyCompletes` | src/cameractrl/zc_settings_engine.cpp:119-133 | The last per-key answer completes the call with success |
| `Settings.WriteIsApplied` | src/cameractrl/zc_settings_engine.cpp:182-257 | A write answered with 200 caches the value and makes one batch request for every target of every rule whose sources hold the key, in order, and no other; any other answer changes nothing; the write is reported as it went |
| `Settings.RunKeepsInv` | src/cameractrl/zc_settings_engine.cpp:50-257 | In every run, whatever the camera answers, each readGroup call has its requests on their way in schema order or exactly one completion |
| `Settings.IdleMeansComplete` | src/cameractrl/zc_settings_engine.cpp:50-134 | When nothing is on its way every readGroup call has completed exactly once |
| `Settings.CompletionsRefresh` | src/cameractrl/zc_settings_engine.cpp:50-134 | Once the engine has its transport, every completion comes with groupRefreshed |
| `Settings.FallbackYields` | src/cameractrl/zc_settings_engine.cpp:98-134 | The fallback lists, in schema order, exactly the keys not answered by a JSON object with a non-zero code |
| `Settings.ListedKeysAreCached` | src/cameractrl/zc_settings_engine.cpp:119-247 | Every key listed in a group has a cached value and definition |
| `Settings.AnswerSpends` | src/cameractrl/zc_settings_engine.cpp:182-257 | Every answer, whatever it says, uses up a fixed budget of requests |
| `Settings.WriteIsBounded` | src/cameractrl/zc_settings_engine.cpp:182-257 | One write on an idle engine causes at most its own request, one per dependent catalog and one per key of each; there is no cascade |
| `LifecycleDiscipline.CreateDecoderOk` | src/zc_source.cpp:594-625 | createDecoder takes its locks in order and only one at a time |
| `LifecycleDiscipline.InstallDecoderOk` | src/zc_source.cpp:631-644 | installDecoder swaps under decoderMutex_ and destroys in the graphics context after leaving it |
| `LifecycleDiscipline.OnMetaOk` | src/zc_source.cpp:1045-1128 | onMeta obeys the locking and ownership rules on every path |
| `LifecycleDiscipline.OnVideoDataOk` | src/zc_source.cpp:732-891 | onVideoData and outputVideo obey them, with and without the graphics context around decode |
| `LifecycleDiscipline.VideoRenderOk` | src/zc_source.cpp:1134-1257 | videoRender obeys them, the import failure and its fallback included |
| `LifecycleDiscipline.StartOk` | src/zc_source.cpp:380-455 | start obeys them and starts a receive thread only when none is left |
| `LifecycleDiscipline.TeardownOk` | src/zc_source.cpp:552-559 | teardownConnection joins the receive thread holding lifecycleMutex_ only |
| `LifecycleDiscipline.StopOk` | src/zc_source.cpp:457-547 | stop obeys them and joins the reconnect thread holding nothing |
| `LifecycleDiscipline.ReconnectThreadOk` | src/zc_source.cpp:562-726 | reconnectThread and reconnectNow obey them |
| `LifecycleDiscipline.UpdateOk` | src/zc_source.cpp:349-362 | update obeys them |
| `LifecycleDiscipline.HandlersFlow` | src/zc_source.cpp:380-1257 | Every handler of every thread obeys the rules from first to last step and ends holding nothing |
| `LifecycleSafety.OpMovesFrames` | src/zc_source.cpp:457-891 | Every operation only moves a frame between a local variable and the shared slots, hands out the next one or releases one |
| `LifecycleSafety.OpMovesDecoders` | src/zc_source.cpp:594-644 | The same for decoders |
| `LifecycleSafety.StepKeepsInv` | src/zc_source.cpp:380-1257 | Every step of every thread keeps the invariant: mutual exclusion, ordered locks, one owner for every frame and decoder, a live decoder in every call, at most one receive and one reconnect thread |
| `LifecycleSafety.RunKeepsInv` | src/zc_source.cpp:380-1257 | The invariant holds in every state of every interleaving |
| `LifecycleSafety.OneOwner` | src/zc_source.cpp:457-891 | In every reachable state each frame is in exactly one local variable, pending_, drawn_ or released once, and each decoder in exactly one local variable, decoder_ or destroyed once |
| `LifecycleSafety.CallsAreLive` | src/zc_source.cpp:806-851 | A thread anywhere inside decode, import or set_video_params is calling the installed decoder, which is not destroyed, and no other thread is in a call or holds decoderMutex_ |
| `LifecycleSafety.EverythingReleased` | src/zc_source.cpp:483-508 | When all threads are idle and no picture is pending or drawn, every frame ever handed out has been released exactly once |
| `LifecycleSafety.NotRunningMeansGone` | src/zc_source.cpp:380-388 | running_ found clear under lifecycleMutex_ means the previous receive thread has ended |
| `LifecycleDeadlock.AcquiresInOrder` | src/zc_source.cpp:380-1167 | Every acquisition respects lifecycleMutex_ < graphics < frameMutex_ < decoderMutex_ < cvMutex_, graphics recursive, and the receive thread never takes lifecycleMutex_ |
| `LifecycleDeadlock.AccessIsExclusive` | src/zc_source.cpp:457-1257 | A thread about to touch pending_, drawn_, decoder_ or the graphics device, or to write running_, holds the lock for it and no other thread does |
| `LifecycleDeadlock.WaitsClimb` | src/zc_source.cpp:552-559 | Along a chain of waiting threads, joins included, the order strictly climbs |
| `LifecycleDeadlock.NoWaitCycle` | src/zc_source.cpp:380-1257 | No reachable state has a cycle of waiting threads |
| `LifecycleDeadlock.BehindEveryWait` | src/zc_source.cpp:380-1257 | Behind every waiting thread there is a chain of waits that ends in a thread able to work, or in the receive thread reading the pipe while the last waiting thread joins it under lifecycleMutex_ |
| `LifecycleSilence.JoinWaitsForPipe` | src/ssp-client-iso.cpp:265-284 | In every run, once a thread joins the reading receive thread, no step of any thread ends that wait before the read returns |
| `LifecycleSilence.SilentStop` | src/ssp-client-iso.cpp:265-284 | Such a state is reachable: start, then stop, on a connector that stays silent; stop joins under lifecycleMutex_ and no thread can work |
| `LifecycleAlone.HandlerMeans` | src/zc_source.cpp:380-1257 | Every handler that starts no thread, run step by step from any reachable state without interference, comes to its end with the effect its text describes |
| `LifecycleAlone.StopUndisturbed` | src/zc_source.cpp:457-547 | After such a stop nothing runs and no frame or decoder is left; each has been released or destroyed |
| `LifecycleAlone.VideoMeans` | src/zc_source.cpp:732-891 | An access unit that rebuilds the decoder and yields a frame leaves that frame pending, and what was pending, and the old decoder, are gone |
| `LifecycleAlone.RebuildMeans` | src/zc_source.cpp:767-800 | A rebuild drops the pending frame and puts a new decoder in place of the old one, or none when the source is stopped |
| `LifecycleAlone.ImportMeans` | src/zc_source.cpp:1143-1184 | An imported frame replaces the picture on screen, which is released; one that cannot be imported is released itself |
| `LifecycleAlone.FallbackMeans` | src/zc_source.cpp:1226-1248 | The fallback puts a new decoder in place of the old one, or none |
| `LifecycleAlone.StoppedIgnores` | src/zc_source.cpp:562-745 | A stopped source ignores video, disconnects and the end of a wait to reconnect |
| `LifecycleAlone.DisconnectStarts` | src/zc_source.cpp:680-710 | A disconnect of a running source starts the reconnect thread, unless one is at work |
| `Handlers.Source.CreateDecoder` | src/zc_source.cpp:594-625 | The resolved backend is recorded and the decoder created, with the software fallback inside creation |
| `Handlers.Source.Configure` | src/zc_source.cpp:324-363 | update restarts only on a change, and turns CUDA into Auto |
| `Handlers.Source.HandleMeta` | src/zc_source.cpp:1045-1119 | onMeta rebuilds for a missing decoder, a new codec, a new size or forced software |
| `Handlers.Source.HandleVideo` | src/zc_source.cpp:732-859 | onVideoData: key frame gate, sniffing, rebuild, decode |
| `Handlers.Source.Render` | src/zc_source.cpp:1143-1233 | videoRender: import, or forced software with a fallback decoder |
| `Handlers.HardwareExact` | src/zc_source.cpp:594-625 | In every run, after a start and the first codec message, the decoder is a hardware one on the detected backend if and only if the build is zero-copy, the source not async, neither request nor detection software, and hardware can be created; otherwise a software one, and none exactly when the build has none or it cannot be created |
| `Handlers.MetaUnchanged` | src/zc_source.cpp:1061-1086 | A codec message changes nothing while the decoder fits codec and size and is not forbidden |
| `Handlers.MetaDecides` | src/zc_source.cpp:1087-1119 | Otherwise a running source installs the decoder chosen for the new codec, size and depth, and one that is not running drops its decoder |
| `Handlers.VideoDecides` | src/zc_source.cpp:734-805 | What an access unit teaches about the depth, and exactly when and by which decoder a hardware decoder is replaced |
| `Handlers.VideoDecodes` | src/zc_source.cpp:806-859 | Behind the key frame gate it is decoded exactly once if there is then a decoder, by that one |
| `Handlers.RenderDecides` | src/zc_source.cpp:1143-1248 | A pending frame is imported or dropped; the first drop of a connection forbids hardware and puts a software decoder in place, if there is one |
| `Handlers.RestartDecides` | src/zc_source.cpp:380-586 | A fresh connection knows no depth, no frame and no decoder |
| `Handlers.SettingsDecide` | src/zc_source.cpp:324-363 | Unchanged settings do nothing; others stop and start the source, and CUDA is never asked for |
| `Handlers.RunKeeps` | src/zc_source.cpp:324-1248 | Every run of whole handlers keeps the decoder consistent with backend, depth, codec, size and forced software |
| `Handlers.DecodesAtStreamDepth` | src/zc_source.cpp:751-800 | Whenever decode runs with a known bit depth and a backend_ other than software, the decoder was created for the stream's depth |
| `Handlers.InstalledDecoderFits` | src/zc_source.cpp:1061-1119 | The installed decoder fits the codec and, in hardware, the coded size last announced; the async source never has a hardware decoder |
| `Handlers.SoftwareAfterFailedImport` | src/zc_source.cpp:1154-1248 | After a failed import and until the next start or stop no hardware decoder is installed and none decodes |
| `Handlers.RunKnown` | src/zc_source.cpp:751-766 | A bit depth once learned holds for every decode call until the next start or stop |
| `Handlers.DepthDecidesDecoders` | src/zc_source.cpp:751-859 | From the access unit that settles the depth to the next start or stop, every decode with a backend_ other than software uses a decoder created for ten bits exactly when the sniffed depth is at least ten |
| `Handlers.H264SpsDecidesDecoders` | src/zc_source.cpp:751-859 | The same from the coded bits: an access unit that begins with an H.264 SPS of a listed profile decides by bit_depth_luma_minus8 |
| `Handlers.HevcSpsDecidesDecoders` | src/zc_source.cpp:751-859 | The same for an H.265 SPS without sub-layers |
| `Handlers.OtherFirstLeavesEightBit` | src/zc_source.cpp:751-800 | An access unit of either codec that begins with another unit and has no usable SPS at an even position leaves the depth unknown and the eight-bit decoder in use, whatever depth the stream has |
| `Handlers.NothingDecoded` | src/zc_source.cpp:732-745 | A stopped source, or one waiting for a key frame, decodes nothing until a start or a key frame |
| `Dns.StringSkip` | thirdpty/mdns/mdns.h:432-449 | The skip loop terminates on every packet and returns the offset after the name |
| `Dns.StringExtract` | thirdpty/mdns/mdns.h:489-524 | Wherever the loop ends at all, it yields the labels' text cut at the capacity and advances exactly as skip does, or nothing for a malformed name |
| `Dns.TerminationExact` | thirdpty/mdns/mdns.h:489-524 | The extraction loop ends if and only if it ends within as many rounds as the packet has bytes, and one more |
| `Dns.WalkIsTrace` | thirdpty/mdns/mdns.h:403-524 | It ends whenever each pointer targets an offset below its label run, with what the guarded walk finds |
| `Dns.TracedIsSkipped` | thirdpty/mdns/mdns.h:432-524 | Every name that can be extracted can be skipped |
| `Dns.PointerLoops` | thirdpty/mdns/mdns.h:403-524 | Outside that condition: a label followed by a pointer to itself keeps the loop going for any number of rounds, while a pointer forward to an end of name is extracted |
| `DnsNames.StringMake` | thirdpty/mdns/mdns.h:537-571 | The name is written label by label, and succeeds exactly when the encoding fits the capacity |
| `DnsNames.StringMakeRef` | thirdpty/mdns/mdns.h:573-580 | A pointer takes two bytes, 0xC000 and the low 14 bits of the offset |
| `DnsNames.StringMakeWithRef` | thirdpty/mdns/mdns.h:582-590 | Labels followed by a pointer in place of the final zero; the two ways to fail are told apart |
| `DnsNames.ExtractInvertsMake` | thirdpty/mdns/mdns.h:489-571 | For every name with labels of 1 to 63 bytes, anywhere in a packet, extracting gives back its text up to the trailing dot and skips exactly the bytes written |
| `DnsNames.ExtractInvertsMakeWithRef` | thirdpty/mdns/mdns.h:489-590 | The same for a name with a compressed tail, followed by the text of the tail |
| `DnsNames.StripRecoversDevice` | src/ssp-mdns.cpp:149-158 | Stripping the service suffix from the extracted PTR text recovers the device name, dots inside it included |
| `DnsPacket.ParseRecords` | thirdpty/mdns/mdns.h:592-622 | The record loop walks all records and hands the callback those of the specification, none after it asked to stop |
| `DnsPacket.ReceiveQuery` | thirdpty/mdns/mdns.h:936-991 | The identifier and question checks, then answers, authority and additional records, each section with the callback asked afresh |
| `DnsPacket.HandedIsPrefix` | thirdpty/mdns/mdns.h:599-617 | What the callback is handed of a section is a prefix that ends with the first record to make it stop |
| `DnsPacket.RecordsWalked` | thirdpty/mdns/mdns.h:592-622 | A list of records written one after the other is walked as exactly these records |
| `DnsPacket.SectionsWalked` | thirdpty/mdns/mdns.h:979-989 | Every packet with any lists of records in its three sections is walked as all of them, to their end |
| `DnsPacket.OtherPacketsIgnored` | thirdpty/mdns/mdns.h:955-960 | A packet that answers another query, or asks more than one question, is not walked |
| `DnsPacket.BadNameStays` | thirdpty/mdns/mdns.h:599-619 | A record whose name cannot be skipped is read from where the name begins |
| `DnsAnswer.AnswerIsWalked` | thirdpty/mdns/mdns.h:936-1154 | Every packet for a non-empty host name and a service ending in local, below 16384 bytes, is walked as exactly PTR, SRV, then A, AAAA and TXT as present, ending at the length sent; the callback is handed all of them, or those up to the first with which it stops |
| `DnsAnswer.AnswerExpands` | thirdpty/mdns/mdns.h:592-1154 | Each record's name expands to the service name, <host>.<service> or <host>.local as intended, with type, class, time to live and data as written |
| `DnsAnswer.AnswerTargets` | thirdpty/mdns/mdns.h:1061-1093 | The compressed names inside the PTR and SRV data expand to <host>.<service> and <host>.local |
| `DnsAnswer.AnswerKinds` | thirdpty/mdns/mdns.h:1003-1146 | The walked entries have types 12, 33, 1, 28 and 16 in this order, class 1, with the cache-flush bit in a unicast answer, and a time to live of 60, or 10 in a unicast answer |
| `DnsAnswer.AnswerData` | thirdpty/mdns/mdns.h:1082-1146 | Their data are the port behind two zero words, the addresses, and the text behind its length |
| `DnsAnswer.AnswerHeader` | thirdpty/mdns/mdns.h:1012-1042 | The header is that of an authoritative response with one answer; a unicast answer repeats identifier and question |
| `DnsAnswer.LocalName` | thirdpty/mdns/mdns.h:1025-1050 | The end of the service name minus 7 is where its last label, local, starts |
| `DnsBuilder.AppendHostRecord` | thirdpty/mdns/mdns.h:1054-1093 | A record with a host name in its data: length left open, data written, length filled in |
| `DnsBuilder.AppendExtra` | thirdpty/mdns/mdns.h:1095-1146 | An additional record is written exactly when it fits with a byte to spare |
| `DnsBuilder.QueryAnswer` | thirdpty/mdns/mdns.h:993-1154 | What is sent, if anything is, is the packet above, and eleven bytes to spare are always enough |
| `PipeIO.Record.Put` | ssp_connector/main.cpp:116-192 | Storing a field of a packed record changes that field only, in little-endian order |
| `PipeIO.WriteSignal` | ssp_connector/main.cpp:103-114 | A message without a body |
| `PipeIO.WriteVideo` | ssp_connector/main.cpp:116-136 | A video message: header, packed fields and data, filled in the code's own order |
| `PipeIO.WriteAudio` | ssp_connector/main.cpp:138-157 | An audio message |
| `PipeIO.WriteMeta` | ssp_connector/main.cpp:158-192 | A metadata message of 16 packed fields |
| `PipeIO.WriteException` | ssp_connector/main.cpp:193-211 | A nested message with code, text and final zero |
| `PipeIO.WriteEvent` | ssp_connector/main.cpp:103-211 | Every callback writes the encoding of its event |
| `PipeIO.PipeEnd.ReadRetry` | src/ssp-client-iso.cpp:40-52 | Whatever the schedule of short reads, the buffer receives the next bytes, all of them unless the pipe ends |
| `PipeIO.PipeEnd.ReceiveMessage` | src/ssp-client-iso.cpp:54-84 | msg_recv returns the next whole message or nothing |
| `PipeIO.PipeEnd.ReceiveThread` | src/ssp-client-iso.cpp:198-259 | The receive loop hands out the events of the specification for every schedule of short reads |
| `PipeProof.RecvWhole` | src/ssp-client-iso.cpp:54-84 | A whole message is received, whatever follows it |
| `PipeProof.RecvCut` | src/ssp-client-iso.cpp:54-84 | A message cut at any byte is not received |
| `PipeProof.DispatchOfEvent` | src/ssp-client-iso.cpp:287-351 | Every event sent reaches its callback field for field, negative exception codes and nested messages included |
| `PipeProof.ReceiveOfPrefix` | src/ssp-client-iso.cpp:198-259 | For every list of events and every point where the pipe breaks off, the receiver hands out exactly the events whose records are complete |
| `PipeProof.CompleteIsLongest` | src/ssp-client-iso.cpp:54-84 | Those are the longest prefix that fits in the bytes delivered |
| `PipeWire.KindsOnTheWire` | ssp_connector/ssp_connector_proto.h:85-100 | Every message carries its type, 1 to 7, and the length of its value in four little-endian octets each |
| `PipeWire.Greeting` | ssp_connector/ssp_connector_proto.h:93 | The stream begins with type 8 and length 0 |
| `PipeWire.VideoWire` | ssp_connector/ssp_connector_proto.h:68-75 | The fields of a video message at their offsets, then the data |
| `PipeWire.AudioWire` | ssp_connector/ssp_connector_proto.h:77-82 | The fields of an audio message at their offsets, then the data |
| `PipeWire.MetaWire` | ssp_connector/ssp_connector_proto.h:38-66 | The sixteen fields of a metadata message at their offsets |
| `PipeWire.ExceptionWire` | ssp_connector/main.cpp:193-211 | The code in two's complement and the text with its final zero inside a nested message |
| `PipeWire.UnknownPassedOver` | src/ssp-client-iso.cpp:250-253 | A message of another type leads to no callback, and reading goes on |
| `PipeWire.NoGreetingNoEvents` | src/ssp-client-iso.cpp:209-218 | Without the greeting nothing is handed out |
| `FrameQueue.Queue.Dequeue` | src/VFrameQueue.cpp:71-93 | With a permit in hand the consumer takes the oldest frame, or finds the queue empty |
| `FrameQueue.EmptyWake` | src/VFrameQueue.cpp:71-93 | A consumer woken to an empty queue returns at once if it has seen no frame yet, and otherwise goes to its loop test |
| `FrameQueue.Queue.Show` | src/VFrameQueue.cpp:94-112 | The consumer's decision, callback and free |
| `FrameQueue.RunKeepsInv` | src/VFrameQueue.cpp:34-114 | Every interleaving of producers, consumer and stop keeps the invariant behind the rows below |
| `FrameQueue.RunsAreSequential` | src/VFrameQueue.cpp:51-114 | Whatever the interleaving, the frames judged are a prefix of those enqueued, judged as one sequential pass would, and each of their buffers is freed exactly once, in order |
| `FrameQueue.PermitsMatch` | src/VFrameQueue.cpp:34-93 | Permits, with the one in the consumer's hands, equal queued frames plus stop signals; an empty queue is found only after stop |
| `FrameQueue.StopWakes` | src/VFrameQueue.cpp:34-93 | No wake-up is lost: after the signal of stop the consumer is never blocked before it has returned |
| `FrameQueue.ConsumerEnds` | src/VFrameQueue.cpp:34-114 | Once the flag is clear the consumer returns after at most four more steps of its own, whatever the producers do |
| `FrameQueue.StopTakesAtMostOne` | src/VFrameQueue.cpp:34-114 | Once the flag is clear the consumer takes at most one more frame, and only from before a dequeue: the frames queued then and later, but for that one, stay in the queue |
| `FrameQueue.StopFreesAllExact` | src/VFrameQueue.cpp:34-114 | When the consumer has returned, with no frame enqueued since the flag was clear, every buffer has been freed if and only if at most one frame was queued then with the consumer before a dequeue, or none with it elsewhere; with more frames, queued then or later, some buffer is never freed |
| `FrameQueue.TwoFramesLeaveOne` | src/VFrameQueue.cpp:34-114 | A failing run: two frames and then stop leave the second buffer unfreed |
| `FrameQueue.DeliveredInOrder` | src/VFrameQueue.cpp:67-114 | Delivered frames are a subsequence of the enqueued ones with non-decreasing times |
| `FrameQueue.SkipRule` | src/VFrameQueue.cpp:94-112 | A frame is skipped as older exactly when it is older than the last delivered one; otherwise it is dropped exactly when unprotected and within the processing time; the time subtraction never wraps |
| `FrameQueue.FirstIsDelivered` | src/VFrameQueue.cpp:67-84 | The first frame is always delivered |
| `FrameQueue.MemoryOfLastDelivered` | src/VFrameQueue.cpp:81-109 | What the consumer compares against are the time and callback duration of the last delivered frame |

## Left out

- FFmpeg, D3D11, CUDA and VideoToolbox decoding, texture upload and colour conversion: foreign calls; creation, decode and import are free choices.
- CPU frames of the software decoder: only the ownership of hardware frames is tracked.
- The Qt dock, debug panel and properties: user interface only.
- Sockets, TLS, MD5, SHA-1, base64, JSON parsing, clocks and random numbers: their results are parameters.
- The client nonce, the hashes and the text layout of the Authorization header: only what it is built from is modelled.
- Origin negotiation of the HTTP transport: its nested event loop bypasses the queue and is taken to finish before queued traffic starts.
- Transport.HttpTransport.DoIssue: the branch for a network call that returns no reply object is not modelled; every send is taken to end in a reply.
- WebSocket.TakeFrame: a length whose conversion to int is negative or overflows with the header is an outcome of its own; what the code does from there on is not modelled.
- Qt's sockets: that a readyRead can follow disconnectFromHost(), that the socket then counts as not connected, and that onSocketDisconnected has not yet reset handshakeDone_, are assumptions; nothing is claimed about reads after a refused upgrade.
- Binary and continuation frames: ignored by the client and by the model.
- Notification backoff and camera commands: thin wrappers.
- LifecycleSafety.StepKeepsInv: stop's join of the reconnect thread and its store of reconnectJoined_ are one step; that there is at most one reconnect thread relies on this, and no claim is made about the thread handle itself.
- LifecycleDeadlock.NoWaitCycle: the join of an old reconnect thread object inside onDisconnected is not modelled, and the absence of a cycle relies on this.
- That the read of the pipe returns is assumed wherever a stop is to end: os_process_pipe_destroy comes after the join, so a silent connector holds it up (LifecycleSilence).
- Depth fields above 0x7FFF_FFF7, where 8 + (int)bit_depth_luma_minus8 overflows.
- Time spent waiting on the condition variable: a timed wait always ends, so it is not a wait in the model.
- DNS reads past the end of a packet: the name walkers treat them as an invalid name, the record walkers as no result.
- Dns.StringExtract: packets on which the loop does not end, which Dns.TerminationExact tells apart, are excluded.
- The null pointer that `mdns_string_make_with_ref` follows when the name does not fit, and the unchecked SRV fields: both are an outcome of their own, after which nothing is claimed.
- mDNS sockets, interface enumeration, discovery queries and name comparison: input and output plumbing.
- `size_t` of the pipe records is 8 bytes, as in the 64-bit builds; lengths of 2^32 and more are not modelled.
- Messages that no connector writes are handed on only where the fields lie inside the message.
- Frames left in the frame queue after stop and taken up by a later start: one start and stop is modelled.
- Taking the transport away from the settings engine again: it is set once, as the camera client does.
- AudioData decoding, tally, presets and the OBS module entry points: no hard property.
