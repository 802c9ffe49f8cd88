# yiz-tunnel: a model of its protocols, its scheduling and its control plane

This project models the parts of the server where something can go subtly wrong, and proves what
they are for. It follows the program's own shape: what the program does in loops over buffers,
tables and maps is a method or a class here, proved against a function; what is promised about it
is proved about that function, for all inputs, all runs and all ways the network cuts a stream.

- **HPACK** (`PrefixCodes`, `HuffmanTable`, `Huffman`, `HpackInteger`, `HpackString`, `HpackTable`,
  `HpackDecoding`, `HpackUtf8`, `HpackRfc`, `HpackHistory`, `HpackEncoder`, `HpackWritten`,
  `HpackStatic`). The Huffman table is shown to be complete by laying its codes out by length as
  consecutive numbers. Section 6 of RFC 7541 is written down as a writer and a meaning of
  representations, and the decoder keeps in step with it; what an index means is told from the
  fields sent before.
- **HTTP/2** (`H2Frame`, `H2Streams`, `H2Connection`, `H2Wire`, `H2Control`, `H2Recut`,
  `H2Response`, `H2RoundTrip`, `H2Answers`). Frames, padding and continuations are
  taken apart, streams are assembled from interleaved frames, and what the server writes is read
  back by a client: see `H2RoundTrip.EndToEnd`, `H2Answers.ResponsesAreRead` and `H2Control.ControlFrames`.
- **HTTP/1 bodies** (`Lines`, `ChunkedBody`, `Http1`, `Http1Clean`, `Http1Proxy`, `Http1Reread`,
  `Http1Framing`, `Http1Relay`, `H2Proxy`). Chunked decoding in both directions, and the path
  of a request through the proxy: exactly when the upstream reads its framing as it was meant, and
  what it then finds.
- **Upstreams** (`UpstreamScheduler`, `RoundRobin`, `UpstreamDrain`, `DrainRuns`). Priority and
  round robin, with the exact condition for fairness, and the guards and retirements of a
  blue-green reload as steps that interleave in every way with connections and moving servers.
- **Control plane** (`Routes`, `Hosts`, `ListenGroups`, `Runtime`, `RegistrySoundness`, `Storage`,
  `StorageOps`, `StorageEffects`, `SaveTransaction`, `Durability`, `AdminHandlers`,
  `ControlPlane`). Stored configuration, the registry of what runs, and their agreement over any
  run of admin calls; saves that survive the death of the process at any step.

`Prelude`, `Text`, `Utf8Slices`, `Sequences`, `Bits`, `Buffers`, `Network` and `Config` are what
these share: words and errors, strings as the octets of their UTF-8 form (RFC 3629), buffers, a
connection whose reads return any part of what is left, and the stored configuration.
`dafny verify dfyconfig.toml` checks the whole project.

## Model

| member | source | states |
|---|---|---|
| `HuffmanTable.HpackCodeIsComplete` | src/hpack_huffman_table.rs:1-258 | the concrete table has no empty code and no code that begins another, and the one 30-bit string that no code begins or continues is EOS, thirty one-bits |
| `PrefixCodes.PrefixFree` | src/hpack_huffman_table.rs:1-258 | in a table whose codes are consecutive numbers by length, no code is a prefix of another's |
| `PrefixCodes.OnlyEosIsUnused` | src/hpack_huffman_table.rs:1-258 | in such a table 31 bits that begin with no code begin with EOS: the codes and EOS fill the code space |
| `Huffman.HuffmanSymbol` | src/runtime.rs:1661-1666 | the symbol whose code and length are looked up, or none when no symbol has them |
| `Huffman.HuffmanDecode` | src/runtime.rs:1622-1659 | the bit-by-bit loop, with its 32-bit accumulator, returns the text that the octets encode, or the error that says why they encode none |
| `Huffman.HuffmanRoundTrip` | src/runtime.rs:1622-1659 | every octet string comes back from its padded code string |
| `Huffman.HuffmanDecodesOnlyEncodings` | src/runtime.rs:1622-1659 | whatever decodes is the padded code string of its result, octet for octet: with the round trip, a bijection |
| `Huffman.HuffmanFailures` | src/runtime.rs:1643-1656 | decoding fails with a bad code exactly when EOS and at least one more bit stand behind whole symbols, and succeeds exactly on the codes of a text with up to seven one-bits behind them |
| `Huffman.EosRejected` | src/runtime.rs:1643-1656 | no string with EOS behind whole symbols is accepted, wherever EOS stands |
| `HpackInteger.HpackDecodeInt` | src/runtime.rs:1557-1594 | the reading loop with its saturating sums and dropped high bits computes the specified value, next position or error |
| `HpackInteger.DecodeIntegerMeetsRfc` | src/runtime.rs:1557-1594 | a result is returned exactly for the integers of section 5.1 of RFC 7541 that end within six octets of the block, it ends where they end, and its value is theirs exactly when that fits 32 bits |
| `HpackInteger.HpackEncodeInt` | src/runtime.rs:1683-1696 | the writing loop appends the shortest form of the integer behind the given flag bits |
| `HpackInteger.IntegerRoundTrip` | src/runtime.rs:1557-1594 | every 32-bit value written with any redundant digits that leave it within six octets is read back, in any surroundings |
| `HpackInteger.EncodedIntegerIsShort` | src/runtime.rs:1683-1696 | the writer never needs more than the six octets the reader accepts |
| `HpackInteger.EveryTailIsWritten` | src/runtime.rs:1568-1592 | the redundant digits cover all encodings: whatever the RFC's reading accepts is written by some number of them |
| `HpackString.HpackDecodeString` | src/runtime.rs:1596-1620 | a length, then that many octets, Huffman-coded or not, which must be UTF-8; each way to fail has its error |
| `HpackString.LiteralReads` | src/runtime.rs:1596-1620 | a literal with any readable length, coded or plain, is read as its text, or fails as its text does |
| `HpackString.HpackEncodeString` | src/runtime.rs:1698-1701 | a plain literal, whose length is cut to 32 bits |
| `HpackTable.EvictKeepsLongestFit` | src/runtime.rs:1539-1549 | eviction keeps a newest-first prefix, and the longest that fits |
| `HpackTable.AddThenEvict` | src/runtime.rs:1521-1532 | adding first and evicting afterwards gives the table of section 4.4 of RFC 7541, which makes room first |
| `HpackDecoding.HpackDecoder.Evict` | src/runtime.rs:1539-1549 | the size stays the sum over the entries and ends within the limit; the branch for an empty table is never reached and the subtraction never saturates |
| `HpackDecoding.HpackDecoder.Add` | src/runtime.rs:1521-1532 | the table after an insertion is the RFC's, also for an entry larger than the table, and the size agrees with it |
| `HpackDecoding.HpackDecoder.UpdateSize` | src/runtime.rs:1534-1537 | a new limit evicts down to itself |
| `HpackDecoding.HpackDecoder.Lookup` | src/runtime.rs:1508-1519 | 61 static entries, then the dynamic ones from the newest; any other index is an error |
| `HpackDecoding.HpackDecoder.Decode` | src/runtime.rs:1472-1506 | one pass over a block returns the specified fields and leaves the specified table, or the first error |
| `HpackRfc.BlockLockstep` | src/runtime.rs:1472-1549 | a block written from any representations of section 6 of RFC 7541, coded or plain, with any redundant integer digits that fit, decodes to the fields they denote and to the table they leave, errors included |
| `HpackRfc.ConnectionLockstep` | src/runtime.rs:1472-1549 | the decoder stays in step with the RFC's table over all the blocks of a connection |
| `HpackHistory.IndicesCountBack` | src/runtime.rs:1472-1549 | over all the blocks of a connection an index up to 61 means the static entry, and 62 + k the k-th last of all the fields sent with incremental indexing, as long as it and all newer ones, with 32 octets more each, have stayed within every limit set since |
| `HpackHistory.LastButK` | src/runtime.rs:1508-1532 | fields that have room are sent in any number and index 62 + k then yields the last but k of them |
| `HpackHistory.AddedThenIndexed` | src/runtime.rs:1508-1532 | a field that fits and is asked for by index 62 at once is there twice |
| `HpackHistory.StaticIndices` | src/runtime.rs:1508-1519 | an index up to 61 yields the name and value of the static entry, and with a value behind it that entry's name and the value |
| `HpackUtf8.DecodedIsStrings` | src/runtime.rs:1472-1620 | whatever octets are decoded, every name and value is UTF-8, and so is all that stays in the table |
| `HpackEncoder.HpackStaticNameIndex` | src/runtime.rs:1703-1709 | the first static entry with the name, if any |
| `HpackEncoder.HpackEncodeHeaders` | src/runtime.rs:1668-1681 | every field as a literal without indexing, with the index of its lower-cased name or the name itself |
| `HpackEncoder.EncoderInverse` | src/runtime.rs:1668-1709 | from any state of a decoder, the encoded fields decode to themselves with lower-cased names and leave the table alone, if and only if each string written out is shorter than 2^32 octets |
| `HpackWritten.EncodedIsWritten` | src/runtime.rs:1668-1709 | the encoder's block is that of the RFC's literal fields without indexing, with the first static entry of the lower-cased name if there is one, plain strings and shortest integers |
| `HpackStatic.HpackIsValid` | src/runtime.rs:1711-1776 | the tables of the program, 61 static entries and the Huffman codes, meet what the theorems ask of them |
| `H2Frame.ReadFrame` | src/runtime.rs:1330-1355 | a frame over any sequence of reads, nothing at the end of the connection or within a header, an error within a payload; the check for 16 MiB never fires |
| `H2Frame.WriteFrame` | src/runtime.rs:1357-1379 | the frame's octets, or an error and no octet when the payload exceeds 24 bits |
| `H2Frame.FrameRoundTrip` | src/runtime.rs:1330-1379 | a written frame is read back as it was, in any surroundings |
| `H2Frame.ReadThenWrite` | src/runtime.rs:1330-1379 | a frame read with its reserved bit clear is written back octet for octet |
| `H2Frame.FrameLayout` | src/runtime.rs:1357-1379 | a frame's octets are the length in three, most significant first, type, flags, the stream in four with a clear first bit, and the payload |
| `H2Frame.HeadersUnwrap` | src/runtime.rs:1381-1410 | a payload comes back from any padding and priority it was sent in |
| `H2Frame.HeadersAreWrapped` | src/runtime.rs:1381-1410 | a payload is taken from a HEADERS frame exactly when padding and priority can be taken off it, and is what they are around |
| `H2Frame.DataUnwrap` | src/runtime.rs:1412-1432 | a payload comes back from any padding it was sent in |
| `H2Frame.DataAreWrapped` | src/runtime.rs:1412-1432 | a payload is taken from a DATA frame exactly when padding can be taken off it, and is what it is around |
| `H2Connection.ReadContinuations` | src/runtime.rs:1434-1455 | CONTINUATION frames of one stream and nothing else, up to END_HEADERS, glued in order |
| `H2Connection.ReadEvent` | src/runtime.rs:1170-1184 | the next thing the peer means: a whole header block, data, a question to answer, or an error |
| `H2Connection.Server.Accept` | src/runtime.rs:1185-1207 | the entry of a stream grows, and leaves the map with its request at END_STREAM |
| `H2Connection.Server.Handle` | src/runtime.rs:1171-1236 | header blocks go through the decoder, data to their stream, SETTINGS and PING are acknowledged; on an error the requests and the octets written are those specified too |
| `H2Connection.ServeConnection` | src/runtime.rs:1155-1240 | preface, SETTINGS and loop: the requests dispatched, the octets written and the error are those specified for the octets received, however they arrive and however the connection ends |
| `H2Control.EventsAreOfFrames` | src/runtime.rs:1170-1209 | a header block that is taken in is the unwrapped payload of a HEADERS frame with those of the CONTINUATION frames of its stream behind it, up to the one with END_HEADERS; data is the unwrapped payload of a DATA frame; stream and END_STREAM are the frame's |
| `H2Control.ControlFrames` | src/runtime.rs:1155-1240 | of the frames written those that are no HEADERS or DATA are the opening SETTINGS and then, in order, one SETTINGS acknowledgement for each SETTINGS read without ACK and one PING acknowledgement with the same octets for each PING read without ACK and with eight octets; no other frame writes one, and reading ends at a GOAWAY, the end of the connection, or a HEADERS or DATA frame that fails |
| `H2Streams.StreamsAreSeparate` | src/runtime.rs:1185-1228 | each END_STREAM dispatches one request of its stream, with the stream's last header fields and all its data since its previous request in order, whatever other streams send in between |
| `H2Streams.CutIsWhole` | src/runtime.rs:1209-1214 | data sent in pieces leaves the stream map and dispatches what the whole would have |
| `H2Streams.RecutData` | src/runtime.rs:1209-1228 | on one stream map, cutting a DATA payload into more items changes nothing that is dispatched |
| `H2Wire.ActReads` | src/runtime.rs:1381-1455 | a header block split over HEADERS and any number of CONTINUATION frames, padded and with priority or not, is read as the block; data as the data |
| `H2Wire.ConnectReads` | src/runtime.rs:1155-1240 | a connection is served as the sequence of what its frames mean |
| `H2Recut.LayoutIsIrrelevant` | src/runtime.rs:1155-1240 | peers whose frames mean the same, however header blocks are split, payloads padded and data cut, get the same requests dispatched, the same octets in answer and the same error |
| `H2Recut.RecutMerges` | src/runtime.rs:1209-1228 | data of a stream cut in two ways, wherever it stands between other frames, means the same in that sense |
| `H2Wire.RequestsAreDispatched` | src/runtime.rs:1170-1236 | the requests of a connection are exactly those its decoded items complete, in order; a handler that fails ends the list behind its own request |
| `H2Response.CollectFields` | src/runtime.rs:3258-3271 | status, content type and length of the body, then the response's fields with lower-cased names, without those of an HTTP/1 connection and without a length of its own |
| `H2Response.WriteBody` | src/runtime.rs:3288-3303 | the body in DATA frames |
| `H2Response.SendResponse` | src/runtime.rs:3253-3305 | one HEADERS frame and the body, or an error and no octet when the header block exceeds 24 bits |
| `H2Response.FrameLimits` | src/runtime.rs:3274-3303 | HEADERS first, no DATA frame empty or above 16384 octets, END_STREAM on the last frame and no other |
| `H2RoundTrip.ResponseBlockDecodes` | src/runtime.rs:3258-3273 | the header block of a response decodes to its fields and leaves the client's table alone, whatever it is |
| `H2RoundTrip.ResponseDispatched` | src/runtime.rs:3253-3305 | a response read back on an idle stream is one message with its fields and exactly its body |
| `H2RoundTrip.ServerWrites` | src/runtime.rs:1155-1240 | all the server writes on a connection are whole frames of responses and acknowledgements |
| `H2RoundTrip.EndToEnd` | src/runtime.rs:1155-1320 | whatever octets a client sends, what the server writes reads back without error as one complete response to each request it dispatched, in order |
| `H2Answers.ResponsesAreRead` | src/runtime.rs:3253-3313 | each message the client reads has the status and the content type first, one content-length that says the length of its body, no field of a connection in any letter case, and every other field of the response in order, as often as given, with its lower-cased name and its value |
| `ChunkedBody.EnsureBuffer` | src/runtime.rs:2084-2102 | reads until enough is buffered, or the connection has no more |
| `ChunkedBody.ReadBufferLine` | src/runtime.rs:2062-2082 | the line up to the first CRLF of the whole stream, however it arrives |
| `ChunkedBody.ReadChunkedBody` | src/runtime.rs:2013-2060 | the result is a function of the buffered octets and those still to come alone, for every way the network cuts them into reads |
| `ChunkedBody.ChunkedRoundTrip` | src/runtime.rs:2013-2060 | any encoding whose lines the size reader takes, with extensions, trailers and whatever follows it, decodes to its data when they fit the limit, and is refused as too large exactly when they do not |
| `ChunkedBody.RfcRoundTrip` | src/runtime.rs:2013-2082 | so does any encoding in the form of section 4.1 of RFC 7230 with sizes of 64 bits: hexadecimal digits in either case with any zeros in front, extensions behind a semicolon, trailers |
| `ChunkedBody.OnlyEncodingsDecode` | src/runtime.rs:2013-2060 | whatever decodes begins with a well-formed encoding of the result, and the result is within the limit |
| `ChunkedBody.SizeLineReads` | src/runtime.rs:2023-2025 | hexadecimal digits of either case, with any leading zeros and any extension behind a semicolon, say their number, or nothing when it exceeds 64 bits |
| `ChunkedBody.HexRoundTrip` | src/runtime.rs:2024-2025 | every size can be written so that it is read back |
| `Http1.ReadHead` | src/runtime.rs:1895-1937 | the request line and fields of a head, the last Content-Length and whether a field says chunked |
| `Http1Proxy.ReadHeaders` | src/runtime.rs:1867-1893 | a head that ends within 64 KiB is always read, one that ends more than one read beyond is always refused, and a connection that closes first is empty or in error |
| `Http1Proxy.ReadRequest` | src/runtime.rs:1861-1985 | the head and a chunked body in full; of any other body a prefix of what was sent, cut at its declared length, and when it is incomplete nothing behind it is taken from the connection |
| `Http1Proxy.WriteHeaders` | src/runtime.rs:3144-3178 | fields that are passed on in order, without framing, forwarding and hop-by-hop ones, and with the upstream's Host |
| `Http1Proxy.BuildProxyHead` | src/runtime.rs:3125-3202 | the rebuilt head, with Content-Length exactly for a body |
| `Http1Proxy.StreamBody` | src/runtime.rs:2692-2720 | exactly the missing octets of the body are read and sent, in order, or all that came before the client closed |
| `Http1Proxy.ForwardRequest` | src/runtime.rs:1861-2720 | for every way the client's octets arrive, the upstream gets the rebuilt head and the body whose length it says, no octet lost, repeated or overshot; on a failure nothing, or the head and all that came of the body |
| `Http1Clean.ParsedHeadIsClean` | src/runtime.rs:1895-1937 | whatever octets a head is read from, its words have no white space, its names no colon, and no part of it a line end |
| `Http1Reread.HeadReadsBack` | src/runtime.rs:3134-3201 | a clean head written out is read back as it was and ends where it ends |
| `Http1Framing.SizedIsRead` | src/runtime.rs:1895-1985 | a request that does not say chunked is read with as many octets of body as its last Content-Length says, and none without one, or refused when they exceed the limit and only then |
| `Http1Framing.ChunkedIsRead` | src/runtime.rs:1895-1985 | a request with chunked in any Transfer-Encoding is read with the data of its chunks, whatever lengths it says, or refused when they exceed the limit and only then |
| `Http1Reread.SentOnReadsBack` | src/runtime.rs:3125-3205 | whatever request is sent on, a reader by the same rules finds the rebuilt head and behind it exactly the body, whatever follows, if and only if the rebuilt head consists of words and of fields that fit a line |
| `Http1Reread.ForwardedReadsBack` | src/runtime.rs:1861-3205 | the framing of a request read from an HTTP/1 connection survives the proxy, a chunked body becoming one of its length, if and only if the host, the address and the target that the configuration puts into the head fit a line and a word |
| `H2Proxy.H2ReadsBack` | src/runtime.rs:1247-1311 | a request made of an HTTP/2 stream survives the proxy if and only if its rebuilt head does so, and when its own fields fit exactly when the configuration's values do |
| `H2Proxy.LineEndBreaksHead` | src/runtime.rs:3144-3178 | a decoded field whose value has a line end is sent on as it is, and no reader finds the head that was meant |
| `Http1Relay.RequestIsRelayed` | src/runtime.rs:1861-3228 | the head the upstream reads has the method of the one the client sent, its version or HTTP/1.1 for HTTP/2.0, its target with a matching prefix replaced and the query kept, its fields but for the forwarding, framing and hop-by-hop ones in order, the upstream's name in every Host and at least one, the client's address behind the last X-Forwarded-For, and a length that is the body's |
| `Http1Relay.CleanIsRelayed` | src/runtime.rs:3125-3228 | so has any other request whose rebuilt head is clean |
| `H2Proxy.StreamIsRelayed` | src/runtime.rs:1247-1311 | a request of an HTTP/2 stream, when its rebuilt head is clean, reaches the upstream with its first :method and :path, or GET and /, its regular fields and its body |
| `Http1Reread.CleanViaFits` | src/runtime.rs:3125-3197 | one-line values and a prefix without white space fit every head that can be parsed |
| `Http1Reread.StoredRewriteMayNotFit` | src/storage.rs:604-627 | storage accepts a rewrite to /a b, and with it the target of every request for a path falls into two words: no head fits |
| `Http1Reread.StoredHostMayNotFit` | src/storage.rs:339-381 | the check of an upstream address lets a line end through in the host, which fits no head, though a connection has to be made to that host first |
| `UpstreamScheduler.SortIsStable` | src/runtime.rs:2502-2507 | the candidates are sorted by priority, none lost, and in configuration order within a priority |
| `UpstreamScheduler.Scheduler.NextOffset` | src/runtime.rs:2520-2530 | the offset of a run, and its 64-bit cursor one step on, wrapping |
| `UpstreamScheduler.Scheduler.SelectUpstreamCandidates` | src/runtime.rs:2496-2546 | the loops over runs return the order that RoundRobin describes and move the cursor of each run that has one |
| `RoundRobin.ChoiceIsFair` | src/runtime.rs:2496-2546 | each choice is a permutation of the group in ascending priority, and each priority is the configuration order turned by its own cursor, which moves on when the priority has two members or more |
| `RoundRobin.CandidatesAreTheGroup` | src/runtime.rs:2496-2546 | the candidates are exactly the upstreams configured for the group, each as often as it is, in ascending priority |
| `RoundRobin.OthersStay` | src/runtime.rs:2519-2529 | a call leaves the cursors of every other group and server alone |
| `RoundRobin.WhoSits` | src/runtime.rs:2532-2539 | the member at each place of a turned run |
| `RoundRobin.RoundRobinIsFair` | src/runtime.rs:2519-2540 | over as many calls for one group as a priority has members, with any calls for other groups in between, the t-th turns the members by the t-th offset, and every member has every seat exactly once if and only if the cursor does not wrap meanwhile or 2^64 is a multiple of the members |
| `RoundRobin.AnswersAreFair` | src/runtime.rs:2519-2540 | the same on the orders returned: every member has every place of its priority in exactly one of them, under that condition and only then |
| `RoundRobin.KeysAreSeparate` | src/runtime.rs:2519 | two runs share a cursor exactly when they have one priority and server:group reads the same |
| `RoundRobin.NamesTellGroups` | src/runtime.rs:2519 | servers whose ids have no colon share nothing; a server id with a colon shares with the server named by what is before it and a group that begins with what is behind |
| `UpstreamDrain.ProxyState.IncrementUpstreamRequest` | src/runtime.rs:112-121 | one guard more |
| `UpstreamDrain.ProxyState.DecrementUpstreamRequest` | src/runtime.rs:123-133 | one guard less, and no entry at zero |
| `UpstreamDrain.ProxyState.ReconcileUpstreams` | src/runtime.rs:143-172 | the retired upstreams after a reload that nothing disturbs |
| `UpstreamDrain.ProxyState.RetiredUpstreamInfo` | src/runtime.rs:191-205 | a retired upstream of the server, deading while it has guards and dead at zero |
| `UpstreamDrain.ReconcileLists` | src/runtime.rs:149-170 | a reload retires exactly the removed upstreams that are in use, under their server and as they were configured, keeps those it had, and forgets those that are back |
| `DrainRuns.CountsAreGuards` | src/runtime.rs:86-133 | over every interleaving of connections, requests, reloads and servers that stop, start or move, the count of an upstream is the number of its live guards, and no zero is kept |
| `DrainRuns.NothingSaturates` | src/runtime.rs:123-133 | a guard that is dropped always finds a positive count |
| `DrainRuns.DeadMeansUnused` | src/runtime.rs:191-205 | an upstream reads dead exactly when no guard on it is live |
| `DrainRuns.RunDrains` | src/runtime.rs:313-321 | once an upstream is out of every configuration, those that connections fall back on included, the requests that hold a guard on it or have it among their candidates only become fewer |
| `DrainRuns.DrainsIfForgotten` | src/runtime.rs:335-410 | an upstream out of every configuration drains if and only if no open connection falls back on a server that had it when it stopped or moved |
| `DrainRuns.DeadIsFinal` | src/runtime.rs:313-321 | dead stays dead on every continuation if and only if no request holds a guard, none has the upstream among its candidates, and no connection falls back on it |
| `DrainRuns.ListedIfSeen` | src/runtime.rs:143-172 | over any run of requests, reloads and writes in which nothing configures an upstream anew it is listed as retired at the end exactly when it was before or a reload that came to it found it in use |
| `DrainRuns.ReloadListsIfSeen` | src/runtime.rs:143-172 | a reload that removes an upstream lists it exactly when it was listed before or had a guard at the moment the reload came to it, whatever else happens meanwhile |
| `DrainRuns.ListingIsFinal` | src/runtime.rs:143-172 | once an upstream is in no configuration and no reload has still to come to it, its listing changes in no later run |
| `DrainRuns.UsedIsListed` | src/runtime.rs:143-172 | so one in use throughout the reload that removes it is listed |
| `DrainRuns.UsedButNotListed` | src/runtime.rs:143-172 | and one whose request connects after its moment of the reload is in use and listed neither then nor in any later run that does not configure it anew |
| `DrainRuns.LeavingListsNothing` | src/runtime.rs:335-410 | upstreams removed by an update that moves their server to another address, or that go with a server that stops, are not reconciled: none is listed from then on that was not before |
| `Routes.SelectionIsChosen` | src/runtime.rs:2111-2123 | an exact match if there is one, else a longest prefix, else nothing |
| `Routes.OrderIsIrrelevant` | src/runtime.rs:2111-2123 | as long as no rule is given twice, every order of the routes selects the same |
| `Storage.StoredOrderIsIrrelevant` | src/storage.rs:419-439 | the routes of a file that is accepted give no rule twice, so their order does not matter |
| `Hosts.PortIsIrrelevant` | src/runtime.rs:3050-3069 | a port in a Host makes no difference, behind a name or an address in brackets |
| `Hosts.AddressReads` | src/storage.rs:345-372 | an address of an upstream is taken for a host and a port exactly when it is http, an authority without a user that is the host on port 80 or the host, the last colon and the port, and perhaps a path, its host not blank and its port between 1 and 65535 |
| `ListenGroups.ListenGroup.InsertServerConfig` | src/runtime.rs:605-621 | a new server goes to the end of the order, the first is the default; the order stays free of duplicates and lists exactly the servers |
| `ListenGroups.ListenGroup.RemoveServerConfig` | src/runtime.rs:623-629 | the server leaves, the order of the others stays, and the default is the first of it |
| `ListenGroups.ListenGroup.SelectServerConfig` | src/runtime.rs:3010-3048 | the earliest server in order that has the name asked for, without its port and in any letter case, else the default |
| `ListenGroups.GroupAnswers` | src/runtime.rs:3010-3048 | a group that is not empty always answers, with the earliest server that has the name asked for, else with its first |
| `ListenGroups.JoiningAnswers` | src/runtime.rs:605-621 | a server that joins answers for its names where no other has them, and changes no other answer and not the default |
| `ListenGroups.LeavingAnswers` | src/runtime.rs:623-629 | a server that leaves changes no answer but its own |
| `Runtime.HttpRuntime.Apply` | src/runtime.rs:308-415 | in place when the server already listens at its host and port, with the upstreams of its former configuration reconciled, otherwise stopped and started, with a new listener only where there is none and no upstream reconciled |
| `Runtime.HttpRuntime.Stop` | src/runtime.rs:417-437 | out of its group, which takes its listener along when it is left empty; stopping while connections are counted |
| `Runtime.HttpRuntime.RemoveServerFromListener` | src/runtime.rs:560-603 | the registry without the server |
| `RegistrySoundness.AppliedIsSound` | src/runtime.rs:308-415 | apply leaves a registry without loose ends, every other server as it was, and the server running with its configuration at its address, or out of the registry and failed |
| `RegistrySoundness.HaltedIsSound` | src/runtime.rs:417-437 | stop leaves a registry without loose ends, every other server as it was, and the server out of it |
| `RegistrySoundness.AppliedNews` | src/runtime.rs:308-415 | after apply a server is listed as running, with its counts if it stayed at its address and without any if it starts anew, or as failed with an error |
| `RegistrySoundness.HaltedNews` | src/runtime.rs:417-437 | after stop it is listed as stopping while connections are counted and as stopped otherwise, with its counts |
| `RegistrySoundness.ListenerIffServer` | src/runtime.rs:560-603 | an address has a listener exactly when a server is registered there |
| `Storage.ValidateUpstreams` | src/storage.rs:405-416 | the loop with its set of ids accepts good upstreams with different ids |
| `Storage.ValidateRoutes` | src/storage.rs:418-442 | the loop with its sets accepts good routes with different ids and different rules |
| `Storage.ValidateLoadedFile` | src/storage.rs:390-446 | a file is accepted exactly when its version is 1 and its servers are good |
| `Storage.GoodServersAre` | src/storage.rs:390-446 | the servers of an accepted file are good one by one and have different ids, and every such file is accepted |
| `StorageOps.HttpServerStorage.CreateHttpServer` | src/storage.rs:55-75 | a valid request appends an enabled server with a new id; a failed save answers an error and keeps it in memory |
| `StorageOps.HttpServerStorage.UpdateHttpServer` | src/storage.rs:77-95 | alias, address, configuration and graceful settings change, id, upstreams and routes do not |
| `StorageOps.HttpServerStorage.SetServerEnabled` | src/storage.rs:97-108 | the server is switched and nothing else changes |
| `StorageOps.HttpServerStorage.DeleteHttpServer` | src/storage.rs:110-128 | only a disabled server is removed |
| `StorageOps.HttpServerStorage.AddServerUpstream` | src/storage.rs:142-181 | the upstream takes the place of those with its group and name, which needs graceful replacement, and is answered as stored |
| `StorageOps.HttpServerStorage.DeleteServerUpstream` | src/storage.rs:183-194 | the upstream with the id is removed and answered |
| `StorageOps.HttpServerStorage.AddServerRoute` | src/storage.rs:208-240 | a route needs an upstream of its group and a rule of its own, and is answered as stored |
| `StorageOps.HttpServerStorage.DeleteServerRoute` | src/storage.rs:242-253 | the route with the id is removed and answered |
| `StorageOps.OperationKeepsValid` | src/storage.rs:55-253 | from a file that can be loaded every operation with fresh ids makes one that can be loaded, so a save is never refused for its contents |
| `StorageOps.EditKeepsNames` | src/storage.rs:142-194 | names of upstreams that are unique stay unique |
| `StorageEffects.EditsAreGood` | src/storage.rs:267-628 | a request is taken exactly when its fields are acceptable one by one: hosts, names and groups not blank, ports not zero, positive settings under known names, paths with a slash in front, actions with what they need |
| `StorageEffects.OperationDoes` | src/storage.rs:55-253 | an operation changes the first server with its id, in the fields it is about and no others, leaves every other server and their order, and is refused for a request that is not acceptable, an id that is not there, a name or rule that is taken, a group without upstreams or a server still enabled, with the error of each |
| `SaveTransaction.Save` | src/storage.rs:630-651 | a save is a run of the steps below whatever fails; it answers success exactly when the file is the new one, and otherwise leaves it |
| `SaveTransaction.OneSaveBacksUp` | src/storage.rs:630-651 | a save that came to its rename leaves the former file as the backup, and no temporary file |
| `SaveTransaction.RunIsSafe` | src/storage.rs:630-651 | over any run of saves, each cut short anywhere, the file can be loaded and is the complete one last renamed into place, or the one there was |
| `Durability.DoneIsOnDisk` | src/storage.rs:55-253 | an operation answered with success is on the disk exactly as it is in memory |
| `Durability.RunIsDurable` | src/storage.rs:55-253 | over any run of operations, with saves that fail and a process that dies at any step and starts again, the file loads and has the data of the last save that came to its rename |
| `AdminHandlers.AppState.CreateHttpServer` | src/admin.rs:112-122 | stored, then applied |
| `AdminHandlers.AppState.UpdateHttpServer` | src/admin.rs:131-144 | stored, then applied if it is enabled; upstreams are retired exactly as that leaves them |
| `AdminHandlers.AppState.SetHttpServerEnabled` | src/admin.rs:146-161 | stored, then applied or stopped |
| `AdminHandlers.AppState.DeleteHttpServer` | src/admin.rs:163-173 | removed, then stopped |
| `AdminHandlers.AppState.ReloadHttpServer` | src/admin.rs:183-198 | applied as stored, if it is enabled |
| `AdminHandlers.AppState.AddUpstream` | src/admin.rs:214-228 | stored, then the server applied, with its upstreams reconciled, if it is enabled; answers the upstream |
| `AdminHandlers.AppState.DeleteUpstream` | src/admin.rs:246-259 | removed, then the server applied, with its upstreams reconciled, if it is enabled; answers the upstream removed |
| `AdminHandlers.AppState.AddRoute` | src/admin.rs:268-280 | stored, then the server applied if it is enabled; answers the route |
| `AdminHandlers.AppState.DeleteRoute` | src/admin.rs:289-300 | removed, then the server applied if it is enabled; answers the route removed |
| `ControlPlane.CallKeepsOrder` | src/admin.rs:112-300 | an admin call whose save succeeds leaves a loadable file, a registry without loose ends, and the two in agreement, whether or not a socket can be bound |
| `ControlPlane.LaunchIsOrderly` | src/main.rs:41-47 | so does the start of the program |
| `ControlPlane.AnswersAreTrue` | src/admin.rs:112-300 | of a call whose save succeeds: an answer of success means that it has stored its server and runs it as it is stored if it is enabled and not at all otherwise, or has removed it; an internal error that it has stored a server that could not be started; any other refusal that it has changed nothing |
| `ControlPlane.OthersStay` | src/admin.rs:112-300 | a call leaves every other server as it is stored and as it runs, whether its save succeeds or not |
| `ControlPlane.DisabledStops` | src/admin.rs:112-300 | a server that is disabled or deleted is stopping or stopped by its connections; other changes of a disabled server leave the runtime alone |
| `ControlPlane.AddressesAgree` | src/runtime.rs:309 | two servers have one address exactly when they have one host and one port |
| `ControlPlane.StorageAndRuntimeAgree` | src/admin.rs:112-300 | from the start over any run of admin calls whose saves succeed: a server is registered only if it is stored and enabled, at its stored host and port, where there is a listener, and with its stored configuration; an enabled one that is not has failed; an address has a listener exactly when a server is registered there; registered servers share one exactly when their stored hosts and ports agree |
| `ControlPlane.FailedSaveAgreement` | src/storage.rs:55-253 | after an operation whose save fails, storage in memory and runtime agree if and only if the operation was refused, deleted a server, left a registered one as it was, or changed one that is not registered and is disabled or has failed |
| `ControlPlane.FailedSaveDisagrees` | src/storage.rs:97-108 | so a running server that was to be disabled goes on running, disabled in memory |

## Left out

- Sockets, timeouts, tasks, the peeking for an HTTP/2 preface, WebSocket copying, logging, the command line and file metadata: only octets that arrive, in any pieces, and octets that are written are modelled, and the failure of a read or a write other than the end of the stream is not.
- Locks: a method is one critical section, a poisoned lock is not modelled, and `ListenGroups.ListenGroup.SelectServerConfig` is the case in which no configuration is being written.
- HpackInteger.HpackDecodeInt: models the prefixes of 4 to 7 bits that the program uses, with shifts and masks written as arithmetic.
- HpackInteger.DecodeIntegerMeetsRfc: says where the value differs from RFC 7541 but not what it is there; the program drops high bits of a fifth continuation octet and saturates, which the function it is proved about does too.
- HpackDecoding.HpackDecoder.Decode: keeps the dynamic table as a sequence, newest first; the double-ended queue behind it is not modelled, nor are the tables as globals, which are a constant field.
- Limits on dynamic-table size updates and their place in a block, which the program does not enforce.
- H2Connection.ServeConnection: takes the answer to a request from a handler that stands for choosing a server, routing and building a response; connections without a listen group and the upgrade from HTTP/1 are duplicates of this one.
- H2RoundTrip.EndToEnd: the client is the model's own reader, with a stream map and a decoder like the server's; flow control, RST_STREAM and stream states, which the server does not have, are left out there too.
- H2Response.SendResponse: a connection that breaks between two frames of a response is not modelled.
- ChunkedBody.ReadChunkedBody: sums of positions and sizes are unbounded, where the program's would overflow 64 bits for a limit of nearly 2^64; lines are trimmed as octets, which agrees with trimming them after replacing what is not UTF-8, since a replaced character is neither white space nor a digit.
- Http1Proxy.ForwardRequest: octets that a client sends behind a complete body are not kept, as in the program; the choice of an upstream, its connection and its response are left out.
- Http1Proxy.ReadHeaders: a head that ends between 64 KiB and one read more is read or refused as the reads fall, which the contract leaves open because the program does.
- Http1Reread.ForwardedReadsBack: what an upstream makes of a head that the configured values do not fit is not modelled; storage accepts values that do not fit, see `Http1Reread.StoredRewriteMayNotFit`, and HTTP/2 fields need not fit either, see `H2Proxy.LineEndBreaksHead`.
- UpstreamScheduler.Scheduler.SelectUpstreamCandidates: takes sorting and filtering from functions that stand for library calls; a poisoned lock, which would mean offset zero, is not modelled.
- RoundRobin.RoundRobinIsFair: the calls for the group find the same members of the priority; a reload that changes them while calls go on is not counted through.
- UpstreamDrain.ProxyState.ReconcileUpstreams: reads all counts at one moment; `DrainRuns` reads them one by one with other steps in between.
- DrainRuns.CountsAreGuards: reloads come one at a time, and a server stops, starts or moves between them; a server that stops or starts does so in one step.
- Runtime.HttpRuntime.Apply: reconciles with the counts of one moment, where `DrainRuns` has other steps in between, and takes the outcome of binding a socket from its caller; a configuration is a value in its group, not a cell that connections share.
- Connection counts: they are carried along, but opening and closing connections, which change them, and the status of a server whose last connection closes are not modelled.
- StorageOps.HttpServerStorage.AddServerUpstream: takes the new id from its caller, as do the other operations that create something.
- Validation errors: their order and their texts are one error each kind.
- SaveTransaction.Save: assumes a serializer that reads back what it wrote and a rename that happens or does not; the directory is there.
- ControlPlane.StorageAndRuntimeAgree: admin calls come one at a time, with fresh ids and saves that succeed; a failed save is not rolled back by the program, and `ControlPlane.FailedSaveAgreement` says when agreement survives it.
- File serving, byte ranges, MIME types, entity tags, configuration merging and access to the upstream's response: they would add easy members only.
- A proxy route can be left without an upstream of its group by deletions; nothing prevents it.
