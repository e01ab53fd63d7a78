# mitos-network: a verified model

`mitos-network` is a network management daemon written in Rust. This project models the parts of it whose
correctness is hardest to see by reading, and proves what they promise for every input, every run and every
interleaving. Everything is Dafny 4.11 and self-contained; `dafny verify dfyconfig.toml` checks it.

## What is modelled

**Proxy auto-config scripts.** `PacLexer` is the tokenizer, `PacGrammar` the grammar as functions and `PacParser` the
cursor-based parser that follows it. `PacRoundTrip` shows that precedence and associativity are exact: the parser's
outputs are precisely the well-formed scripts, printing one with minimal parentheses and parsing it gives it back, and
`PacLexer.ReadScript` carries this down to characters, under any layout that keeps the tokens apart. `PacEval` has two
semantics, the depth-limited evaluator the daemon has and an unbounded big-step relation; `PacAdequacy` proves that they
agree on everything but the "too deep" error. `PacInterp` is the interpreter with its mutable scopes, counting the
syntax nodes it visits, `PacCost` bounds that count, and `PacTower` is a family of scripts for which it doubles with
every function. `PacDocumented` is the evaluator the documentation describes, compared with the one there is. `PacGlob`,
`PacCalendar` and `PacChunks` are the glob matcher, the calendar arithmetic and the de-chunking of fetched scripts.

**DHCP.** `DhcpLeases` is the server's round-robin allocator, `Dhcp4` and `Dhcp6` the two wire formats, `DhcpMessages`
the server's replies and the client's reading of them, and `DhcpExchange` the protocol: one server and any number of
clients over a network that loses, duplicates, delays and reorders datagrams.

**Netlink and WireGuard.** `Netlink` builds and walks aligned attribute chains, `NetlinkDump` reads multi-datagram
dumps, `Base64` is the accumulator-based key decoder, and `WireGuard` the device message, nested
four deep.

**Firewall.** `Nftables` compiles zones, rules and sharing to first-match chains with a packet semantics; `Firewall` is
the mutable state, the ruleset the kernel holds, and every sequence of requests with every outcome of `nft`.

**Manager.** `Devices` is the device registry with a device's way up and down, `Autoconnect` the choice of a profile,
`Manager` the state machine over devices, profiles and active connections, and `ManagerLoop` the command loop as an
object whose every command is shown to be a legal run of that machine.

**IPC.** `Ipc` is the framing and the client's wait; `IpcSession` is one connection with its event thread and request
loop sharing the socket under a mutex, in every interleaving of partial writes and reads through buffers of any size.

`Bytes` holds the integer encodings and `Wrappers` the optional value.

## How the outside world appears

Sockets, `nft`, DNS, the clock, files and subprocesses are arbitrary: their outcomes are parameters, oracle functions
(`PacEval.Host`, `PacLexer.Env`, `Ipc.Codec`, `Firewall.Checks`) or steps of a state machine, so every theorem holds
whatever they do. Hash map iteration order is an arbitrary choice. Floating-point numbers are bit patterns whose
arithmetic belongs to the oracle. Machine integers wrap explicitly where the code relies on it (the lease allocator, the
base64 accumulator). Native byte order is taken as little-endian.

## Where the code and its documentation disagree

The model follows the code.

- Top-level `var`s of a PAC script never reach function bodies: a call starts from an empty scope
  (src/proxy/pac.rs:720), against the comment at src/proxy/pac.rs:406-408 and the expectation of the test at
  src/proxy/pac.rs:1141-1162. `PacDocumented` holds the documented evaluator. A script none of whose functions reads a
  global beyond its parameters answers as documented (`SeparateScriptsAnswerAsDocumented`); one read differs exactly
  when it misses a visible, non-null global (`ReadIsDocumentedExactly`); `GlobalIsNotSeen` is a family of scripts that
  answer otherwise.
- src/proxy/pac.rs:19-23 says that no expression can make evaluation run away. It always ends: `PacCost.CallBound` bounds
  the visited nodes for every script. The bound is exponential in the depth limit, and so is the work:
  `PacTower.TowerDoubles` has scripts of 65 functions of four nodes that answer after 6 * 2^64 - 4 visits.
- src/firewall/zones.rs:9-11 describes a default policy as what happens when no rule matches. The rendered chain puts an
  accepting zone's blanket accept first, so its blocking rules never fire. `Firewall.BlockedButAccepted` is a packet at
  a reachable state; `Nftables.DocumentedExactlyUnlessBlocking` says exactly when the wording holds.
- src/firewall/nftables.rs:1-5 and 116-119 speak of replacing the table atomically. The table is deleted first, by a
  command of its own whose result is ignored (src/firewall/nftables.rs:129-134), so a load that fails leaves no ruleset.
  `Firewall.LiveIsExact` says what is live after any requests and outcomes; `Firewall.FailedLoadLeavesNothing` is a
  sequence that ends with none.
- The netlink receive loop skips to the next message by the aligned length without checking it
  (src/ip/netlink.rs:361), so it can slice past the end and panic; `NetlinkDump.PanicsExactly` says when, for every
  datagram.
- src/ip/netlink.rs:324-326 speaks of reading until a terminal message is seen. The rest of its datagram is still read,
  and parts behind the marker there are returned as well; `NetlinkDump.StopsAtDoneExactly` says when that makes no
  difference.
- De-chunking slices by a byte offset the server declares (src/proxy/pac.rs:139) and panics when that falls inside a
  character; `PacChunks.PanicsExactly` says when, for every text, and `PacChunks.CutCharacterPanics` gives UTF-8 texts.
- docs/ipc.md gives the message cap as 16 MiB; the code's is 1 MiB (src/ipc/protocol.rs:23).
- Transaction ids are the only thing that ties a DHCP reply to a client, and clients draw them at random.
  `DhcpExchange.UniqueExactlyWhenIdsAre` shows that no run shares an address if and only if no two hardware addresses
  share an id, or there is nothing to lease.

## Model

| member | source | states |
|---|---|---|
| `PacLexer.Tokenize` | src/proxy/pac.rs:226-367 | The index-driven tokenizer computes the declarative lexing of the text on every input, failing exactly where that fails, and closes the stream with an end token. |
| `PacLexer.ReadPiece` | src/proxy/pac.rs:230-363 | One turn of the tokenizer loop: what it skips or yields and where it stops are those of the lexing of the remaining text. |
| `PacLexer.ReadString` | src/proxy/pac.rs:314-338 | Reading a quoted string from past its opening quote gives its unescaped text and the rest, or fails exactly when it is unterminated. |
| `PacLexer.ReadSymbol` | src/proxy/pac.rs:246-313 | One- and two-character operators are told apart by one character of lookahead; a lone & or | is an error. |
| `PacLexer.BlockStop` | src/proxy/pac.rs:239-245 | A block comment ends after its first closing, or swallows the rest when unclosed. |
| `PacLexer.LineStop` | src/proxy/pac.rs:234-238 | A line comment ends before the next newline or at the end of the text. |
| `PacLexer.RunStop` | src/proxy/pac.rs:339-358 | The longest run of characters of a class is taken for numbers and names. |
| `PacLexer.EscapesUndone` | src/proxy/pac.rs:314-338 | Escaping any text and reading it back as a string gives the text. |
| `PacLexer.ReadQuoted` | src/proxy/pac.rs:314-338 | A quoted string becomes one token, or an error when it is unterminated. |
| `PacLexer.ReadNumber` | src/proxy/pac.rs:339-349 | A run of digits and dots becomes one number, or an error when it is none. |
| `PacLexer.ReadName` | src/proxy/pac.rs:350-358 | A run of identifier characters becomes one name. |
| `PacLexer.TokenReads` | src/proxy/pac.rs:226-367 | One token in front of any text is read back if and only if the first character of the text would not become part of it. |
| `PacLexer.LexUndoesText` | src/proxy/pac.rs:226-367 | Any tokens that have a text lex back to exactly those tokens under any blanks and comments, and without any between two tokens wherever the second does not join the first; the text may end in a comment that is never finished. |
| `PacLexer.LexUndoesLayout` | src/proxy/pac.rs:226-367 | The same with blanks and comments before the first token. |
| `PacLexer.ReadScript` | src/proxy/pac.rs:693-696 | Any well-formed script, printed under any layout that keeps its tokens apart, with or without an unfinished comment at the end, is tokenized and parsed to its own functions and globals. |
| `PacParser.Parser.ParseProgram` | src/proxy/pac.rs:450-478 | The cursor-based parser succeeds exactly on the streams the grammar accepts and collects the same functions and globals. |
| `PacParser.Parser.ParseBraces` | src/proxy/pac.rs:480-493 | A braced block consumes and yields what the grammar prescribes. |
| `PacParser.Parser.ParseStatement` | src/proxy/pac.rs:495-566 | A statement consumes and yields what the grammar prescribes. |
| `PacParser.Parser.ParseConditional` | src/proxy/pac.rs:519-544 | An if with its optional else, else-if chains included, consumes and yields what the grammar prescribes. |
| `PacParser.Parser.ParseBinary` | src/proxy/pac.rs:575-642 | Each of the five binary levels parses the next tighter level and then its own operators. |
| `PacParser.Parser.OperatorLoop` | src/proxy/pac.rs:578-642 | The operator loop folds to the left, as the grammar's tail does. |
| `PacParser.Parser.ParseNot` | src/proxy/pac.rs:644-649 | Negation binds tighter than every binary operator. |
| `PacParser.Parser.ParseAtom` | src/proxy/pac.rs:651-690 | Literals, names, calls and parentheses are read as the grammar prescribes. |
| `PacParser.Parser.ArgLoop` | src/proxy/pac.rs:667-680 | Comma-separated arguments are collected in order. |
| `PacParser.ParsePrinted` | src/proxy/pac.rs:450-691 | Running the parser on the printed form of any well-formed script gives that script's meaning. |
| `PacRoundTrip.ExprExact` | src/proxy/pac.rs:575-691 | An expression printed with minimal parentheses at any level parses back to itself and leaves the rest, so precedence and left associativity are exact. |
| `PacRoundTrip.StmtRoundTrip` | src/proxy/pac.rs:495-573 | Every well-formed statement parses back from its printed form, leaving the rest. |
| `PacRoundTrip.ItemRoundTrip` | src/proxy/pac.rs:450-478 | Every well-formed function or global parses back from its printed form, leaving the rest. |
| `PacRoundTrip.ProgramRoundTrip` | src/proxy/pac.rs:414-691 | Every well-formed script parses back from its printed form, to the end of the stream. |
| `PacRoundTrip.ParserImage` | src/proxy/pac.rs:414-691 | A list of declarations is the parse of some stream if and only if it is well formed. |
| `PacRoundTrip.ReprintIsStable` | src/proxy/pac.rs:414-691 | Printing whatever was parsed and parsing again changes nothing. |
| `PacInterp.Call` | src/proxy/pac.rs:710-728 | The interpreter's call agrees with the depth-limited semantics and visits exactly the counted nodes. |
| `PacInterp.RunBlock` | src/proxy/pac.rs:730-743 | A block run on a mutable scope leaves the scope and signal of the semantics, stopping at the first return. |
| `PacInterp.RunStmt` | src/proxy/pac.rs:745-784 | A statement run on a mutable scope leaves the scope and signal of the semantics. |
| `PacInterp.EvalExpr` | src/proxy/pac.rs:786-844 | Expression evaluation agrees with the semantics, errors and short circuits included, and visits exactly the counted nodes. |
| `PacInterp.EvalArgs` | src/proxy/pac.rs:792-798 | Arguments are evaluated left to right up to the first failure. |
| `PacInterp.Evaluate` | src/proxy/pac.rs:860-884 | Evaluating a script runs its globals, then the entry function, and answers DIRECT for a null result. |
| `PacInterp.OnlyParamsBound` | src/proxy/pac.rs:720-723 | A call's scope starts with parameters only. |
| `PacDocumented.SeparateScriptsAnswerAsDocumented` | src/proxy/pac.rs:406-408 | A script none of whose functions reads a global beyond its parameters answers, for every URL, what it would if the globals seeded every call. |
| `PacDocumented.CallAgrees` | src/proxy/pac.rs:710-728 | Every call of such a script agrees with the documented evaluator at every depth, errors included. |
| `PacDocumented.ReadIsDocumentedExactly` | src/proxy/pac.rs:720-723 | A read in a body gets its documented value if and only if the name is local, is no visible global, or its global value is null. |
| `PacDocumented.GlobalIsNotSeen` | src/proxy/pac.rs:1141-1162 | A function returning a global of any name and text is documented to answer the text and answers DIRECT. |
| `PacAdequacy.EvalExact` | src/proxy/pac.rs:786-844 | Evaluation within a depth budget is exactly derivability in the big-step relation at that height. |
| `PacAdequacy.InvokeExact` | src/proxy/pac.rs:710-728 | The same for calls. |
| `PacAdequacy.ExecExact` | src/proxy/pac.rs:730-743 | The same for blocks. |
| `PacAdequacy.MeaningIsUnique` | src/proxy/pac.rs:709-845 | The unbounded semantics gives a call at most one outcome. |
| `PacAdequacy.LimitOnlyCutsOff` | src/proxy/pac.rs:709-845 | A call that does not hit the limit yields its unbounded meaning, and a call with a meaning yields that or the limit error. |
| `PacAdequacy.ShallowerAgrees` | src/proxy/pac.rs:709-845 | A result obtained at some depth is obtained at every smaller depth. |
| `PacAdequacy.TooDeepIsExact` | src/proxy/pac.rs:35-35 | The limit error occurs exactly when no derivation of height 65 exists. |
| `PacCost.CallBound` | src/proxy/pac.rs:15-35 | When no body has more than K nodes, a call at depth d visits fewer than (K+1)^(65-d) nodes. |
| `PacTower.TowerDoubles` | src/proxy/pac.rs:15-23 | In a chain of functions that each add two calls of the next, within the depth limit, the k-th from the end answers without an error after exactly 6*2^k - 4 visits. |
| `PacTower.TowerAnswers` | src/proxy/pac.rs:860-884 | Every such chain of up to 65 functions, as a whole script, answers for every URL under the depth limit of the source. |
| `PacTower.TowerIsSmall` | src/proxy/pac.rs:15-23 | None of its functions has more than four nodes. |
| `PacCost.BlockBound` | src/proxy/pac.rs:730-743 | A block of n nodes at depth d visits at most n times that many. |
| `PacCost.StmtBound` | src/proxy/pac.rs:745-784 | A statement of n nodes at depth d visits at most n times that many. |
| `PacCost.ExprBound` | src/proxy/pac.rs:786-844 | An expression of n nodes at depth d visits at most n times that many. |
| `PacGlob.MatchesIsDeclarative` | src/proxy/pac.rs:937-948 | A string matches a pattern if and only if it can be cut into pieces, one per pattern byte: any run for a star, one byte for a question mark, itself for a literal. |
| `PacGlob.SqueezeKeepsMatches` | src/proxy/pac.rs:937-948 | Collapsing repeated stars never changes an answer. |
| `PacCalendar.CivilIsInverse` | src/proxy/pac.rs:962-974 | Every day number, negative ones included, maps to a valid Gregorian date whose day count is that number. |
| `PacCalendar.CountIsInverse` | src/proxy/pac.rs:962-974 | Every valid date is recovered from its day count. |
| `PacCalendar.SameCountSameDate` | src/proxy/pac.rs:962-974 | No two valid dates have the same day count. |
| `PacCalendar.DaysAreConsecutive` | src/proxy/pac.rs:962-974 | Consecutive numbers map to consecutive dates, across month, year and leap boundaries. |
| `PacCalendar.EpochDate` | src/proxy/pac.rs:958-974 | Day zero is 1 January 1970. |
| `PacCalendar.WeekdaysAdvance` | src/proxy/pac.rs:976-979 | Weekdays advance by one modulo seven for every day number, from a Thursday at day zero. |
| `PacChunks.Dechunk` | src/proxy/pac.rs:122-146 | The loop over the remaining text computes the declarative de-chunking, stopping at the first malformed or short chunk and panicking where the byte slice does. |
| `PacChunks.PanicsExactly` | src/proxy/pac.rs:139-139 | For every text, de-chunking panics if and only if it meets a chunk whose declared size ends inside a character. |
| `PacChunks.DeclaredSizeSplits` | src/proxy/pac.rs:126-139 | A declared size splits a character exactly when the text reaches past it and goes on there with a continuation byte. |
| `PacChunks.CutCharacterPanics` | src/proxy/pac.rs:139-139 | A chunk declared one byte long in front of any two-byte UTF-8 character panics. |
| `PacChunks.DechunkUndoesChunking` | src/proxy/pac.rs:122-146 | Any way of cutting a body into chunks, with any extensions, is undone without a panic up to the closing zero chunk. |
| `PacChunks.HexRoundTrip` | src/proxy/pac.rs:130-133 | Every size that fits a machine word is read back from its hexadecimal form. |
| `DhcpLeases.LeaseTable.Assign` | src/sharing/dhcp_server.rs:33-54 | The allocating method leaves the table and gives the answer of the allocation function. |
| `DhcpLeases.LeaseTable.Search` | src/sharing/dhcp_server.rs:42-53 | The wrapped probe finds the first free address from the cursor on and leaves the cursor behind it. |
| `DhcpLeases.FullTurn` | src/sharing/dhcp_server.rs:42-53 | The probe comes back empty if and only if every pool address is taken. |
| `DhcpLeases.AllocateIsSound` | src/sharing/dhcp_server.rs:33-54 | Bindings stay injective, in the pool and permanent, and an allocation fails exactly when the client is unbound and the pool is full. |
| `DhcpLeases.EveryRunIsSound` | src/sharing/dhcp_server.rs:33-54 | The same over every sequence of allocations. |
| `DhcpLeases.AddressIsSticky` | src/sharing/dhcp_server.rs:33-54 | A client gets the same address again whatever was allocated in between. |
| `Dhcp4.SerializePacket` | src/dhcp/dhcp4.rs:140-166 | The buffer-filling serializer writes the declared layout. |
| `Dhcp4.ParsePacket` | src/dhcp/dhcp4.rs:168-215 | The index-driven parser computes the declarative reading, failing exactly on short buffers and a wrong cookie. |
| `Dhcp4.ReadOptions` | src/dhcp/dhcp4.rs:182-202 | The option loop skips padding, stops at the end code or a truncated option and keeps the rest. |
| `Dhcp4.PacketRoundTrip` | src/dhcp/dhcp4.rs:140-215 | A packet survives serializing and parsing if and only if its options use codes other than 0 and 255 and at most 255 data bytes. |
| `Dhcp4.HeaderRoundTrip` | src/dhcp/dhcp4.rs:140-182 | The fixed header always survives. |
| `Dhcp4.ParsedOptionsFit` | src/dhcp/dhcp4.rs:182-202 | Whatever was parsed can be serialized again. |
| `Ipv4.MaskValue` | src/ip/ipv4.rs:6-12 | The mask of a prefix length has that many leading ones and no others. |
| `Ipv4.MaskRoundTrip` | src/ip/ipv4.rs:6-12 | Counting the ones of a mask gives the prefix length, for 0 to 32. |
| `DhcpMessages.HandleDatagram` | src/sharing/dhcp_server.rs:156-180 | One turn of the server loop leaves the lease table and sends the reply of the serving function; anything unparsable is ignored. |
| `DhcpMessages.ReplyFits` | src/sharing/dhcp_server.rs:184-227 | Every reply the server builds survives the wire. |
| `DhcpMessages.ReplyArrives` | src/sharing/dhcp_server.rs:184-227 | Whatever the name-server list, a reply arrives with its transaction and hardware ids, address, kind and server. |
| `DhcpMessages.LongListIsCut` | src/sharing/dhcp_server.rs:206-209 | A list of n > 63 name servers arrives as its first n modulo 64 servers, and everything else as configured but for a domain name, which may be read from the octets cut off. |
| `DhcpMessages.AckDecodes` | src/sharing/dhcp_server.rs:184-227 | An acknowledgement decodes at the client to exactly the configured prefix, router, lease time and name servers if and only if there are at most 63 of these. |
| `DhcpMessages.AckOptions` | src/sharing/dhcp_server.rs:190-210 | The acknowledgement carries mask, router, lease time and name servers, and no domain. |
| `DhcpMessages.AddressesRoundTrip` | src/dhcp/client.rs:171-179 | Any list of addresses is read back from its octets. |
| `DhcpExchange.Acquire` | src/dhcp/client.rs:91-158 | The client's receive loops end with the lease of the client state machine fed the same datagrams. |
| `DhcpExchange.SettledStays` | src/dhcp/client.rs:91-158 | A client that is bound or has given up ignores everything further. |
| `DhcpExchange.StepKeepsInv` | src/sharing/dhcp_server.rs:138-182 | Every event of the network, server or a client keeps the invariant that grants in flight are bindings of the server's table and leases held lie in the pool, are the client's own binding if ids are distinct, and are as configured if that fits a packet. |
| `DhcpExchange.RunsKeepInv` | src/sharing/dhcp_server.rs:138-182 | So does every run. |
| `DhcpExchange.NoAddressIsShared` | src/sharing/dhcp_server.rs:138-182 | With distinct transaction ids, in every run over a lossy, duplicating, reordering network and for every name-server list, clients with different hardware addresses never hold the same address. |
| `DhcpExchange.HeldAddressesAreInThePool` | src/sharing/dhcp_server.rs:138-182 | In every run, whatever the transaction ids, an address held lies in the pool. |
| `DhcpExchange.SharedIdSharesTheAddress` | src/dhcp/client.rs:75-158 | For any two hardware addresses under one transaction id there is a run from the start in which both end up holding one address. |
| `DhcpExchange.UniqueExactlyWhenIdsAre` | src/dhcp/client.rs:91-158 | No run shares an address if and only if no two hardware addresses use one transaction id, or the pool is empty. |
| `DhcpExchange.LeasesAreAsConfigured` | src/dhcp/client.rs:160-202 | Every lease held is the binding in the server's table, inside the pool, with exactly the configured parameters. |
| `DhcpExchange.ExchangeSucceeds` | src/dhcp/client.rs:91-158 | When the pool has an address for it, discover, offer, request and acknowledgement through both parsers leave the client bound to that address. |
| `DhcpExchange.DiscoverGetsOffer` | src/sharing/dhcp_server.rs:160-162 | A discover is offered the allocated address and moves the client to requesting it. |
| `DhcpExchange.RequestGetsAck` | src/sharing/dhcp_server.rs:163-174 | A request for one's own binding is acknowledged and binds the client. |
| `Dhcp6.ReadOptions` | src/dhcp/dhcp6.rs:79-91 | The option loop computes the declarative reading and stops at a truncated option. |
| `Dhcp6.OptionsRoundTrip` | src/dhcp/dhcp6.rs:73-91 | An option list survives if and only if every payload fits a 16-bit length (section 21.1 of RFC 8415). |
| `Dhcp6.ReadIaNa` | src/dhcp/dhcp6.rs:283-318 | The loop over an identity association computes the declarative reading of its two levels. |
| `Dhcp6.IaNaRoundTrip` | src/dhcp/dhcp6.rs:269-318 | An identity association survives if and only if its lifetimes are zero without an address and its status message fits (sections 21.4 and 21.6 of RFC 8415). |
| `Dhcp6.BuildIaRequest` | src/dhcp/dhcp6.rs:344-374 | The builder emits the header and the declared options in order. |
| `Dhcp6.RequestRoundTrip` | src/dhcp/dhcp6.rs:344-374 | A request for an address reads back to its client id, server id, and through two levels of nesting to its address and lifetimes. |
| `Dhcp6.ReadDomains` | src/dhcp/dhcp6.rs:136-156 | The domain-list loop stays in bounds on every byte string and computes the declarative reading. |
| `Dhcp6.ReadName` | src/dhcp/dhcp6.rs:141-151 | The label loop reads one name and always advances. |
| `Dhcp6.DnsRoundTrip` | src/dhcp/dhcp6.rs:130-135 | Any list of name servers is read back. |
| `Dhcp6.DomainsRoundTrip` | src/dhcp/dhcp6.rs:136-156 | Any list of names encoded as labels (section 3.1 of RFC 1035) is read back, dotted. |
| `Netlink.AttrBuilder.PushRaw` | src/ip/netlink.rs:134-142 | Pushing appends one attribute to the chain the buffer encodes, padding included. |
| `Netlink.AttrBuilder.Nested` | src/ip/netlink.rs:163-165 | Nesting appends the inner chain as a payload. |
| `Netlink.ParseAttrs` | src/ip/netlink.rs:175-191 | The shrinking-slice loop computes the walk of the chain, the last payload of a type winning. |
| `Netlink.ChainRoundTrip` | src/ip/netlink.rs:117-191 | A chain is walked back to its attributes if and only if every one fits a 16-bit length. |
| `Netlink.LookupRoundTrip` | src/ip/netlink.rs:134-191 | Looking a type up in a parsed chain gives its last payload. |
| `Netlink.AbsentRoundTrip` | src/ip/netlink.rs:134-191 | A type that was not pushed is not found. |
| `Netlink.FoundSize` | src/ip/netlink.rs:175-191 | Attributes found under different types in a parsed buffer fit into it together, so a parse never yields more than was there. |
| `Netlink.WrappedIsLost` | src/ip/netlink.rs:134-191 | A last attribute of exactly 64 KiB gets the length zero and is not found again. |
| `Netlink.LastWins` | src/ip/netlink.rs:175-191 | Later attributes of a type replace earlier ones. |
| `NetlinkDump.ScanLoop` | src/ip/netlink.rs:339-362 | The scan of one datagram computes the declarative reading, including where it panics. |
| `NetlinkDump.ReceiveUntilDone` | src/ip/netlink.rs:327-373 | The receive loop over datagrams computes the declarative reading up to the end marker. |
| `NetlinkDump.DumpIsExact` | src/ip/netlink.rs:266-277 | When every datagram holds whole padded messages, a dump returns exactly the bodies carrying its sequence number, in order, up to and including the first datagram with an end marker, an error or a single reply, or is refused exactly when one of the errors is no acknowledgement. |
| `NetlinkDump.QuietNeverEnds` | src/ip/netlink.rs:327-373 | Without such a datagram the receive fails, however much has arrived. |
| `NetlinkDump.StopsAtDoneExactly` | src/ip/netlink.rs:341-366 | The answer stops at the end marker if and only if nothing behind it in its datagram is a body of its own or a refusal. |
| `NetlinkDump.PanicsExactly` | src/ip/netlink.rs:339-362 | For every datagram, the scan panics if and only if its walk reaches a message that is there in full while its padding is not. |
| `NetlinkDump.LastPaddingDecides` | src/ip/netlink.rs:361-361 | Messages followed by a last one with some padding of any bytes panic if and only if that padding is too short. |
| `NetlinkDump.AlignedNeverPanics` | src/ip/netlink.rs:339-362 | A datagram of aligned length never makes the scan panic, whatever it holds. |
| `Base64.Decode` | src/vpn/wireguard.rs:248-274 | The shift-and-mask loop computes the declarative decoding. |
| `Base64.Feed` | src/vpn/wireguard.rs:264-272 | One turn keeps what is still to come out: the octets out so far and those of the accumulator and the rest are unchanged. |
| `Base64.AccIsOctets` | src/vpn/wireguard.rs:259-272 | An accumulator that is never cleared and sheds its high bits yields the same octets as exact arithmetic. |
| `Base64.RoundTrip` | src/vpn/wireguard.rs:248-274 | Decoding undoes the encoding of section 4 of RFC 4648 for every byte sequence. |
| `Base64.FailsExactlyOnForeignCharacters` | src/vpn/wireguard.rs:248-274 | Decoding fails if and only if a character before the padding is outside the alphabet. |
| `Base64.DecodeKey` | src/vpn/wireguard.rs:235-246 | A key is accepted exactly when the trimmed text decodes to 32 bytes. |
| `Base64.RecoverKey` | src/vpn/wireguard.rs:235-274 | Every 32-byte key is recovered from its encoding, with any white space around it. |
| `WireGuard.SockaddrRoundTrip` | src/vpn/wireguard.rs:213-233 | An endpoint of either family is read back from its socket address. |
| `WireGuard.SetDevice` | src/vpn/wireguard.rs:139-186 | The message built is the generic header and the nested device chain. |
| `WireGuard.AllowedChain` | src/vpn/wireguard.rs:148-170 | Each allowed address becomes a nested entry, numbered in order. |
| `WireGuard.AllowedRoundTrip` | src/vpn/wireguard.rs:148-170 | The allowed-addresses chain reads back to exactly the listed entries. |
| `WireGuard.PeerRoundTrip` | src/vpn/wireguard.rs:139-171 | The peer chain reads back to its key, flags, endpoint, keepalive and allowed addresses. |
| `WireGuard.DeviceLookups` | src/vpn/wireguard.rs:173-183 | A device whose name and peers fit reads back to its name, private key, optional port, flags and, through all nesting levels, its peer. |
| `WireGuard.MessageRoundTrip` | src/vpn/wireguard.rs:139-186 | A whole message is read back through all nesting levels, with name, keys, ports, endpoint, keepalive and the full list of allowed addresses, if and only if its name and its peer chain each fit one attribute. |
| `Nftables.Render` | src/firewall/nftables.rs:44-114 | The loops emit the input, forward and output chains and the masquerade list. |
| `Nftables.RenderZone` | src/firewall/nftables.rs:61-83 | A zone with interfaces emits its blanket accept, if any, and then its inbound rules in order. |
| `Nftables.RuleCondsMean` | src/firewall/nftables.rs:22-37 | A rendered rule matches exactly the packets of its protocol, ports and source; a port without a protocol is not rendered. |
| `Nftables.ZoneDecides` | src/firewall/nftables.rs:61-83 | A zone's lines decide its own interfaces' packets only: always accept for an accepting zone, else its first matching rule. |
| `Nftables.NewPacketsFollowTheirZone` | src/firewall/nftables.rs:55-84 | With interfaces in at most one zone each, a new packet gets its own zone's verdict, and none of them means drop. |
| `Nftables.TrackedPacketsIgnoreZones` | src/firewall/nftables.rs:55-60 | Established, related and loopback packets are accepted and invalid ones dropped whatever the zones. |
| `Nftables.DocumentedExactlyUnlessBlocking` | src/firewall/zones.rs:8-14 | The documented reading of a default policy holds for a packet if and only if its zone is not an accepting one whose first matching rule blocks. |
| `Nftables.ForwardAcceptsExactly` | src/firewall/nftables.rs:86-94 | A packet is forwarded if and only if it belongs to a tracked connection or follows a shared pair. |
| `Nftables.OutputFollowsFirstRule` | src/firewall/nftables.rs:96-101 | Outgoing packets follow the first matching outbound rule, whatever its zone, and are accepted when none matches. |
| `Firewall.Firewall.Apply` | src/firewall/nftables.rs:128-168 | Applying deletes the live table and loads the rendering of the current state: a load that works makes that live, one that fails leaves nothing live if the deletion worked and the old ruleset otherwise. |
| `Firewall.Firewall.DoAssignZone` | src/firewall/firewall.rs:44-62 | Assignment succeeds exactly for valid names, known zones and a load that works; the state moves even when the load fails, and what is live is what the application left. |
| `Firewall.Firewall.DoEnsureDefaultZone` | src/firewall/firewall.rs:66-75 | An interface in no zone is put in the default one; any other is left alone. |
| `Firewall.Firewall.DoAddRule` | src/firewall/firewall.rs:77-100 | A valid rule replaces any of the same id and goes last. |
| `Firewall.Firewall.DoRemoveRule` | src/firewall/firewall.rs:102-105 | Every rule of the id goes. |
| `Firewall.Firewall.DoEnableSharing` | src/firewall/firewall.rs:118-133 | A pair and its outer interface are added once. |
| `Firewall.Firewall.DoDisableSharing` | src/firewall/firewall.rs:135-142 | The pair goes, and its outer interface stops masquerading when nothing else shares to it. |
| `Firewall.AssignMoves` | src/firewall/firewall.rs:55-60 | After an assignment the interface is in the named zone and no other, and every other interface is where it was. |
| `Firewall.AddedRuleYields` | src/firewall/firewall.rs:97-98 | An added rule decides only packets that no rule of another id decides, its former version is gone, and every other rule stays. |
| `Firewall.HandlingKeeps` | src/firewall/firewall.rs:44-142 | Every request, admitted or not, keeps the state sound: built-in zones, interfaces in at most one zone and once, distinct rule ids with known zones, masquerading exactly the shared outer interfaces. |
| `Firewall.EveryStateIsSound` | src/firewall/firewall.rs:44-142 | So does every sequence of requests. |
| `Firewall.LiveIsExact` | src/firewall/nftables.rs:128-168 | Over every sequence of requests and outcomes, what is live is the rendering of the state right after the last load that worked, and nothing is live exactly when no load has worked since the last deletion. |
| `Firewall.FailedLoadLeavesNothing` | src/firewall/nftables.rs:129-134 | An assignment that works and a removal whose load fails end with zones in memory and no ruleset live. |
| `Firewall.OutcomesDoNotMatter` | src/firewall/firewall.rs:44-142 | The firewall's own state depends on the requests alone, not on how nft answered. |
| `Firewall.BlockedButAccepted` | src/firewall/zones.rs:8-14 | After an assignment to the trusted zone and the addition of a rule there that blocks everything, the packet is accepted. |
| `Firewall.ReachableInputIsZoned` | src/firewall/nftables.rs:55-84 | In every reachable state the rendered input chain gives a new packet its own zone's verdict, or drops it. |
| `Firewall.ReachableForwardIsMasqueraded` | src/firewall/nftables.rs:86-110 | In every reachable state a forwarded new packet leaves masqueraded, and only interfaces shared to are masqueraded. |
| `Firewall.DisableUndoesEnable` | src/firewall/firewall.rs:118-142 | Starting and stopping a new share restores the state exactly. |
| `Devices.DeviceRegistry.Refresh` | src/device/manager.rs:22-36 | The rescan loop rebuilds the registry as specified; a failed scan changes nothing. |
| `Devices.RescanIsFaithful` | src/device/manager.rs:22-36 | After a scan the registry lists exactly the reported interfaces, keeps the policy state of those it knew and manages, and resets the unmanaged. |
| `Devices.Activate` | src/connection/activation.rs:18-117 | Activation writes the device's state stage by stage: it ends Activated on the profile exactly when every outside step worked, and otherwise at the stage that failed. |
| `Devices.Deactivate` | src/connection/deactivation.rs:9-34 | Teardown ends Disconnected without a connection, or stays Deactivating with its connection when an outside step fails. |
| `Autoconnect.WiredPrefers` | src/connection/autoconnect.rs:8-44 | Autoconnect prefers pinned profiles, then higher priority, then most recent use, and picks nothing exactly when nothing is eligible. |
| `Autoconnect.WifiPrefers` | src/connection/autoconnect.rs:50-70 | Among profiles of visible networks it prefers higher priority, then most recent use. |
| `Autoconnect.HeadWins` | src/connection/autoconnect.rs:25-33 | The head of a stable sort beats or ties everything and wins its ties by having come first. |
| `Manager.StepKeepsInv` | src/manager/manager.rs:123-348 | Every step leaves no device mid-activation, no connection on a device that is neither up nor coming down, and no device up without an active entry of the same profile. |
| `Manager.RunsKeepInv` | src/manager/manager.rs:95-114 | So does every run. |
| `Manager.EndsExactly` | src/manager/manager.rs:274-348 | A step ends an established connection if and only if it unplugs the device, takes that profile down on it, or is a scan that loses or unmanages it. |
| `Manager.ConnectionIsStable` | src/manager/manager.rs:95-348 | Over every run a connection stays up at every step if and only if no step is one of those. |
| `Manager.OnlyRaisingConnects` | src/manager/manager.rs:274-316 | A device becomes connected on a profile if and only if an activation of that profile chose it and worked. |
| `Manager.ProfilesFollow` | src/manager/manager.rs:379-452 | Only saving and dropping change what a profile id means, each for its own id alone. |
| `Manager.AgreementIsLostExactly` | src/manager/manager.rs:319-348 | The active map and the registry, while they agree, part exactly at a failed teardown or a scan that loses or unmanages a device in use. |
| `ManagerLoop.NetworkManager.constructor` | src/manager/manager.rs:53-92 | A new manager has the scanned devices, the loaded profiles and nothing active, and is sound. |
| `ManagerLoop.NetworkManager.FindDevice` | src/manager/manager.rs:259-272 | A free device of the profile's type, and the pinned one if any, is found exactly when there is one, in any iteration order. |
| `ManagerLoop.NetworkManager.ActivateProfile` | src/manager/manager.rs:274-316 | Activation is a legal step that reports success exactly when it left a device up on the profile, and a failed one leaves the device Failed. |
| `ManagerLoop.NetworkManager.DeactivateProfile` | src/manager/manager.rs:319-348 | Deactivation is a legal step on a device running the profile, and reports success exactly when the device is known and was torn down. |
| `ManagerLoop.NetworkManager.TryAutoconnect` | src/manager/manager.rs:217-257 | An attempt activates the profile selected for the device, or does nothing when the device is unknown, in use, not idle or without carrier. |
| `ManagerLoop.NetworkManager.AutoconnectAll` | src/manager/manager.rs:208-215 | A sweep attempts every device once, in any order. |
| `ManagerLoop.NetworkManager.HandleHotplug` | src/manager/manager.rs:123-153 | Hotplug events rescan and attempt, forget the device, or rescan. |
| `ManagerLoop.NetworkManager.HandleTick` | src/manager/manager.rs:155-203 | Timer ticks sweep the Wi-Fi devices, or rescan and sweep all. |
| `ManagerLoop.NetworkManager.Delete` | src/manager/manager.rs:390-403 | Deleting takes the profile down if it is active and then drops it if its file went. |
| `ManagerLoop.NetworkManager.JoinWifi` | src/manager/manager.rs:422-443 | Joining a network stores a profile pinned to the device and activates it. |
| `ManagerLoop.NetworkManager.HandleRequest` | src/manager/manager.rs:379-452 | Each connection request, and a configuration reload, does exactly its steps. |
| `ManagerLoop.NetworkManager.HandleCommand` | src/manager/manager.rs:97-112 | Each command is a legal run of exactly its steps. |
| `ManagerLoop.NetworkManager.Serve` | src/manager/manager.rs:95-114 | The manager sweeps once and then carries out the commands in order. |
| `ManagerLoop.CommandIsSafe` | src/manager/manager.rs:123-452 | Every command keeps the state sound and leaves up every connection it cannot end. |
| `ManagerLoop.HistoryIsSound` | src/manager/manager.rs:95-114 | Every state between the commands of every history is sound. |
| `ManagerLoop.StaysUp` | src/manager/manager.rs:95-452 | Over any stretch of commands none of which deactivates or deletes the profile, removes the link, or rescans without the device or with it unmanaged, a connection stays up. |
| `Ipc.WriteMessage` | src/ipc/protocol.rs:25-34 | A message within the cap is written as one frame; one over it is refused with nothing written. |
| `Ipc.ReadMessage` | src/ipc/protocol.rs:36-48 | Reading takes one frame off the front, and refuses an oversized length before its body. |
| `Ipc.FrameRoundTrip` | src/ipc/protocol.rs:25-48 | Reading undoes writing, whatever follows. |
| `Ipc.ReadIsFrame` | src/ipc/protocol.rs:25-48 | Whatever is read was written as a frame. |
| `Ipc.CutFrameIsShort` | src/ipc/protocol.rs:36-48 | A frame cut anywhere before its end is never taken for a message or an oversized one. |
| `Ipc.TakenWhole` | src/ipc/protocol.rs:36-48 | A reader that asks for the length and then the body takes exactly one message and leaves what follows. |
| `Ipc.SendRequest` | src/ipc/client.rs:28-36 | A request is written whole and the first response on the stream returned, with nothing after it consumed. |
| `Ipc.AwaitSkipsEvents` | src/ipc/client.rs:28-36 | Any number of events before a response do not hide it. |
| `IpcSession.StepKeepsInv` | src/ipc/server.rs:142-226 | Every step of client, event thread, request loop and manager keeps the session in order. |
| `IpcSession.SocketCarriesWholeFrames` | src/ipc/server.rs:142-172 | In every interleaving the bytes written are whole frames, but for the front part of the one the lock holder is writing. |
| `IpcSession.SocketIsClean` | src/ipc/client.rs:30-35 | What stands before the client is the next whole message, or nothing whole yet. |
| `IpcSession.ClientNeverFails` | src/ipc/client.rs:28-36 | The client never meets an oversized or undecodable message. |
| `IpcSession.LoopNeverFails` | src/ipc/server.rs:194-195 | The request loop never meets an oversized or undecodable request, and what it reads is the outstanding one. |
| `IpcSession.KthResultAnswersKthRequest` | src/ipc/server.rs:186-226 | The k-th request is what the loop read k-th, and its result is the answer given to it. |
| `IpcSession.EventsArriveInOrder` | src/ipc/server.rs:157-166 | Events arrive in the order broadcast, none lost or doubled before the last one seen. |
| `IpcSession.SomebodyMoves` | src/ipc/server.rs:142-226 | While the client waits and every answer fits the cap, somebody can move, with socket buffers of one byte or more in each direction: there is no deadlock. |
| `IpcSession.RunsAreShort` | src/ipc/server.rs:142-226 | No run without new requests or events is longer than a bound computed from its first state. |
| `IpcSession.StuckMeansAnswered` | src/ipc/server.rs:142-226 | With such buffers, a run that can go no further has answered every request. |

## Left out

- Raw sockets, ioctls, `/sys` and `/proc`, and the subprocesses (`nft`, `hostapd`, `openvpn`, `bluetoothctl`): foreign effects whose outcomes are arbitrary here.
- JSON, TOML and the profile, lease and secret files: the JSON mapping is a pair of functions of which only "decoding undoes encoding" is used, files are outcomes.
- The text of the nftables ruleset: the model compiles to a structured chain with a packet semantics.
- `nft`'s own reading of a protocol without a port, or of a source given as a range: source matching is an oracle.
- Input validators, capability tables and device classification: single-branch facts, predicates or inputs here.
- Rounding, NaN and printing of script numbers: they belong to the evaluator's oracle, so nothing is claimed about them.
- The built-in PAC functions other than glob matching and the calendar, and DNS and the clock behind them: one oracle.
- Overflow of day numbers within 719468 of the ends of the 64-bit range in the calendar arithmetic.
- The lossy conversion of a fetched body to UTF-8 before de-chunking, which alters a character cut in two by a chunk boundary.
- Lossy UTF-8 conversion of domain names and status messages in DHCPv6: names are byte strings.
- The 1500-byte receive buffers of the DHCP server and client, which would cut longer datagrams.
- A lease pool covering all of the 32-bit space, whose size computation wraps to zero in the original; and overflow-checked builds, which stop on a pool that ends at the last address.
- DHCP renewal, rebinding and release timing, and lease files.
- DhcpMessages.AckDecodes: covers prefix lengths up to 32, because the mask of a longer prefix is not defined.
- Host names of more than 255 bytes in client messages.
- Firewall.Firewall.Apply: takes a load over a table whose deletion failed as replacing it, as src/firewall/nftables.rs:116-119 says; what `nft` merges then, and the moment between deletion and load, are not modelled.
- The documented evaluator lets an assignment in a function set a local name, as the interpreter does; what the documentation would have it do to a global is not said.
- Device address lists, which activation and teardown also write; no decision depends on them.
- Devices.Activate: groups the outside steps before and after the link is usable into one outcome each, since no device field is written between them.
- The manager's audit log, event broadcasts, connectivity checks, lease renewal, hotspot, Bluetooth, proxy and diagnostic requests: they do not touch devices, profiles or active connections.
- Socket errors and timeouts on an IPC connection: a run simply stops there, so the safety results cover every prefix before it.
- The connection slots, the request rate limit and the permission check of the IPC server: a counter, a delay and a table.
- Route metrics, configuration loading, logging, the command-line client, monitoring and captive-portal classification: easy members or reporting.
