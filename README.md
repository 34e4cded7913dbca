# WallGuard core, modelled in Dafny

WallGuard is a firewall-monitoring system. An agent runs on the firewall host and a server collects what it sends. This project models the parts of both that compute rather than do I/O, and proves properties of them.

**Traffic capture (the C agent).**
- The capture loop on each interface cuts a header window out of every IPv4 TCP or UDP frame.
- The dispatcher frames each window into a fixed-capacity buffer: a 36-byte system UUID in front of each batch, then per record a zero-padded 16-byte interface name and the data. It sends the buffer on when the next record does not fit.
- The exclusion filter keeps the agent's own traffic to the server and the monitor out of the capture. It is built from the endpoint URLs, which `parse_url` splits.
- Also modelled: the path helpers and the file-modification monitor.

**Configuration parsing (Rust).**
- pfSense `config.xml` is read into rules, aliases, interfaces, hostname and SSH settings, and rules and aliases are written back as XML.
- An nftables ruleset is tokenized and its tables and chains are parsed, including chain priorities.
- nftables sets are expanded into comma-separated alias values and converted back.
- The server explodes an alias value into address rows and port-range rows.
- Rules are serialized to and from a flattened serde record.

**Small codecs and state.**
- The `TimestampedPacket` byte codec.
- The TTY session's bounded replay memory.
- Dump-item draining and dump-file naming.
- The platform name and its capabilities.

Each source component is one module:
- XML is a small tree of elements, text and CDATA nodes.
- The token stream is a class over a token sequence with a cursor.
- The dispatcher's buffer is a class over an array.
- State that the source updates in place lives in classes whose methods are specified against functions. The lemmas about those functions carry the properties: round trips, bounds, order and error cases.

## Model

| member | source | states |
|---|---|---|
| DBuffer.Buffer.Init | src/utils/dbuffer.h:15-21 | a new buffer has the requested capacity, offset 0, a fresh block of that size and no contents |
| DBuffer.Buffer.Free | src/utils/dbuffer.h:23-28 | a freed buffer has capacity 0, offset 0 and no block |
| DBuffer.Buffer.Write | src/utils/dbuffer.h:30-38 | a write succeeds exactly when offset + len fits the capacity; on success the contents grow by exactly the data and the offset by len, on failure nothing changes |
| DBuffer.Buffer.Clear | src/utils/dbuffer.h:57-62 | clearing empties the contents and keeps the block and capacity |
| DBuffer.EmptyBufferBound | src/utils/dbuffer.h:40-55 | on an empty buffer a write of len bytes fits exactly when len <= capacity |
| Dispatcher.BufferSize | src/net_capture/dispatcher.c:9-14 | the buffer holds 65536 bytes in release builds and 2048 otherwise |
| Dispatcher.IfName | src/net_capture/dispatcher.c:82-85 | the name field is always 16 bytes: the device name cut to 16, or the name followed by zero bytes |
| Dispatcher.IfNameRecoversDevice | src/net_capture/dispatcher.c:82-87 | a C-string device name is recovered from its field by stripping the zero padding (cut to 16 bytes when longer) |
| Dispatcher.FlushSendsContents | src/net_capture/dispatcher.c:62-65 | when len + 16 does not fit, exactly the bytes in use are sent, once, and the record then starts a new batch |
| Dispatcher.FitAppendsRecord | src/net_capture/dispatcher.c:62-88 | when the record fits in a non-empty buffer nothing is sent and the record is appended behind the untouched contents |
| Dispatcher.FirstRecordAfterUuid | src/net_capture/dispatcher.c:71-88 | on an empty buffer the 36-byte UUID is written first, then the name field and the data |
| Dispatcher.DispatchWithinCapacity | src/net_capture/dispatcher.c:54-91 | the buffer never holds more than its capacity |
| Dispatcher.PartialRecordAsWritten | src/net_capture/dispatcher.c:62-88 | as written, a 2000-byte record on an empty 2048-byte buffer leaves the UUID and a name field with no data behind it (see Findings) |
| Dispatcher.WholeAgreesForSmallRecords | src/net_capture/dispatcher.c:62-75 | when the record fits behind the UUID of an empty buffer, the code as written and the corrected write do the same thing |
| Dispatcher.DispatchWholeKeepsFraming | src/net_capture/dispatcher.c:67-88 | with the corrected flush test every batch, in the buffer and as sent, is the UUID followed by whole records |
| Dispatcher.Dispatcher.Write | src/net_capture/dispatcher.c:54-91 | one `dispatcher_write` of a NUL-free device name: the batch sent and the new buffer contents are those of `DispatchAsWritten`, and the block and capacity are unchanged |
| Dispatcher.Dispatcher.PushRecord | src/net_capture/dispatcher.c:71-88 | a record goes behind the UUID on an empty buffer and behind the old contents otherwise |
| Dispatcher.Dispatcher.AppendRecord | src/net_capture/dispatcher.c:82-88 | the padded name and the data are appended behind what is there |
| Dispatcher.Dispatcher.WriteWhole | src/net_capture/dispatcher.c:54-91 | the corrected write follows `DispatchWhole`, which keeps batches framed |
| Dispatcher.Dispatcher.constructor | src/net_capture/dispatcher.c:22-45 | initialization gives an empty buffer of `DBUFFER_SIZE` bytes, nothing sent, and the system UUID |
| IfaceListener.FrameOf | src/net_capture/iface_listener.c:42-50 | a frame built from header fields has the 24 header bytes the routine reads plus the rest |
| IfaceListener.WindowOfFrame | src/net_capture/iface_listener.c:42-58 | an IPv4 frame gets a window of 14 + 4·IHL + 20 bytes for TCP and 14 + 4·IHL + 8 for UDP; any other EtherType or protocol gets none |
| IfaceListener.WindowBounds | src/net_capture/iface_listener.c:52-58 | every window is between 22 and 94 bytes |
| IfaceListener.Window | src/net_capture/iface_listener.c:42-58 | the corrected window never exceeds the captured frame and otherwise equals the window as written |
| IfaceListener.WindowAgrees | src/net_capture/iface_listener.c:52-58 | on a frame of at least 94 bytes the corrected window and the one as written agree |
| IfaceListener.ShortFrameOverread | src/net_capture/iface_listener.c:52-60 | a 60-byte TCP frame claiming IHL 15 gets a 94-byte window as written, 34 bytes past the capture (see Findings) |
| IfaceListener.CallFor | src/net_capture/iface_listener.c:31-60 | one capture causes at most one callback |
| IfaceListener.Routine | src/net_capture/iface_listener.c:20-64 | the loop, with the corrected window, makes exactly the calls `Calls` lists: per capture, a call with the device name and the window, or nothing for a timeout, an unsupported frame or a frame shorter than its window |
| IfaceListener.CallsAppend | src/net_capture/iface_listener.c:20-64 | the calls for two runs of captures are the calls of the first run followed by those of the second |
| IfaceListener.TimeoutIgnored | src/net_capture/iface_listener.c:31-40 | a timeout in the middle of a run changes nothing about the calls made |
| IfaceListener.CallsShape | src/net_capture/iface_listener.c:52-60 | there are at most as many calls as captures; each carries the listener's device and a prefix of a frame of 22 to 94 bytes |
| IfaceListener.CapturedRecordsAreWhole | src/net_capture/iface_listener.c:60 | every window from the capture loop is dispatched alike by the code as written and by the corrected dispatcher |
| IfaceListener.FilterFor | src/net_capture/iface_listener.c:66-85 | a listener gets a filter only when it formats, compiles, and the configured interface is unset or is the device; the filter is the formatted one |
| IfaceListener.FilterForConfigured | src/net_capture/iface_listener.c:73-78 | with a filter that formats and compiles, the listener has it exactly when no interface is configured or it is this device |
| IfaceListener.Listener.constructor | src/net_capture/iface_listener.c:121-127 | a new listener holds its device and no filter |
| IfaceListener.Listener.ApplyFilter | src/net_capture/iface_listener.c:66-85 | `apply_filter` sets the filter `FilterFor` gives and leaves it as it was otherwise |
| IfaceListener.Selected | src/net_capture/iface_listener.c:104-119 | no more devices are selected than enumerated |
| IfaceListener.SelectedAppend | src/net_capture/iface_listener.c:100-134 | selection keeps enumeration order |
| IfaceListener.SelectedMembers | src/net_capture/iface_listener.c:104-119 | a device is selected exactly when it has an address, is not loopback, opens and is Ethernet |
| IfaceListener.BuildListeners | src/net_capture/iface_listener.c:87-139 | one fresh listener per eligible device, in order, each with the filter `apply_filter` gives it; none when enumeration fails |
| TrafficFilter.ClauseExpr | src/net_capture/traffic_filter.c:20-38 | an endpoint has a clause exactly when some address family resolved |
| TrafficFilter.GenerateFilter | src/net_capture/traffic_filter.c:7-41 | a generated clause fits its buffer with the NUL, and only a URL that parses gives one |
| TrafficFilter.FormatFilter | src/net_capture/traffic_filter.c:43-59 | a formatted filter fits its buffer and exists only when both endpoint clauses were generated |
| TrafficFilter.ClauseText | src/net_capture/traffic_filter.c:20-34 | the clause reads "host V4 or ip6 host V6", "host V4" or "ip6 host V6" by what resolved |
| TrafficFilter.ClauseMatches | src/net_capture/traffic_filter.c:20-34 | a packet matches an endpoint's clause exactly when it carries one of the addresses the endpoint resolved to |
| TrafficFilter.ExclusionMatches | src/net_capture/traffic_filter.c:53 | "not (S or M)" keeps exactly the packets carrying none of either endpoint's addresses |
| TrafficFilter.FormatFilterRenders | src/net_capture/traffic_filter.c:43-59 | a formatted filter is the rendering of the exclusion of the two endpoints' clauses |
| TrafficFilter.FormatFilterFails | src/net_capture/traffic_filter.c:47-56 | formatting fails exactly when either endpoint fails or the combined text does not fit, so it is never truncated |
| TrafficFilter.GenerateFilterFails | src/net_capture/traffic_filter.c:10-38 | a URL that does not parse, or a hostname that resolves to nothing, gives no clause |
| TrafficFilter.FilterRequestSafe | src/net_capture/traffic_filter.c:10 | the hostname-only request of `generate_filter` never reaches either overrun of `parse_url` |
| TrafficFilter.ClauseRoundTrip | src/net_capture/traffic_filter.c:20-34 | a clause's text reads back as the resolution it was built from |
| Net.ParseProtocol | src/utils/net.c:21-47 | a URL is accepted exactly when it starts with one of the four schemes, and tls holds exactly for "https://" |
| Net.DigitRun | src/utils/net.c:79 | the digit run at the head of the port text is all digits and maximal |
| Net.AtoiOfDigits | src/utils/net.c:79 | `atoi` of a digit string is its decimal value |
| Net.HostnameOf | src/utils/net.c:111-124 | a hostname is written only when a buffer is passed, and then it is non-empty and shorter than the buffer |
| Net.PathOf | src/utils/net.c:85-109 | a path is written only when a buffer is passed, and then it starts with '/' and is shorter than the buffer |
| Net.LongPortOverruns | src/utils/net.c:66-80 | as written, a port text longer than five characters overruns `port_str` when a port is asked for (see Findings) |
| Net.NoPathOverruns | src/utils/net.c:94-106 | as written, a URL without a path and a one-byte path buffer overrun the path buffer (see Findings) |
| Net.ParseUrl | src/utils/net.c:126-150 | the corrected `parse_url` succeeds exactly when the code as written parses; tls follows the scheme; each output is there exactly when asked for, within its buffer |
| Net.ProtocolOfCompose | src/utils/net.c:21-47 | each scheme prefix is recognised and stripped, and sets tls as its kind says |
| Net.PortDigits | src/utils/net.c:66-80 | a port written in decimal reads back as itself through `atoi` |
| Net.ComposedWithPort | src/utils/net.c:49-83 | with an explicit ":port" the hostname ends at the ':' and the port is the number written |
| Net.ComposedWithoutPort | src/utils/net.c:52-63 | without ':' the port is 443 for TLS and 80 otherwise, and the hostname ends at the first '/' |
| Net.ParseUrlCompose | src/utils/net.c:126-150 | a URL composed from scheme, hostname, optional port and path parses back to that hostname, the port or the scheme's default, the path or "/", and tls |
| FileUtils.Filename | src/utils/file_utils.c:54-61 | the file name is the suffix after the last '/', or the whole path without one, and holds no '/' |
| FileUtils.FilenameOfJoin | src/utils/file_utils.c:54-61 | the file name of "dir/name" is name |
| FileUtils.Extension | src/utils/file_utils.c:63-71 | the extension is the non-empty text after the last '.'; it is missing exactly when there is no '.' or the path ends with it |
| FileUtils.ExtensionOfJoin | src/utils/file_utils.c:63-71 | the extension of "base.ext" is ext |
| FileUtils.CheckResult | src/utils/file_utils.c:118-134 | the check gives -1 when stat fails, 1 when the time moved, and 0 when it is unchanged |
| FileUtils.SecondCheckQuiet | src/utils/file_utils.c:128-133 | a second check after a change, with the same time, reports no change |
| FileUtils.MonitorInit | src/utils/file_utils.c:102-116 | init succeeds exactly with a monitor, a path and a successful stat, storing the path and the time |
| FileUtils.MonitorCheck | src/utils/file_utils.c:118-134 | the check returns `CheckResult` of the stored time and records the new time when it moved |
| TimestampedPacket.FromMillis | wallguard-common/src/timestamped_packet.rs:43 | `Duration::from_millis` gives a valid duration of exactly that many milliseconds |
| TimestampedPacket.LittleEndianRoundTrip | wallguard-common/src/timestamped_packet.rs:19-34 | a number that fits k bytes reads back from its little-endian bytes |
| TimestampedPacket.ToBytes | wallguard-common/src/timestamped_packet.rs:16-24 | the encoding is 20 + len bytes long, with the data from byte 20 |
| TimestampedPacket.FromBytes | wallguard-common/src/timestamped_packet.rs:26-46 | decoding rejects fewer than 20 bytes; what it accepts holds the data right after the header and a valid duration |
| TimestampedPacket.RoundTrip | wallguard-common/src/timestamped_packet.rs:53-62 | decoding an encoded packet of whole milliseconds, with any bytes behind it, gives the packet back |
| TimestampedPacket.EncodedLayout | wallguard-common/src/timestamped_packet.rs:16-24 | 16 little-endian bytes of milliseconds, then 4 little-endian bytes of length, then the data |
| TimestampedPacket.WholeMillis | wallguard-common/src/timestamped_packet.rs:43 | a duration of whole milliseconds is rebuilt from its millisecond count |
| TimestampedPacket.IncompleteRejected | wallguard-common/src/timestamped_packet.rs:36-38 | a declared length beyond the input is an "Incomplete data" error |
| TokenStream.TokenStream.constructor | wallguard-server/src/fireparse/nftables/token_stream.rs:140 | a new stream is at position 0 over its tokens |
| TokenStream.TokenStream.Peek | wallguard-server/src/fireparse/nftables/token_stream.rs:15-17 | peek gives the token at the position, or none at the end |
| TokenStream.TokenStream.PeekN | wallguard-server/src/fireparse/nftables/token_stream.rs:19-21 | peek_n gives the token n places ahead, or none past the end |
| TokenStream.TokenStream.Next | wallguard-server/src/fireparse/nftables/token_stream.rs:23-31 | next returns the token at the position and moves one on; at the end it returns none and stays |
| TokenStream.TokenStream.ExpectIdent | wallguard-server/src/fireparse/nftables/token_stream.rs:37-43 | succeeds exactly on that identifier, and consumes a token even on a mismatch |
| TokenStream.TokenStream.ExpectSymbol | wallguard-server/src/fireparse/nftables/token_stream.rs:45-51 | succeeds exactly on that symbol, and consumes a token even on a mismatch |
| TokenStream.TokenStream.ExpectAnyIdent | wallguard-server/src/fireparse/nftables/token_stream.rs:53-59 | gives the name of an identifier token, fails on anything else, and consumes a token either way |
| TokenStream.TokenStream.ExpectNewline | wallguard-server/src/fireparse/nftables/token_stream.rs:61-67 | succeeds exactly on a Newline, and consumes a token either way |
| TokenStream.TokenStream.ExpectAnySymbol | wallguard-server/src/fireparse/nftables/token_stream.rs:69-75 | gives the character of a symbol token, fails on anything else, and consumes a token either way |
| TokenStream.TokenStream.Rewind | wallguard-server/src/fireparse/nftables/token_stream.rs:81-83 | rewind moves to the given position but never past the end |
| TokenStream.TokenStream.SkipUntil | wallguard-server/src/fireparse/nftables/token_stream.rs:85-92 | finds the target exactly when it is ahead, stopping just past its first occurrence; otherwise drains to the end |
| TokenStream.ScanLine | wallguard-server/src/fireparse/nftables/token_stream.rs:106-135 | the character loop gives the tokens `Scan` specifies |
| TokenStream.TokenizeLine | wallguard-server/src/fireparse/nftables/token_stream.rs:100-137 | a line gives nothing when blank or a comment, else its trimmed text's tokens and a Newline |
| TokenStream.FromText | wallguard-server/src/fireparse/nftables/token_stream.rs:95-142 | the stream holds the tokens of every line in order, at position 0 |
| TokenStream.ScanTokens | wallguard-server/src/fireparse/nftables/token_stream.rs:109-135 | a line yields only symbols and non-empty identifiers free of separators |
| TokenStream.LineEndsOnce | wallguard-server/src/fireparse/nftables/token_stream.rs:102-137 | a line yields nothing exactly when blank or a comment; otherwise its tokens end with its one Newline |
| TokenStream.TokenizeNewlines | wallguard-server/src/fireparse/nftables/token_stream.rs:99-138 | the input holds exactly one Newline per line that is neither blank nor a comment |
| TokenStream.ScanSpaced | wallguard-server/src/fireparse/nftables/token_stream.rs:109-135 | line tokens written out with single spaces scan back as the same tokens |
| TokenStream.LineRoundTrip | wallguard-server/src/fireparse/nftables/token_stream.rs:99-138 | a line written from printable tokens tokenizes back to those tokens and a Newline |
| ChainPriority.FromInt | wallguard-server/src/fireparse/nftables/nft/chain_priority.rs:20-38 | `get_value(Priority::from(v)) == v` for every v, and `Other` is used exactly for the unnamed values |
| ChainPriority.FromStrMeaning | wallguard-server/src/fireparse/nftables/nft/chain_priority.rs:43-61 | a name gives its fixed priority; any other text is accepted exactly when it parses as an i32, through `From<i32>` |
| ChainPriority.NumberIsNoName | wallguard-server/src/fireparse/nftables/nft/chain_priority.rs:44-56 | no decimal number is one of the priority names |
| ChainPriority.FromStrKeyword | wallguard-server/src/fireparse/nftables/nft/chain_priority.rs:43-81 | the name or decimal value of a priority parses back to it |
| ChainPriority.NumericMatchesName | wallguard-server/src/fireparse/nftables/nft/chain_priority.rs:56-57 | a number with a name gives the same priority as the name |
| NftChain.PolicyAt | wallguard-server/src/fireparse/nftables/nft/chain.rs:74-88 | the policy part never moves the cursor backwards or past the end |
| NftChain.DeviceAt | wallguard-server/src/fireparse/nftables/nft/chain.rs:53-65 | a device is read exactly when the literal `device` is next, taking two tokens |
| NftChain.HeaderAt | wallguard-server/src/fireparse/nftables/nft/chain.rs:40-95 | a header line takes at least its seven tokens |
| NftChain.ClosingAtFirst | wallguard-server/src/fireparse/nftables/nft/chain.rs:100-101 | skipping the body stops on the first '}' ahead, or on the last token when there is none |
| NftChain.ChainAt | wallguard-server/src/fireparse/nftables/nft/chain.rs:29-112 | a parsed chain ends just after its '}' and Newline |
| NftChain.ParsePolicy | wallguard-server/src/fireparse/nftables/nft/chain.rs:74-88 | the policy step succeeds and moves as `PolicyAt` says |
| NftChain.ParseTypeHook | wallguard-server/src/fireparse/nftables/nft/chain.rs:41-51 | the type and hook step succeeds and moves as `TypeHookAt` says |
| NftChain.ParseDevice | wallguard-server/src/fireparse/nftables/nft/chain.rs:53-65 | the device step succeeds and moves as `DeviceAt` says |
| NftChain.ParsePriority | wallguard-server/src/fireparse/nftables/nft/chain.rs:67-72 | the priority step succeeds and moves as `PriorityAt` says |
| NftChain.ParseHeader | wallguard-server/src/fireparse/nftables/nft/chain.rs:40-95 | the header step succeeds and moves as `HeaderAt` says |
| NftChain.ParseClose | wallguard-server/src/fireparse/nftables/nft/chain.rs:108-109 | the closing step needs '}' then a Newline |
| NftChain.SkipBody | wallguard-server/src/fireparse/nftables/nft/chain.rs:100-101 | skipping leaves the cursor on the closing '}' |
| NftChain.ParseChain | wallguard-server/src/fireparse/nftables/nft/chain.rs:29-112 | `Chain::try_from` succeeds exactly when `ChainAt` does, with that chain and end position |
| NftChain.HeaderAllOrNothing | wallguard-server/src/fireparse/nftables/nft/chain.rs:90-94 | a parsed chain has type, hook and priority all set or all unset, and without them no device or policy |
| NftChain.DeviceOnlyAfterKeyword | wallguard-server/src/fireparse/nftables/nft/chain.rs:53-65 | the device is set exactly when the literal `device` follows the hook, and is the identifier after it |
| NftChain.SymbolAfterPriorityFails | wallguard-server/src/fireparse/nftables/nft/chain.rs:83-85 | a symbol after the priority's ';' fails the chain |
| NftChain.ChainRoundTrip | wallguard-server/src/fireparse/nftables/nft/chain.rs:29-112 | a listable chain's tokens, with any skippable body, parse back to that chain at the end of its tokens |
| NftTable.ChainsFrom | wallguard-server/src/fireparse/nftables/nft/table.rs:43-51 | the chain loop stops where `chain` is not next, and collects nothing when it is not next at once |
| NftTable.TableAt | wallguard-server/src/fireparse/nftables/nft/table.rs:28-55 | a parsed table takes its family and name from the two identifiers after `table`, the family is known, and it ends on '}' |
| NftTable.ParseChains | wallguard-server/src/fireparse/nftables/nft/table.rs:43-51 | the loop collects the chains `ChainsFrom` gives, in order |
| NftTable.ParseTableOpen | wallguard-server/src/fireparse/nftables/nft/table.rs:29-39 | the opening line gives the family and the name and moves five tokens |
| NftTable.ParseTable | wallguard-server/src/fireparse/nftables/nft/table.rs:28-55 | `Table::try_from` succeeds exactly when `TableAt` does, with that table and end position |
| NftTable.ChainsOfTokens | wallguard-server/src/fireparse/nftables/nft/table.rs:43-51 | the tokens of listable chains, one after another, parse back to those chains in source order |
| NftTable.TableRoundTrip | wallguard-server/src/fireparse/nftables/nft/table.rs:28-55 | a table's tokens, followed by anything, parse back to the table with its chains in order |
| NftTable.MissingCloseFails | wallguard-server/src/fireparse/nftables/nft/table.rs:53 | a chain list not followed by '}' is an error |
| PfEndpoint.ParseEndpoint | wallguard/src/fireparse/pfsense/endpoint_parser.rs:46-97 | a missing endpoint is ("*", "*", "address", false); `<any>` forces "*"; `<address>` wins over `<network>`; the type is "network" exactly with a `<network>` child; inversion exactly with `<not>` |
| PfEndpoint.EndpointLookups | wallguard/src/fireparse/pfsense/endpoint_parser.rs:11-44 | each child the parser asks for is found where `to_element` put it |
| PfEndpoint.ToElement | wallguard/src/fireparse/pfsense/endpoint_parser.rs:11-44 | `<not>` comes first exactly when inversed, and `<any>` is written exactly when both address and port are "*" |
| PfEndpoint.EndpointShape | wallguard/src/fireparse/pfsense/endpoint_parser.rs:11-44 | the written element holds `<any>` alone, or the address child under its type's tag and a port child unless it is "*" |
| PfEndpoint.EndpointRoundTrip | wallguard/src/fireparse/pfsense/endpoint_parser.rs:11-97 | reading back what `to_element` wrote gives the address, port, type and inversion |
| PfRules.U32Or0 | wallguard/src/fireparse/pfsense/rules_parser.rs:220-227 | numeric fields read as u32 |
| PfRules.ParseFilterRule | wallguard/src/fireparse/pfsense/rules_parser.rs:186-263 | a parsed filter rule is valid, disabled exactly with `<disabled>`, numbered by its position, with a protocol of the form "ipprotocol/protocol" |
| PfRules.ParseNatRule | wallguard/src/fireparse/pfsense/rules_parser.rs:281-360 | the same for NAT rules |
| PfRules.EmptyRuleDefaults | wallguard/src/fireparse/pfsense/rules_parser.rs:186-263 | an empty `<rule/>` reads as the defaults: policy "pass", protocol "*/any", wildcard endpoints, interface and ids "none" or 0 |
| PfRules.FilterRulesOf | wallguard/src/fireparse/pfsense/rules_parser.rs:177-185 | one rule per `<rule>` element, the k-th numbered k |
| PfRules.NatRulesOf | wallguard/src/fireparse/pfsense/rules_parser.rs:272-280 | one NAT rule per `<rule>` element, the k-th numbered k |
| PfRules.ParseFilterRules | wallguard/src/fireparse/pfsense/rules_parser.rs:174-267 | the loop gives `FilterRulesOf` of the `<rule>` children in document order |
| PfRules.ParseNatRules | wallguard/src/fireparse/pfsense/rules_parser.rs:269-364 | the loop gives `NatRulesOf` of the `<rule>` children in document order |
| PfRules.ParseRules | wallguard/src/fireparse/pfsense/rules_parser.rs:160-172 | filter rules come from the first `<filter>` and NAT rules from the first `<nat>`, none when the section is missing |
| PfRules.SplitProtocol | wallguard/src/fireparse/pfsense/rules_parser.rs:21-23 | the first part holds no '/', and the parts joined by '/' are the protocol; without '/' the second part is "any" |
| PfRules.FilterRuleToElement | wallguard/src/fireparse/pfsense/rules_parser.rs:8-82 | `<protocol>` is written exactly when the protocol part is not "any", and `<descr>` exactly when there is a description |
| PfRules.FilterRuleRoundTrip | wallguard/src/fireparse/pfsense/rules_parser.rs:8-267 | reading back the `<rule>` written for a rule, at its own position, gives `FilterRuleImage` of it |
| PfRules.FilterRuleImageFixed | wallguard/src/fireparse/pfsense/rules_parser.rs:8-267 | a filter rule reads back unchanged exactly when its protocol holds '/' and its endpoints are shaped as the XML can hold them |
| PfRules.NatRuleToElement | wallguard/src/fireparse/pfsense/rules_parser.rs:84-158 | as for filter rules: `<protocol>` and `<descr>` are written only when they carry something |
| PfRules.NatRuleRoundTrip | wallguard/src/fireparse/pfsense/rules_parser.rs:84-364 | reading back the `<rule>` written for a NAT rule, at its own position, gives `NatRuleImage` of it |
| PfRules.NatRuleImageFixed | wallguard/src/fireparse/pfsense/rules_parser.rs:84-364 | a NAT rule reads back unchanged exactly when it is shaped |
| PfAliases.ParseAliasDefaults | wallguard/src/fireparse/pfsense/aliases_parser.rs:17-45 | a missing name or type reads as "none", a missing description as "", and a missing `<address>` and `<url>` as the value "None" |
| PfAliases.ParseAliases | wallguard/src/fireparse/pfsense/aliases_parser.rs:7-58 | one alias per `<alias>` element under the first `<aliases>`, in document order; none without `<aliases>` |
| PfAliases.AliasToElement | wallguard/src/fireparse/pfsense/aliases_parser.rs:60-84 | `to_element` writes `<name>`, `<type>`, `<content>` and `<description>` |
| PfAliases.WrittenAliasLosesValue | wallguard/src/fireparse/pfsense/aliases_parser.rs:60-84 | as written, every written alias reads back with value "None" and an empty description (see Findings) |
| PfAliases.ValueRoundTrip | wallguard/src/fireparse/pfsense/aliases_parser.rs:17-30 | an entry list written with spaces reads back as the same comma-separated list |
| PfAliases.AliasRoundTrip | wallguard/src/fireparse/pfsense/aliases_parser.rs:17-45 | written under the parser's own tag names, an alias whose value is an entry list reads back unchanged |
| PfInterfaces.FindSnapshot | wallguard/src/fireparse/pfsense/interfaces_parser.rs:30-35 | a snapshot is found exactly when the device is one the operating system lists, and it is that device's |
| PfInterfaces.SnapshotAddresses | wallguard/src/fireparse/pfsense/interfaces_parser.rs:36-48 | every OS address is kept in order, versioned 4 or 6 by its family |
| PfInterfaces.InterfaceOf | wallguard/src/fireparse/pfsense/interfaces_parser.rs:8-66 | an interface is named by its tag and has the `<if>` device or "none"; the OS addresses replace the configured ones when there are any, else `<ipaddr>` comes first as version 4 and `<ipaddrv6>` last as version 6 |
| PfInterfaces.ParseInterface | wallguard/src/fireparse/pfsense/interfaces_parser.rs:20-62 | the loop body builds `InterfaceOf` |
| PfInterfaces.Parse | wallguard/src/fireparse/pfsense/interfaces_parser.rs:8-66 | one interface per element under `<interfaces>`, in document order; none without it |
| PfHostname.ParseHostname | wallguard/src/fireparse/pfsense/hostname_parser.rs:6-21 | "hostname.domain" when both are present, the one present otherwise, "none" when neither is or there is no `<system>` |
| PfHostname.HostnameSplits | wallguard/src/fireparse/pfsense/hostname_parser.rs:6-21 | a dot-free host name and the domain are recovered from the parsed name at its first '.' |
| PfSsh.ParseSsh | wallguard/src/fireparse/pfsense/ssh_parser.rs:10-35 | disabled on port 22 without `<system><ssh>`; otherwise enabled exactly with `<enable>`, on the `<port>` u32 or on 22 when it is missing or does not parse |
| PfSsh.SshRoundTrip | wallguard/src/fireparse/pfsense/ssh_parser.rs:10-35 | a configuration written as pfSense writes it reads back unchanged |
| ServerRules.MapIpProtocol | wallguard-server/src/fireparse/pfsense/rules_parser.rs:124-130 | "inet" maps to "IPv4", "inet6" to "IPv6", anything else to "none" |
| ServerRules.ParseRule | wallguard-server/src/fireparse/pfsense/rules_parser.rs:53-110 | a rule carries its section and index and is disabled exactly with `<disabled>`; its policy, description and interface are the text of `<type>`, `<descr>` and `<interface>`, or "pass", "" and "none" without them; its source and destination fields are those `ParseEndpoint` reads from `<source>` and `<destination>`; its protocol is "family/protocol" |
| ServerRules.SectionRules | wallguard-server/src/fireparse/pfsense/rules_parser.rs:49-114 | one rule per `<rule>` element, the k-th tagged with the section and numbered k |
| ServerRules.ParseSection | wallguard-server/src/fireparse/pfsense/rules_parser.rs:49-114 | the loop gives `SectionRules` of the `<rule>` children in document order |
| ServerRules.Parse | wallguard-server/src/fireparse/pfsense/rules_parser.rs:19-39 | the filter rules come first, then the NAT rules, each section numbered from 0 |
| ServerRules.SectionsInOrder | wallguard-server/src/fireparse/pfsense/rules_parser.rs:19-39 | in the concatenation no filter rule follows a NAT rule |
| AliasModel.NetworkEntry | wallguard-server/src/datastore/models/alias.rs:41-60 | a network entry's address holds no '/', its prefix is an i32, and an entry without '/' has prefix 0 |
| AliasModel.PortEntry | wallguard-server/src/datastore/models/alias.rs:66-95 | both ports are i32; an entry without ':' is a single port; an unparseable lower bound is 0 |
| AliasModel.ExtractIpAliases | wallguard-server/src/datastore/models/alias.rs:29-64 | host and network aliases give one row per ','-separated entry, hosts with prefix 32; other types give nothing |
| AliasModel.ExtractPortAliases | wallguard-server/src/datastore/models/alias.rs:66-95 | port aliases give one row per ','-separated entry; other types give nothing |
| AliasModel.NetworkEntryOf | wallguard-server/src/datastore/models/alias.rs:41-60 | "address/prefix" reads back as that address and prefix |
| AliasModel.PortRangeOf | wallguard-server/src/datastore/models/alias.rs:66-95 | "lower:upper" reads back as that range |
| AliasModel.SinglePortOf | wallguard-server/src/datastore/models/alias.rs:66-95 | a single port reads back as the range from it to itself |
| AliasModel.HostAliasesOf | wallguard-server/src/datastore/models/alias.rs:32-40 | hosts joined by ',' come back one row each, in order, with prefix 32 |
| NftAliases.AllItemsNone | wallguard/src/fireparse/nft/aliases_parser.rs:38-70 | the csv is missing exactly when some element is of an unsupported kind |
| NftAliases.NumberRangeValues | wallguard/src/fireparse/nft/aliases_parser.rs:46-53 | a number range expands to every number from its start to its end, in order |
| NftAliases.RejectedRange | wallguard/src/fireparse/nft/aliases_parser.rs:66-68 | any other range makes the whole csv missing |
| NftAliases.PushNumbers | wallguard/src/fireparse/nft/aliases_parser.rs:46-53 | the loop appends the decimal text of each number of the range |
| NftAliases.PushBytes | wallguard/src/fireparse/nft/aliases_parser.rs:55-64 | the loop appends each one-byte string of the range |
| NftAliases.ExpressionsToCsv | wallguard/src/fireparse/nft/aliases_parser.rs:34-73 | `expressions_to_csv` gives `CsvOf` of the elements |
| NftAliases.AliasesOf | wallguard/src/fireparse/nft/aliases_parser.rs:11-32 | there are never more aliases than objects |
| NftAliases.AliasesOfAppend | wallguard/src/fireparse/nft/aliases_parser.rs:11-32 | the aliases of two runs of objects are those of the first followed by those of the second |
| NftAliases.AliasesOfSingleSet | wallguard/src/fireparse/nft/aliases_parser.rs:14-27 | a single-typed set gives exactly its alias |
| NftAliases.Parse | wallguard/src/fireparse/nft/aliases_parser.rs:11-32 | the loop gives `AliasesOf` of the objects |
| NftAliases.ConvertedItemsForm | wallguard/src/fireparse/nft/aliases_parser.rs:80-93 | at most one element per ',' part: a u32 `Number` when the trimmed part parses as one, else the trimmed, non-numeric text as a string |
| NftAliases.ConvertAlias | wallguard/src/fireparse/nft/aliases_parser.rs:75-103 | `convert_alias` gives `SetOf` of the alias |
| NftAliases.PlainValueReadBack | wallguard/src/fireparse/nft/aliases_parser.rs:34-93 | a plain ','-separated value converted to set elements reads back as the same csv |
| NftAliases.AliasRoundTrip | wallguard/src/fireparse/nft/aliases_parser.rs:11-103 | an alias with a plain value, a known type and family, and no description, converted to a set and parsed back, is the same alias |
| RuleSerde.SerializeFilterRule | wallguard-common/src/protobuf/utils.rs:5-55 | a serialized filter rule has no redirect fields |
| RuleSerde.SerializeNatRule | wallguard-common/src/protobuf/utils.rs:153-203 | a serialized NAT rule has no policy or id |
| RuleSerde.ReadEndpoint | wallguard-common/src/protobuf/utils.rs:93-127 | an endpoint reads exactly when its fields are typed; the port is there exactly when value and operator are, the address exactly when value, operator and version are |
| RuleSerde.ReadCommon | wallguard-common/src/protobuf/utils.rs:57-151 | the shared fields read exactly when typed, within their bounds; a missing table, chain or family is "" |
| RuleSerde.DeserializeFilterRule | wallguard-common/src/protobuf/utils.rs:57-151 | a filter rule deserializes exactly when every field has its type, and is then valid |
| RuleSerde.DeserializeNatRule | wallguard-common/src/protobuf/utils.rs:205-299 | a NAT rule deserializes exactly when every field has its type, and is then valid |
| RuleSerde.EndpointGroups | wallguard-common/src/protobuf/utils.rs:17-40 | the port and address groups of an endpoint are written together or not at all |
| RuleSerde.FilterRuleRoundTrip | wallguard-common/src/protobuf/utils.rs:5-151 | deserializing a serialized valid filter rule gives it back |
| RuleSerde.FilterRuleReadBack | wallguard-common/src/protobuf/utils.rs:57-151 | any record holding what a rule writes reads back as that rule |
| RuleSerde.NatRuleRoundTrip | wallguard-common/src/protobuf/utils.rs:153-299 | deserializing a serialized valid NAT rule gives it back |
| RuleSerde.NatRuleReadBack | wallguard-common/src/protobuf/utils.rs:205-299 | any record holding what a NAT rule writes reads back as that rule |
| TtySession.Tail | wallguard-server/src/tunneling/tty/session.rs:105-108 | the kept tail is never longer than the limit |
| TtySession.TailOfTail | wallguard-server/src/tunneling/tty/session.rs:100-112 | trimming after every chunk keeps the same bytes as trimming once at the end |
| TtySession.TailIsSuffix | wallguard-server/src/tunneling/tty/session.rs:105-108 | trimming removes only a prefix, and only the excess over the limit |
| TtySession.Session.constructor | wallguard-server/src/tunneling/tty/session.rs:29-66 | a new session's memory is empty |
| TtySession.Session.Receive | wallguard-server/src/tunneling/tty/session.rs:102-109 | one chunk is appended and the excess drained from the front; the memory is the last 16392 bytes of everything received |
| TtySession.Session.MemoryMonitor | wallguard-server/src/tunneling/tty/session.rs:100-112 | after every chunk the memory is the last 16392 bytes of all chunks so far |
| TtySession.Session.GetMemorySnapshot | wallguard-server/src/tunneling/tty/session.rs:76-78 | the snapshot is the last 16392 bytes received, and no longer |
| Platform.Parse | wallguard/src/client_data/platform.rs:17-33 | an accepted platform's name is the lower-cased value; a rejected value gives "Unsupported platform " and the value |
| Platform.ParseName | wallguard/src/client_data/platform.rs:17-55 | every platform's displayed name parses back to it |
| Platform.ParseIgnoresCase | wallguard/src/client_data/platform.rs:21 | a value and its lower-cased form are accepted alike, as the same platform |
| Platform.ParseAcceptsNames | wallguard/src/client_data/platform.rs:17-33 | a value is accepted exactly when its lower-cased form is one of the five names |
| Platform.CanMonitorTelemetry | wallguard/src/client_data/platform.rs:62-64 | telemetry can be monitored on every platform |
| Platform.CanMonitorTraffic | wallguard/src/client_data/platform.rs:66-68 | traffic can be monitored on every platform |
| Platform.CanMonitorConfig | wallguard/src/client_data/platform.rs:58-60 | the configuration can be monitored on every platform except Generic and Desktop |
| Platform.CanOpenRemoteDesktopSession | wallguard/src/client_data/platform.rs:70-73 | true exactly on Desktop, which has no configuration to monitor |
| Platform.SysconfFiles | wallguard/src/client_data/platform.rs:75-87 | configuration files are watched exactly where configuration can be monitored: `config.xml` on pfSense and OPNsense, the ruleset on nftables hosts |
| DumpDir.Drained | wallguard/src/data_transmission/dump_dir.rs:104-114 | draining n entries removes exactly the first n, and keeps the token and the kind of batch |
| DumpDir.WithToken | wallguard/src/data_transmission/dump_dir.rs:88-94 | a batch takes the new token and keeps its entries; an empty item stays without one |
| DumpDir.DrainTwice | wallguard/src/data_transmission/dump_dir.rs:104-114 | draining m and then n entries is draining m + n |
| DumpDir.DumpSlot.SetToken | wallguard/src/data_transmission/dump_dir.rs:88-94 | `set_token` in place leaves `WithToken` of the old item |
| DumpDir.DumpSlot.Drain | wallguard/src/data_transmission/dump_dir.rs:104-114 | `drain(..n)` in place leaves `Drained` of the old item |
| DumpDir.FilePath | wallguard/src/data_transmission/dump_dir.rs:48-54 | the path is "dir/time_" followed by the item's kind |
| DumpDir.FilePathsDistinct | wallguard/src/data_transmission/dump_dir.rs:48-54 | two items dumped at the same time get the same path exactly when they are of the same kind |

## Left out

- Threads, mutexes, async tasks and channels are not modelled. `dispatcher_write` is one sequential method. The TTY memory monitor receives its channel as a sequence of chunks: the chunks delivered before the first receive error. That error is a closed channel or a lagging receiver, and after it the memory no longer changes.
- `pcap`, name resolution, `stat`, the interface enumeration and the operating system's interface snapshot are parameters. They are not modelled: a frame is a byte sequence, a resolution a pair of optional texts, a stat result an optional time, and a device a record of what enumeration and opening report.
- `build_filter` (compiling and attaching the BPF program) is a boolean parameter of the listener.
- Logging is not modelled, nor are error texts other than the platform's "Unsupported platform" message. Other errors are `Err` or `None`.
- White space is ASCII white space. Rust's `trim` and `split_whitespace` also treat other Unicode spaces as white space.
- Rust strings are sequences of characters; UTF-8 byte strings in nftables sets are characters below 128.
- `str::lines` is `Split` on '\n'. A trailing '\r' is not stripped.
- `xmltree` and `roxmltree` documents are element trees. `get_text` concatenates the text and CDATA children; roxmltree's `text` is the leading run of text children.
- The server's `Document` is searched with `FindDescendant`. The server endpoint parser follows the agent's, through a text-lookup parameter.
- The duplicate parsers are not part of this model: the OPNsense parsers and the server-side pfSense alias, hostname and interface parsers.
- `nft/mod.rs` is not part of this model. The Family, ChainType, Hook and Policy keyword parsers are a vocabulary parameter: a keyword is accepted when it is in the vocabulary, and its value is the keyword itself.
- In the nftables alias converter, the set-type and family lookups of `nft/utils.rs` are parameters as well.
- convert_alias: the range conversion the source leaves unfinished is not modelled. Range text such as "10-20" stays a string expression, as in the source; u32 items become numbers.
- The serde data model is a record from field name to an optional value. Field order, duplicate fields, unknown fields and the wire encoding are not modelled.
- The agent's `FilterRule` table, chain and family fields are "" when read from pfSense XML, as in the source.
- The `Alias` record carries kind, name, value, description, family and table. Other fields of the Rust struct play no part in these operations.
- `IpAddr` is its text form and a flag for IPv4.
- The packet and resource records of dump items are type parameters.
- The `DumpDir` file-system methods are not modelled: `new`, `get_files_sorted`, `is_full`, `dump_item_to_file` and `update_items_dump_file`.
- Session plumbing around the TTY memory is not modelled: the terminal lists, signals and the data channels.
- can_open_remote_desktop_session: only the build for hosts other than FreeBSD is modelled.
- Integer widths: lengths and counts are unbounded. u32 and i32 fields carry explicit bounds where the source parses or casts them. `TimestampedPacket` cuts the millisecond count to 64 bits and the length to 32 bits, as written.
- The concrete sample rulesets in the tokenizer and table unit tests are not replayed. The general round-trip lemmas for lines, chains and tables cover what those tests check.
- IfaceListener.Routine: the loop, `Calls` and `CallsShape` use the corrected `Window`, which skips a frame shorter than 24 bytes or than the window it announces. The code as written makes neither check: it calls back with the window of `WindowAsWritten` and reads past the capture (see Findings).
- Net.ParseUrl: the corrected parser rejects a port text longer than five characters and a missing path with a one-byte path buffer. The code as written overruns its buffers in those cases (see Findings).

## Findings

| source | as written | input that shows it | evidently intended | confidence | as-written member | corrected member |
|---|---|---|---|---|---|---|
| src/net_capture/dispatcher.c:62-88 | the flush test asks for room for len + 16 bytes and leaves out the 36-byte UUID written into an empty buffer; `buffer_write` then refuses the data but keeps the UUID and the name field | an empty 2048-byte buffer and a 2000-byte record: 36 + 16 bytes are written and the 2000 data bytes are refused, so the batch ends with a name field and no data | reserve room for the UUID as well, so that every batch is the UUID followed by whole records | not executed; the capture loop only produces windows of at most 94 bytes, which never trigger it | Dispatcher.PartialRecordAsWritten | Dispatcher.DispatchWholeKeepsFraming |
| src/utils/net.c:66-80 | the port text between ':' and the next '/' is copied into `char port_str[6]` without a length check | "http://example.com:123456" with a port pointer: six characters and a NUL are written into six bytes | reject port text longer than five characters | not executed | Net.LongPortOverruns | Net.ParseUrl |
| src/utils/net.c:85-106 | with no '/' after the scheme, "/" is copied into the path buffer with `strcpy` even when the buffer has one byte | "http://example.com" with a one-byte path buffer: two bytes are written into one | reject a path buffer too small for "/" and its NUL, as the explicit-path branch does | not executed | Net.NoPathOverruns | Net.ParseUrl |
| src/net_capture/iface_listener.c:52-60 | the window length comes from the IHL field and is never compared with the captured length | a 60-byte TCP frame whose IHL claims 15 words: the window is 94 bytes, 34 past the end of the capture | skip frames shorter than the window they announce | not executed | IfaceListener.ShortFrameOverread | IfaceListener.Window |
| wallguard/src/fireparse/pfsense/aliases_parser.rs:60-84 | `to_element` writes the value under `<content>` and the description under `<description>`, but `parse` reads `<address>` (or `<url>`) and `<descr>` | any alias, such as a host alias "web" with value "10.0.0.1": written and parsed again, its value is "None" and its description "" | write the tags the parser reads, so that a written alias reads back unchanged | not executed | PfAliases.WrittenAliasLosesValue | PfAliases.AliasRoundTrip |
