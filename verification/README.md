# YachtSense Link emulator: a verified model

Dafny models of the parts of the emulator where a mistake would be hardest to see, with proofs of what each
part is for. The daemon relays Raymarine mDNS traffic between networks, keeps a service configuration, and
owns or gives up a router address; every part below is one module, named after what it does.

- **Names and messages** (`DnsNames`, `DnsMessages`): the wire codec of RFC 1035. A recursive reading of a
  packet is the reference; the source's loops are methods proved equal to it. Printing and parsing are
  inverse on well-formed entries.
- **Relaying** (`ServicePolicy`, `NameCache`, `RelayFilter`, `RelayPolicy`, `Provenance`, `Refiltering`,
  `ClassGuard`, `Dispatch`, `WholeRuns`): which names are learned, which records pass, what is sent where, and
  whole runs of all of it. The cache is a class whose clock readings and eviction victims are an arbitrary
  environment, so every statement holds for all of them.
- **Announcing and answering** (`Announcement`, `Replies`): the emulator's own records and its replies.
- **Receiving and observing** (`ReceiveLoop`, `Observation`, `Sightings`, `Discovery`, `Goodbyes`): rate limit,
  duplicate table, and the display that is reported.
- **The router address** (`AddressOwnership`): daemon, settings request and the rest of the router as
  interleaved steps over the address table and the marker file.
- **Actions** (`ActionProtocol`, `ActionWorker`): requests and workers over the configuration file, the
  action record and the lock that is handed over; then the worker itself with its two polling loops.
- **Configuration** (`UciWords`, `UciGrammar`, `UciConfig`, `UciFiles`, `Settings`, `SettingsRules`,
  `DefaultSettings`, `UnreadableSave`): the grammar of a line, what a file says, validation, the round trip, and
  where it fails.
- **Devices, networks, packages** (`KnownDevices`, `NetworkSelection`, `NetworkRules`, `ArArchive`).

Code that works step by step is a method or class proved against a function; lemmas over all inputs or all
runs are about those functions. Times are explicit non-decreasing readings, map iteration orders and
eviction victims are arbitrary choices, and failures are `None` or a refusing constructor. `MessageOk` holds of
everything the parser yields, by `DnsMessages.ParsedIsOk`, and `Valid(DEFAULTS)` by `DefaultSettings`.

Five properties one might expect are false of the code. Each has an input that shows it and a theorem that
says exactly when the code does meet the property:

- Re-filtering a relayed packet can change it, because the hosts of a packet are collected without the class
  check: `ClassGuard.ClassGuardPacket`, and exactly when in `Refiltering.RefilteringKeepsPacketIff`.
- A save can succeed and leave a file that cannot be read, because the check ignores the read limit:
  `UnreadableSave.AcceptedThenFails`, and exactly when in `ActionProtocol.WorkerReadsCommittedIff`.
- A daemon start can remove an address whose marker was given up after the start read it:
  `AddressOwnership.StartCanRemoveAnothers`, and exactly when in `AddressOwnership.RemovalIsRightfulIff` and
  `AddressOwnership.ReleaseProtectsIff`. The comment at `actions.go:121-122` and `daemon.go:735-736` promises
  protection for a running daemon, and that is what holds.
- A goodbye to the display's address can be missed, because only relevant responses are looked at:
  `Goodbyes.GoodbyeCanBeMissed`, and exactly when in `Goodbyes.GoodbyeHandledIff`.
- The IP index of the device list misses an address that was filled in later, and a later lease of it becomes a
  second device: `KnownDevices.GapExample`, and exactly when in `KnownDevices.CompleteThroughoutIff`.

`dafny verify dfyconfig.toml` checks the whole project.

## Model

| member | source | states |
|---|---|---|
| Bytes.LowerIsLetters | cmd/yachtsense-link-emulator/dns.go:65 | Lower-casing turns each letter from A to Z into its small letter and changes no other octet. |
| Bytes.NormalizeTwice | cmd/yachtsense-link-emulator/dns.go:65 | Normalising a name twice is the same as once exactly when no second trailing dot is waiting after the first is removed. |
| DnsNames.Decode | cmd/yachtsense-link-emulator/dns.go:102-155 | On every octet string, cyclic pointers included, decoding ends; a decoded name is a well-formed wire name of at most 255 octets and its end lies inside the packet. `LabelsAt`, a recursive reading of RFC 1035 section 4.1.4, is the reference it is defined by. |
| DnsNames.DecodeName | cmd/yachtsense-link-emulator/dns.go:102-155 | The decoder's loop (growing wire and labels, length checks as it goes, recursion through a pointer with the depth limit) returns exactly what the reference reading gives, errors included. |
| DnsNames.DecodeInPlace | cmd/yachtsense-link-emulator/dns.go:102-155 | A wire name placed at any offset of any packet, under any permitted depth, decodes to itself with the offset just past it. |
| DnsNames.NameReads | cmd/yachtsense-link-emulator/dns.go:102-155 | What follows some labels decides the name: the root octet ends it, a pointer of fourteen bits continues it with an earlier name one level deeper, anything else is an error, and so is a wire form over 255 octets. |
| DnsNames.PointerChain | cmd/yachtsense-link-emulator/dns.go:102-105 | A chain of pointers to a root name is followed through twelve of them and refused from thirteen on. |
| DnsNames.DisplayNameIsTextIff | cmd/yachtsense-link-emulator/dns.go:129-154 | Each pointer hop normalises once more; the display name is the lower-cased dotted text of the labels exactly when the last label does not itself end in a dot octet. |
| DnsNames.SameWireSameName | cmd/yachtsense-link-emulator/dns.go:100-155 | Two packets that spell one wire name, compressed or not, show the same display name (last label not ending in a dot). |
| DnsNames.EncodeDNSName | cmd/yachtsense-link-emulator/dns.go:81-98 | The encoder's loop over the dot-separated pieces returns exactly `Encode`: the root for an empty name, an error for an empty or oversized label or a name over 255 octets. |
| DnsNames.EncodableIff | cmd/yachtsense-link-emulator/dns.go:81-98 | The names that encode are exactly those that spell dot-free labels of 1 to 63 octets, with or without one trailing dot, in at most 255 octets. |
| DnsNames.EncodeThenDecode | cmd/yachtsense-link-emulator/dns.go:65-155 | Decoding an encoded name anywhere in a packet gives the normalised name back. |
| DnsNames.ReencodingKeepsWireIff | cmd/yachtsense-link-emulator/dns.go:100-101 | Encoding the dotted text of a name gives its wire form back exactly when no label contains a literal dot; this is why the wire form is kept. |
| DnsMessages.TxtValid | cmd/yachtsense-link-emulator/dns.go:306-314 | The scan accepts a TXT payload exactly when it is a run of length-prefixed strings that ends with the payload. |
| DnsMessages.TextIff | cmd/yachtsense-link-emulator/dns.go:306-314 | The payloads accepted are exactly the concatenations of length-prefixed strings. |
| DnsMessages.ParseDNSMessage | cmd/yachtsense-link-emulator/dns.go:238-320 | The header checks and the two loops over questions and records return exactly what the recursive reading of the packet gives, errors included. |
| DnsMessages.CountsAreRead | cmd/yachtsense-link-emulator/dns.go:238-250 | In an accepted packet opcode and response code are zero, the first count is the number of questions, and the other three counts together are the number of records, at most 1024 in all. |
| DnsMessages.RecordReads | cmd/yachtsense-link-emulator/dns.go:264-318 | A record is read exactly when its name, its ten octets and its payload are there and the payload fits its type, embedded names ending with the payload; every field is then the number its octets spell. |
| DnsMessages.SameAddressIff | cmd/yachtsense-link-emulator/dns.go:290-305 | Two addresses compare equal exactly when they are the same or one is the other mapped into IPv6. |
| DnsMessages.ParsedIsOk | cmd/yachtsense-link-emulator/dns.go:244-251 | Every accepted packet has a supported opcode and response code and at most 1024 entries, each with well-formed names and a payload that fits its type. |
| DnsMessages.PrintThenParse | cmd/yachtsense-link-emulator/dns.go:238-320 | Round trip: after any header whose counts say so, however the records are split over the three sections, well-formed entries printed without compression parse to exactly those entries, in order, and what stands behind them is ignored. |
| DnsMessages.ReadPrintedRecord | cmd/yachtsense-link-emulator/dns.go:171-181 | One appended record reads back with the same wire name, type, class, TTL and payload, wherever it stands. |
| DnsMessages.PrintedRecordIs | cmd/yachtsense-link-emulator/dns.go:481-490 | Relaying a record changes only how its names are written: priority, weight and port of a service stay, and every other payload is printed as it came. |
| NameCache.Cache.AddTTL | cmd/yachtsense-link-emulator/dns.go:345-374 | Adding caps the TTL at 900 s, deletes on TTL zero, and in a full cache drops what has expired or else one arbitrary entry, also when it refreshes a name already present. |
| NameCache.Cache.Has | cmd/yachtsense-link-emulator/dns.go:375-388 | Asking answers whether the entry is unexpired and deletes it if it is not. |
| NameCache.KnownFor | cmd/yachtsense-link-emulator/dns.go:345-388 | A name added with a positive TTL is known for that many seconds, at most 900, and one added with TTL 0 is not known. |
| NameCache.AskedForgets | cmd/yachtsense-link-emulator/dns.go:375-388 | Asking forgets the name exactly when it is not known, and touches no other. |
| NameCache.DroppedOnlyWhenFull | cmd/yachtsense-link-emulator/dns.go:360-372 | A name is dropped for want of room only while 1024 names are cached and none of them has expired. |
| NameCache.AddedKeepsOthers | cmd/yachtsense-link-emulator/dns.go:357-373 | Adding a name leaves the others alone while there is room, and in a full cache the unexpired ones if any has expired. |
| NameCache.Bounded | cmd/yachtsense-link-emulator/dns.go:360-372 | No run of operations, no clock and no choice of victims grows the cache past 1024 names. |
| NameCache.CacheRefinesUnbounded | cmd/yachtsense-link-emulator/dns.go:338-388 | After every run with a non-decreasing clock, a name is known exactly when the unbounded TTL map knows it and the arbitrary eviction has not taken it since its latest addition. |
| ServicePolicy.ServiceOrderIrrelevant | cmd/yachtsense-link-emulator/dns.go:321-332 | At most one service type fits a name, so the unspecified order of the map walk does not matter. |
| ServicePolicy.ServiceForNameIff | cmd/yachtsense-link-emulator/dns.go:321-332 | The service of a name is the one type it is or lies under, up to letter case and a trailing dot; nothing lies under the service enumeration. |
| ServicePolicy.AllowedInstanceIff | cmd/yachtsense-link-emulator/dns.go:333-336 | The permitted instances are exactly the names that are or lie under the three MFD types and, under the HTTP type, those in which yachtsense-main, imx8mmevk or rds webserver occurs in any letter case, or raymarinerds and cloudconnector both do. |
| ServicePolicy.PermittedPointerIff | cmd/yachtsense-link-emulator/dns.go:415-418 | The permitted pointers are exactly those from an MFD type, from the HTTP type to a router page, and from the enumeration to one of the four types. |
| RelayFilter.ResponseRelevant | cmd/yachtsense-link-emulator/dns.go:408-432 | The two passes over the records learn and answer as specified: pointer targets first, then targets of service records whose owner is permitted or already known. |
| RelayFilter.FilterDNS | cmd/yachtsense-link-emulator/dns.go:436-504 | The filter's loops send exactly the packet made of the entries that pass, or nothing, or refuse one over 9000 octets, and leave the cache as the questions asked of it leave it. |
| RelayFilter.KeptAtExact | cmd/yachtsense-link-emulator/dns.go:465-494 | The records sent are those at the positions that pass, all of them and no others, in their original order. |
| RelayFilter.RelayedResponse | cmd/yachtsense-link-emulator/dns.go:436-504 | For every parsed response from which something is sent: at most 9000 octets, parses, is consumed to its end, and holds exactly the permitted records in order with wire name, type, class, TTL and decompressed payload. |
| RelayFilter.RelayedQuery | cmd/yachtsense-link-emulator/dns.go:443-457 | For every parsed query from which something is sent: the permitted questions in order, class IN, no unicast bit, in a packet that parses and is consumed to its end. |
| RelayPolicy.SentIff | cmd/yachtsense-link-emulator/dns.go:459-478 | After any learning, a record is sent exactly when it is of the Internet class, not the emulator's own, and a permitted pointer, a service or text record of a permitted or cached name, or an address record of a cached name or of a host that a permitted service record of the packet names; the look-ups of earlier records make no difference. |
| RelayPolicy.QuestionSentIff | cmd/yachtsense-link-emulator/dns.go:443-457 | The questions passed on are exactly those of the Internet class for one of the five service types or a cached name, in their order and with the plain class IN. |
| RelayPolicy.RelevantIff | cmd/yachtsense-link-emulator/dns.go:408-432 | A response counts exactly when one of its Internet class records is a permitted pointer or of a permitted or known name. |
| RelayPolicy.OtherHttpNotSent | cmd/yachtsense-link-emulator/dns.go:434-473 | A pointer to, or a service or text record of, any other HTTP instance that the cache does not know is never among the records sent. |
| RelayPolicy.ForeignStays | cmd/yachtsense-link-emulator/dns.go:434-473 | A response of which no record is permitted or of a cached name teaches the cache nothing, and nothing of it is sent. |
| RelayPolicy.PrinterStays | cmd/yachtsense-link-emulator/dns.go:434-435 | The announcement of an office printer, with pointer, service, text and address records, is neither learned nor relayed. |
| Provenance.CacheIsGrounded | cmd/yachtsense-link-emulator/dns.go:408-432 | Over any sequence of packets, look-ups, expiries, goodbyes and evictions every cached name has a chain from the target of a permitted pointer or permitted service record. |
| Provenance.OnlyGroundedRecordsRelayed | cmd/yachtsense-link-emulator/dns.go:459-478 | After any sequence of learnings and look-ups, a record passes only if it is a permitted pointer, belongs to a permitted instance or a name with such a chain, or is an address of a host named by a permitted service record of the same packet. |
| Refiltering.FilteringIsIdempotent | cmd/yachtsense-link-emulator/dns.go:408-504 | With a stopped clock, room in the cache and records of class IN with a positive TTL, undotted labels and service targets, the sent packet parses to records for which the same cache sends the same octets again. |
| Refiltering.RefilteringKeepsPacketIff | cmd/yachtsense-link-emulator/dns.go:408-504 | For records of any class and otherwise the same guards: the sent packet is sent again octet for octet exactly when every address record sent has a name the cache knows, or one that a service record sent beside it targets. |
| Refiltering.RefilterKeepsAllIff | cmd/yachtsense-link-emulator/dns.go:408-432 | The second pass keeps every record the first one sent exactly when every address record sent has a name the cache knows after the first pass has learned, or one that a service record sent beside it targets. |
| ClassGuard.ClassGuardPacket | cmd/yachtsense-link-emulator/dns.go:459-464 | There is a relevant packet the parser accepts whose relayed form the same cache relays differently: its address record passed beside a service record of another class, which learning and relaying skip. |
| Announcement.BuildTXTData | cmd/yachtsense-link-emulator/dns.go:182-192 | Length-prefixed strings in order, or an error when one is over 255 octets. |
| Announcement.BuildAnnouncement | cmd/yachtsense-link-emulator/dns.go:193-237 | The loop over the five records prints them after a response header, or reports the first name or text that does not fit. |
| Announcement.AnnouncedIff | cmd/yachtsense-link-emulator/dns.go:193-215 | There is an announcement exactly for an IPv4 address, an instance and a host name that encode, and texts of at most 255 octets. |
| Announcement.AnnouncementParses | cmd/yachtsense-link-emulator/dns.go:193-237 | For every valid settings record, building succeeds and the packet parses to exactly five records, the service port being the dashboard's, or 80 without one. |
| Announcement.AnnouncementSays | cmd/yachtsense-link-emulator/dns.go:193-237 | What a reader of the packet learns of a valid record: pointer, service, text, address and enumeration records with these names, classes, port, texts and address. |
| Announcement.ValidIsAnnounceable | cmd/yachtsense-link-emulator/config.go:289-348 | Validation is strong enough for the announcement: host and instance are single labels and every text fits. |
| Announcement.GoodbyeDiffersInTtl | cmd/yachtsense-link-emulator/daemon.go:298-301 | The two packets as built: the goodbye exists exactly when the announcement does and parses to its message with every TTL zero and nothing else changed. |
| Announcement.OwnAnnouncementNotRelayed | cmd/yachtsense-link-emulator/daemon.go:571 | Filtering the emulator's own announcement with its own host and instance names leaves exactly the service-enumeration pointer. |
| Replies.UnicastReply | cmd/yachtsense-link-emulator/daemon.go:438-477 | The reply is the announcement's records after the querier's ID and questions for a one-shot querier, and after ID 0 and no questions otherwise; nothing if the announcement does not parse. |
| Replies.ReplyReadsBack | cmd/yachtsense-link-emulator/daemon.go:438-477 | A reply can be read back exactly when questions and records together stay within 1024; then it holds the questions without the unicast bit and the records in order, and nothing after them. |
| Replies.LegacyReplyIsShortLived | cmd/yachtsense-link-emulator/daemon.go:465-470 | Section 6.7 of RFC 6762: towards a one-shot querier no cache-flush bit, and exactly the record's own TTL up to ten seconds. |
| Replies.ReplyIsAddressed | cmd/yachtsense-link-emulator/daemon.go:444-456 | A one-shot querier gets its own ID and questions back without the unicast bit; any other reply has ID 0, no questions and the records as announced. |
| ReceiveLoop.Receiver.Receive | cmd/yachtsense-link-emulator/daemon.go:510-543 | One turn of the loop accepts and records exactly as specified: own address, the 100-per-window limit, the parser, the 900 ms duplicate check, the purge and the eviction of a full table. |
| ReceiveLoop.AcceptedIff | cmd/yachtsense-link-emulator/daemon.go:510-543 | Said of the run itself: a datagram is accepted exactly when it is foreign, well formed, among the first hundred foreign ones of its window, and every accepted one with its digest is at least 900 ms old. |
| ReceiveLoop.EvictionNeverHappens | cmd/yachtsense-link-emulator/daemon.go:513-542 | In every run with non-decreasing readings fewer than 256 entries remain after the purge, so the arbitrary eviction is never reached. |
| ReceiveLoop.BoundedAcceptsAsUnbounded | cmd/yachtsense-link-emulator/daemon.go:527-543 | In every run the bounded table accepts exactly what a table that forgets nothing accepts. |
| ReceiveLoop.RepeatsAreSpaced | cmd/yachtsense-link-emulator/daemon.go:527-529 | Two accepted packets with one digest are at least 900 ms apart. |
| ReceiveLoop.BurstsAreBounded | cmd/yachtsense-link-emulator/daemon.go:513-520 | Any stretch of a run whose window checks lie within one second accepts at most 200 datagrams, two windows' worth. |
| Observation.Observer.Run | cmd/yachtsense-link-emulator/daemon.go:317-425 | The walk over a response (goodbyes, purges, pointers and services, addresses, trimming, report) has exactly the specified effect on observations, hosts, display and cache, for every iteration order. |
| Observation.WhatIsReported | cmd/yachtsense-link-emulator/daemon.go:317-425 | After a response the display entry is the old one, expired exactly if a goodbye names it or its address, or shows an instance of an MFD service: its short name, service and port, the address of its host, the time, and the earlier of the two expiries, which is at most 900 s away. |
| Sightings.LastRecordDecides | cmd/yachtsense-link-emulator/daemon.go:328-372 | Of the records about an instance the last one decides its entry, field by field and for the seconds of its TTL up to 900; an instance not spoken of keeps its entry until that runs out. |
| Sightings.LastAddressDecides | cmd/yachtsense-link-emulator/daemon.go:333-388 | Of the address records of a host the cache knows the last one decides its address and how long it lasts; another host keeps its own until that runs out. |
| Sightings.SpokenOfIsShown | cmd/yachtsense-link-emulator/daemon.go:338-417 | When a packet speaks of an instance or gives the address of its host, in whatever order or in a later packet, and both are known afterwards, the display shows an instance as of now. |
| Sightings.OnlySpokenOfIsShown | cmd/yachtsense-link-emulator/daemon.go:323-420 | Only what the packet speaks of is newly shown; otherwise the entry stays, expired exactly if a goodbye names it. |
| Sightings.TrimmedSize | cmd/yachtsense-link-emulator/daemon.go:389-404 | Trimming a full table deletes no more entries than it has to. |
| Discovery.AnnouncedDisplayIsFound | cmd/yachtsense-link-emulator/daemon.go:317-425 | From the packet alone: a response without goodbyes that holds a service record of an MFD instance and an address record of its host replaces the display entry by one that shows an instance as of now, while the clock does not outrun the shortest TTL. |
| Discovery.AllIsLearned | cmd/yachtsense-link-emulator/dns.go:408-432 | With room and without goodbyes everything a packet may teach is learned: the targets of permitted pointers, and the hosts of service records whose owner is permitted, cached, or pointed at in the packet. |
| Observation.GoodbyeWithdraws | cmd/yachtsense-link-emulator/daemon.go:317-425 | A packet of goodbyes reports nobody, and leaves the display expired if it names its full name or its address. |
| Observation.FullNameIsInstanceIff | cmd/yachtsense-link-emulator/daemon.go:317-425 | The name a goodbye is compared with is the instance itself exactly when that ends in its service type. |
| Goodbyes.GoodbyeHandledIff | cmd/yachtsense-link-emulator/daemon.go:317-327 | A packet of goodbyes that names the display, heard on its link, leaves it expired exactly when the packet is relevant, and otherwise as it was. |
| Goodbyes.InstanceGoodbyeIsRelevant | cmd/yachtsense-link-emulator/dns.go:408-432 | A permitted pointer or a record of a permitted instance always makes the packet relevant, so such a goodbye takes effect. |
| Goodbyes.AddressAloneRelevantIff | cmd/yachtsense-link-emulator/dns.go:420-430 | A lone address record is relevant exactly when its name is that of a permitted instance or known to the cache. |
| Goodbyes.GoodbyeCanBeMissed | cmd/yachtsense-link-emulator/daemon.go:567-569 | A run from the start in which a display announced for 900 s says goodbye to its address after ten, when the cache has forgotten its host, and stays on. |
| Goodbyes.TurnsArrive | cmd/yachtsense-link-emulator/dns.go:238-320 | Both messages of that run come from packets the parser accepts. |
| Dispatch.Engine.Answer | cmd/yachtsense-link-emulator/daemon.go:544-566 | A published link replies to a query that asks for one of the emulator's four names, at most once per 100 ms: multicast, or unicast when the bit or the port asks for it. |
| Dispatch.OwnReplyIff | cmd/yachtsense-link-emulator/daemon.go:544-566 | The emulator replies exactly to a query on a link it publishes on, with an Internet class question for one of its four names, more than 100 ms after its last reply there; to all, unless the port or the unicast bit of such a question asks for a reply to the querier alone. |
| Dispatch.Engine.Dispatch | cmd/yachtsense-link-emulator/daemon.go:544-601 | Everything one accepted message makes the daemon send and learn, in order: the own reply, then observation and the filtered relay. |
| Dispatch.RelayDirection | cmd/yachtsense-link-emulator/daemon.go:567-600 | A response goes from the display's link to every other link exactly once, a query from another link to the display's only; nothing goes back where it came from, and nothing is relayed without the relay. |
| Dispatch.ResponseRelayedIff | cmd/yachtsense-link-emulator/daemon.go:567-593 | With the relay on, a response is relayed exactly when it comes from the display's link and is relevant, there is another link, some record passes the filter, and the packet fits. |
| Dispatch.QueryRelayedIff | cmd/yachtsense-link-emulator/daemon.go:586-600 | With the relay on, a query from another link, whatever its port, is relayed exactly when one of its questions is passed on and the packet fits; what is sent is then that one packet to the display's link. |
| Dispatch.VainQuestionForgotten | cmd/yachtsense-link-emulator/daemon.go:590-591 | Deciding a query on another link leaves its mark on the cache: a name asked for in vain is no longer cached. |
| Dispatch.RelayedIsReadable | cmd/yachtsense-link-emulator/daemon.go:571-593 | Whatever is relayed is within 9000 octets and accepted by the parser as the same kind of message. |
| Dispatch.OwnReplyReadableIff | cmd/yachtsense-link-emulator/daemon.go:556-565 | An own reply stays on its link and is a response the parser accepts, exactly up to the limit of 1024 entries for one-shot queriers. |
| Dispatch.RepliesAreSpaced | cmd/yachtsense-link-emulator/daemon.go:555-556 | Over every run, two own replies on one link are more than 100 ms apart. |
| WholeRuns.EveryRunIsSound | cmd/yachtsense-link-emulator/daemon.go:317-425 | In every state reachable by messages on any links, relay and look-ups included: observations are at most 256 and hosts at most 512, the empty name is never a host, and a reported display goes back to a service record and an address record of its host heard on the display's link. |
| WholeRuns.EveryRunIsGrounded | cmd/yachtsense-link-emulator/daemon.go:567-600 | In every such state every cached name has a chain of records heard on the display's link. |
| WholeRuns.NothingLeaks | cmd/yachtsense-link-emulator/daemon.go:567-593 | No leak, end to end: after any run, every record a receiver reads in a relayed packet is an uncompressed copy of one in the response just handled, which was legitimate given what had been heard; where no name ends in a dot octet the copy itself is. |
| WholeRuns.OnlyGroundedQuestionsRelayed | cmd/yachtsense-link-emulator/daemon.go:586-600 | After any run, every question read in a relayed query asks for a Raymarine type or a name with a chain of records heard. |
| AddressOwnership.RemovalIsRightfulIff | cmd/yachtsense-link-emulator/daemon.go:713-744 | In every reachable state of daemon, request and outsiders, an address the next step removes is one the package added and has not given up exactly when the marker file still reads as the daemon last saw it. |
| AddressOwnership.OnlyOwnAddressesRemoved | cmd/yachtsense-link-emulator/daemon.go:699-748 | Over every run in which no request gives the marker up between a look at it and the removal that relies on it, the package removes only addresses it added itself and has not given up. |
| AddressOwnership.StartCanRemoveAnothers | cmd/yachtsense-link-emulator/daemon.go:701-718 | Without that condition it fails: a start that has read the marker removes an address that has changed hands since a request gave it up. |
| AddressOwnership.OthersKeepTheirs | cmd/yachtsense-link-emulator/daemon.go:699-748 | In those runs an address someone else added stays theirs until someone else removes it. |
| AddressOwnership.ReleaseProtectsIff | cmd/yachtsense-link-emulator/actions.go:120-124 | After the switch to observe-only the package can still remove an address exactly when the daemon was caught between reading the marker and the end of its start or of its cleanup; one that runs, is only stopping or is off removes nothing. |
| AddressOwnership.Router.PrepareAddress | cmd/yachtsense-link-emulator/daemon.go:699-732 | The start as one call, with every early error return, equals its steps taken with nobody in between. |
| AddressOwnership.Router.Cleanup | cmd/yachtsense-link-emulator/daemon.go:733-747 | The captured cleanup equals its steps: it acts only when removal was asked for, the captured ownership is the target and the marker still agrees. |
| AddressOwnership.StartThenStop | cmd/yachtsense-link-emulator/daemon.go:699-748 | With removal on stop, a start followed by a stop leaves every address as it was, except that the one marked before is gone, and leaves no marker. |
| AddressOwnership.ReleaseFollowsIff | cmd/yachtsense-link-emulator/actions.go:114-124 | A request gives the marker up exactly when it changes the settings to ones that only observe. |
| AddressOwnership.ObservingStart | cmd/yachtsense-link-emulator/daemon.go:706-710 | A start that only observes changes no address and gives the marker up. |
| AddressOwnership.StaleStart | cmd/yachtsense-link-emulator/daemon.go:711-717 | A managing start first removes a marked address that is not its target, and fails unless that command reports success. |
| AddressOwnership.FreshStart | cmd/yachtsense-link-emulator/daemon.go:711-717 | Without such an address it goes on with the marker it has read. |
| AddressOwnership.RestOfStart | cmd/yachtsense-link-emulator/daemon.go:718-732 | It then needs the interface; an address already there, whatever its prefix, is left alone; a missing one is added and marked, and taken back if the marker cannot be written, for every way the commands can end. |
| AddressOwnership.StopIs | cmd/yachtsense-link-emulator/daemon.go:733-747 | A stop removes the target only if it is to be removed, is the captured address and is still marked; the marker goes only when the command reports success. |
| ActionProtocol.ParsePayload | cmd/yachtsense-link-emulator/actions.go:42-66 | A request body decodes to a valid record whose interface names are those given, without repetitions, or is refused. |
| ActionProtocol.Desk.RequestAction | cmd/yachtsense-link-emulator/actions.go:67-155 | A request is refused unchanged while anyone holds the lock and otherwise equals its steps; accepted, it leaves a queued record, the lock with its worker alone, and a file that holds settings and can be read exactly up to 64 KiB; refused, it leaves the lock free. |
| ActionProtocol.AcceptedIff | cmd/yachtsense-link-emulator/actions.go:76-154 | A request with the lock is accepted exactly when it is decided, saved if it changes anything, recorded, its log opens and its worker starts; a request refused before the save changes nothing. |
| ActionProtocol.AcceptedExactly | cmd/yachtsense-link-emulator/actions.go:67-155 | Case by case: a start is the old record switched on, a stop the old record switched off, a restart the old record and only if it is on, a save the posted record, valid and with the first occurrences of its networks, and nothing else is accepted; an enabled record needs networks that resolve and an engine. Accepted, the file says that record, the marker is gone if it is new and leaves the address alone, and the worker alone holds the lock. |
| ActionProtocol.UnstartedIsFailed | cmd/yachtsense-link-emulator/actions.go:147-152 | A request whose worker cannot be started leaves its settings saved and its record failed. |
| ActionProtocol.WorkerRecords | cmd/yachtsense-link-emulator/actions.go:165-237 | What a worker leaves in the record: applying once it has read the settings, failed if it cannot, then done exactly when commands and polls succeed, and failed otherwise. |
| ActionProtocol.OneActionAtATime | cmd/yachtsense-link-emulator/actions.go:67-163 | Over every interleaving of requests, workers and deaths, at most one action is in progress. |
| ActionProtocol.LockIsFreeIff | cmd/yachtsense-link-emulator/actions.go:144-161 | The lock handed from request to worker, and inherited by the worker's service commands, is free exactly when no action is in progress, a command that outlives its worker included. |
| ActionProtocol.WorkerReadsCommittedIff | cmd/yachtsense-link-emulator/actions.go:166-173 | A started worker reads what its request committed exactly when the file is within the 64 KiB read limit. |
| ActionProtocol.WorkerAppliesCommitted | cmd/yachtsense-link-emulator/actions.go:166-173 | A worker that applies anything applies the record its own request committed. |
| ActionProtocol.MarkerGoesAfterCommit | cmd/yachtsense-link-emulator/actions.go:114-124 | The ownership marker goes only once the file holds settings that do not manage the address. |
| ActionProtocol.RecordIsSettled | cmd/yachtsense-link-emulator/actions.go:126-237 | Once the action of the stored record is over, the record says done or failed, unless a party died, the action log could not be opened, or the write of its final record failed. |
| ActionProtocol.FinalRecordStays | cmd/yachtsense-link-emulator/actions.go:126-237 | In every reachable state a stored record that says done or failed stays as it is until another action's queued record replaces it. |
| ActionProtocol.DoneRecordSawCommitted | cmd/yachtsense-link-emulator/actions.go:165-237 | A record that says done goes back to what its worker met: there the commands on the committed settings all succeeded in order, and with the service enabled the last three polls saw one process that carries just those settings. |
| ActionWorker.ApplyAction | cmd/yachtsense-link-emulator/actions.go:166-237 | The worker with its two polling loops issues, records and sees exactly the specified list of entries. |
| ActionWorker.DoneIff | cmd/yachtsense-link-emulator/actions.go:166-237 | An action is done exactly when every command it needs succeeds, the old daemon goes in time and, if enabled, three polls in a row are ready with one process in time. |
| ActionWorker.ReadyWaitIff | cmd/yachtsense-link-emulator/actions.go:206-229 | The counter and the remembered process succeed exactly when there are three consecutive ready polls of one process before the deadline. |
| ActionWorker.StopWaitIff | cmd/yachtsense-link-emulator/actions.go:191-197 | The wait for the old daemon succeeds exactly when some poll sees it gone and no earlier poll was past the deadline. |
| ActionWorker.EndsOnce | cmd/yachtsense-link-emulator/actions.go:167-236 | Every applied action ends in done or failed, and records that only once, at the end. |
| ActionWorker.CommandsInOrder | cmd/yachtsense-link-emulator/actions.go:187-233 | The service commands issued are the needed ones in order, cut short at the first failure and complete when done. |
| ActionWorker.NoStartWhileOldRuns | cmd/yachtsense-link-emulator/actions.go:185-206 | An action other than start issues start only after a successful stop and after last seeing the old daemon gone. |
| ActionWorker.DoneSawStable | cmd/yachtsense-link-emulator/actions.go:206-223 | Done with the service enabled means the last three polls matched one process and carried the settings being applied. |
| UciWords.Words | cmd/yachtsense-link-emulator/config.go:116-169 | The character loop returns exactly what the recursive scanner gives, syntax errors included. |
| UciWords.QuoteThenSplit | cmd/yachtsense-link-emulator/config.go:116-169 | For every list of octet strings, their quoted forms joined by spaces split back into exactly that list. |
| UciWords.CutQuoteFails | cmd/yachtsense-link-emulator/config.go:362 | A quoted text cut off before its closing quote is a syntax error. |
| UciGrammar.SplitsIff | cmd/yachtsense-link-emulator/config.go:116-169 | The grammar of a line: it splits into words exactly when it is spelled as words of bare, escaped, single-quoted and double-quoted pieces with blanks between them and an optional comment, and into what those pieces mean; every other line breaks off inside a quote or after a backslash and is an error. |
| UciConfig.ParseUCI | cmd/yachtsense-link-emulator/config.go:170-201 | The line loop returns exactly what the recursive reading of the file gives. |
| UciConfig.RenderThenParse | cmd/yachtsense-link-emulator/config.go:170-201 | Reading a written section gives its entries back exactly when each value has no newline and fits on a line. |
| UciFiles.FileSays | cmd/yachtsense-link-emulator/config.go:170-201 | A file of whatever lines is unreadable exactly when one is too long, cannot be split, or is an option of the emulator's section without exactly a key and a value; otherwise every key has the value of its latest option line and of the list lines behind it in that section. |
| Settings.SettingsRoundTrip | cmd/yachtsense-link-emulator/config.go:202-256 | Writing a valid record and reading it back gives the same record exactly when every value fits its line and the interface list is non-empty and without duplicates; otherwise what is read instead is stated. |
| SettingsRules.FileSaysRecordIff | cmd/yachtsense-link-emulator/config.go:202-256 | From text to record: a file says a record exactly when no line is bad, each option says its field or is left out and stands for its default or old meaning, and the record is acceptable. |
| SettingsRules.ValidIff | cmd/yachtsense-link-emulator/config.go:289-348 | What validation accepts, in terms of the texts: unicast addresses, networks, names and ranges. |
| SettingsRules.UnicastIff | cmd/yachtsense-link-emulator/config.go:314-317 | The addresses accepted are exactly the dotted texts of four octets other than loopback, multicast, 0.0.0.0 and 255.255.255.255. |
| SettingsRules.AtoiIff | cmd/yachtsense-link-emulator/config.go:227-234 | The numbers read are exactly the signed decimal texts of the 32-bit integers, leading zeros or not. |
| SettingsRules.DecimalReads | cmd/yachtsense-link-emulator/config.go:590 | Every 32-bit number is written so that it is read back. |
| SettingsRules.AsBoolIff | cmd/yachtsense-link-emulator/config.go:104-112 | The switches are five words for on and five for off, in any letter case. |
| Settings.ConfigStore.WriteSettings | cmd/yachtsense-link-emulator/config.go:433-489 | A save succeeds exactly when the record is valid, reads back equal and every file operation works; only then is the live file replaced, and the previous one kept. |
| Settings.SavedButTooLargeToRead | cmd/yachtsense-link-emulator/config.go:257-266 | The save check ignores the read limit of 64 KiB: a valid record with a long unused interface name is saved and then cannot be read. |
| DefaultSettings.DefaultsRoundTrip | cmd/yachtsense-link-emulator/config.go:58-60 | The default record is valid, and the file a save makes of it reads back as the defaults. |
| UnreadableSave.AcceptedThenFails | cmd/yachtsense-link-emulator/actions.go:67-173 | From the default file a request of 16372 octets is accepted and its worker starts, but the settings cannot be read any more and the action is recorded as failed. |
| KnownDevices.Merger.AddDevice | cmd/yachtsense-link-emulator/telemetry_devices.go:120-152 | One known device is ignored, filled into the device its MAC or else its IP finds, or appended below 256, with both indexes updated as specified. |
| KnownDevices.AddIs | cmd/yachtsense-link-emulator/telemetry_devices.go:120-152 | A device without a proper MAC or IP address is passed over; otherwise the device its MAC, or else its IP address, finds gets the missing name and address and nothing else; one found by neither is appended below 256. |
| KnownDevices.BridgeIs | cmd/yachtsense-link-emulator/telemetry_devices.go:178-206 | A bridge entry of a known MAC address only marks a device behind a tunnel port as VPN; another is added as a recently seen device of the LAN. |
| KnownDevices.IndexIs | cmd/yachtsense-link-emulator/telemetry_devices.go:110-119 | The indexes start with the last device of each address. |
| KnownDevices.Merger.Merge | cmd/yachtsense-link-emulator/telemetry_devices.go:109-206 | All sources in order, with both indexes kept sound and the MAC index complete. |
| KnownDevices.MergeKeepsEverything | cmd/yachtsense-link-emulator/telemetry_devices.go:109-206 | For every list and every sources: before the final sort no device is dropped or moved, no non-empty name or IP overwritten, no duplicate MAC added, at most 256 devices if the input had no more, and the MAC index agrees with the list. |
| KnownDevices.NothingIsLeftOut | cmd/yachtsense-link-emulator/telemetry_devices.go:120-206 | Every source with a MAC or IP address that parses is found in the merged list by one of them, unless the list is full. |
| KnownDevices.DistinctIffBefore | cmd/yachtsense-link-emulator/telemetry_devices.go:109-206 | MAC addresses are distinct afterwards exactly if they were before, and then the index is the list. |
| KnownDevices.StepKeepsIPCompleteIff | cmd/yachtsense-link-emulator/telemetry_devices.go:120-152 | A source keeps the IP index complete exactly unless it fills an address that is not indexed into a device found by MAC. |
| KnownDevices.CompleteThroughoutIff | cmd/yachtsense-link-emulator/telemetry_devices.go:109-206 | For every list and sources, the IP index is complete throughout the merge exactly if no source fills in an unindexed address. |
| KnownDevices.GapMakesDuplicate | cmd/yachtsense-link-emulator/telemetry_devices.go:135-151 | What the gap costs: the next source with that address and a MAC of its own is appended as a second device of the same address. |
| KnownDevices.GapExample | cmd/yachtsense-link-emulator/telemetry_devices.go:109-206 | One device known by MAC and two leases of one address: the first leaves the gap, the second the duplicate. |
| NetworkSelection.ResolveInterfaces | cmd/yachtsense-link-emulator/config.go:555-651 | The loops over interfaces and names resolve exactly as specified, every refusal included. |
| NetworkSelection.ResolvedIsUsable | cmd/yachtsense-link-emulator/config.go:555-651 | Resolved networks are usable: RayNet has the configured address unless it is to be added, app networks are non-empty, without duplicates, up, and with an address unless RayNet. |
| NetworkRules.ResolveIff | cmd/yachtsense-link-emulator/config.go:555-651 | Resolving gives exactly one answer, said of the interfaces: RayNet with its CIDR text, and the first occurrences of the chosen, the LAN or the only possible app networks, each of them alive and with an address; it refuses when there is none. |
| NetworkSelection.ManualResolvesIff | cmd/yachtsense-link-emulator/config.go:555-651 | Explicitly chosen networks resolve exactly when RayNet is usable and has, or may be given, the configured address and every app network is usable with an address of its own unless RayNet. |
| NetworkSelection.AutomaticResolvesIff | cmd/yachtsense-link-emulator/config.go:555-651 | Automatic choice of both networks succeeds exactly when one interface alone has the address and is usable, and either br-lan can serve as app network or one interface alone is suitable. |
| NetworkSelection.ManualRayNetResolvesIff | cmd/yachtsense-link-emulator/config.go:555-651 | The exact condition for an explicit RayNet and an automatic app network. |
| NetworkSelection.ManualAppResolvesIff | cmd/yachtsense-link-emulator/config.go:555-651 | The exact condition for an automatic RayNet and explicit app networks. |
| NetworkSelection.AutomaticAppAvoidsDefaultRoute | cmd/yachtsense-link-emulator/config.go:555-651 | An automatically chosen app network never carries the default route, except br-lan serving as RayNet. |
| NetworkSelection.BuiltRelay | cmd/yachtsense-link-emulator/daemon.go:248-258 | The engine that is built walks the app networks again, and for every choice its own relay decision is the one chosen and reported. |
| NetworkRules.EngineIff | cmd/yachtsense-link-emulator/status.go:141-173 | Each engine, and each refusal, with the exact condition on mode, networks and Avahi. |
| NetworkRules.EligibleIff | cmd/yachtsense-link-emulator/status.go:76-106 | An Avahi is eligible exactly when its reflector is on, IPv4 is in use, nothing is filtered and every network is covered. |
| NetworkRules.RelayModeIff | cmd/yachtsense-link-emulator/dns.go:505-520 | The engine relays between distinct networks exactly when forced, or when it may and nothing else reflects. |
| NetworkSelection.RelayNeedsTwoNetworks | cmd/yachtsense-link-emulator/status.go:141-173 | From settings to relay: the relay is on only if RayNet and another app network with its own address are usable and no overlapping Avahi runs. |
| NetworkSelection.ExternalCoversAll | cmd/yachtsense-link-emulator/status.go:76-106 | An external reflector is relied on only if its configuration reflects, uses IPv4, has no reflection filters, and covers RayNet and every app network. |
| ArArchive.Archive | scripts/build.py:52-66 | The writer's loop returns the archive of all members, or an error exactly when one cannot be written. |
| ArArchive.WritableIff | scripts/build.py:56-61 | A member can be written exactly when its name is short and safe and its size has at most ten digits. |
| ArArchive.SafeNameIff | scripts/build.py:56-57 | The safe names are those of 1 to 15 letters, digits, underscores, dots and hyphens. |
| ArArchive.MemberIs | scripts/build.py:54-65 | The octets of a member: name and slash, zero time, owner and group, mode, size, end mark, payload, and a newline if that is of odd length. |
| ArArchive.ArchiveReadsBack | scripts/build.py:52-66 | A System V reader gives back exactly the members written: names, decimal sizes, payloads. |
| ArArchive.MembersAligned | scripts/build.py:64-65 | Every member starts at an even offset. |

## Left out

- ActionWorker.ApplyAction: a `Store` entry is an attempt to write `action.json`, and the result says what the last attempt was to store; whether it was written is in `ActionProtocol`.
- ActionProtocol.WorkerReadsCommittedIff: takes the configuration file to be written by requests only, which is what the action lock is for.
- ActionProtocol.LockIsFreeIff: a service command may outlive its worker only by the worker's death; commands that the time limit ends are taken to be gone when the worker goes on.
- AddressOwnership.OnlyOwnAddressesRemoved: assumes that nobody else adds an address that is marked or has just been added by the daemon, that removing the marker file works, and that no crash falls between a removal and that of its marker.
- AddressOwnership.StartThenStop: every command succeeds and the marked address, if any, is present; the failing cases are in `PrepareAddress` and `Cleanup`.
- Refiltering.RefilteringKeepsPacketIff: records with TTL zero, labels ending in a dot octet, service records without a target and a moving clock are left out; it needs room for four names per record in the cache, so that the arbitrary eviction, which may take any name, is not reached.
- Discovery.AnnouncedDisplayIsFound: needs room in the cache and in both tables, because the trimming of a full table may take any entry, and one host per instance in the packet.
- ReceiveLoop.BurstsAreBounded: counts datagrams the duplicate table also lets through; the window itself starts anew with the first datagram after a second, so 200 is what the code promises, not 100.
- WholeRuns.NothingLeaks: handles one message at a time. The read loops of different links are concurrent and share the cache one operation at a time, so a look-up for a query may fall between two learning steps of a response; only the loop of the display's link ever adds a name.
- Dispatch.Engine.Dispatch: sends are taken to succeed; a failed send cancels the engine.
- NetworkSelection.ExternalCoversAll: starts from the values of the Avahi file; splitting the file (`parseINI`, `commaList`) and finding it (`inspectAvahi`) are not modelled, and an empty interface name is refused as uncovered.
- KnownDevices.Merger.Merge: starts from split leases, host sections and filtered bridge entries; which texts are MAC or IP addresses is a parameter, and the final stable sort is the library's.
- ArArchive.Archive: names are octets; Python's check on any other character refuses it before encoding.
- Settings.ConfigStore.WriteSettings: the `uci` program is a canonical renderer of the one section (`UciConfig.RenderSection`); other sections, comments and the order it keeps are not modelled, and each file operation is one step that works or not.
- DnsMessages.ParsedIsOk: the text of an address is kept up to its meaning (`AddressKey`), not as Go prints it.
- Announcement.BuildAnnouncement: the MAC address text is a parameter of at most 251 octets.
- Text is octets: lower-casing is a fixed byte map of A to Z, and Unicode letters, spaces and control characters beyond ASCII are not modelled.
- Error texts and log lines: a failure is `None` or a refusing constructor.
- Integers read from the configuration are those of the 32-bit target that `scripts/build.py:74` builds for.
- SHA-256 digests and settings fingerprints are injective: a digest is a key, a fingerprint is the settings record.
- Sockets, deadlines, multicast options, HTTP servers, the dashboard and signals: system plumbing.
- Decoding of JSON bodies and files: a request body is its octets and the record they decode to; a marker file holds an address or is absent.
- `recordApp`, packet counters and the periodic announcement ticker: single assignments and a timer.
- `encodeDNSName` as fallback for an empty `Wire` in the filter: unreachable for parsed messages, whose wire names are never empty.
- `devicesView`, telemetry parsers, GPS arithmetic and public logs: library calls and text splitting.
- `atomicWrite` below the level of one replacement or no change, and the directory and permission handling around it.
- `archive`, package metadata and the tar container in `scripts/build.py`: library wrappers.
- The web page, Lua adapters, shell hooks and access-control files.
