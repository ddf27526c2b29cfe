# Verified model of pimsteward's derived state

pimsteward keeps a mailbox, its calendars and its contacts in a git tree, answers
searches from a derived index, and publishes and exchanges calendars as iCalendar
text. This project models the parts of it where a result has to agree with
something else: a printer with its parser, an index with the disk, a tree with the
remote, a restore with the past. `dafny verify dfyconfig.toml` checks all of it.

## The modules

* **iCalendar text.** `Text` (unfolding), `Lines` (logical lines), `Vevent` (the
  readers scoped to the first VEVENT), `EventWriter` (the event built for a new
  appointment), `Components`, `Zones`, `WindowsZones`, `Feed`, `FeedProofs` (block
  extraction, zone names, the merged feed), `Imip`, `ImipProofs`, `Addresses`,
  `PayloadFrame` (invitations), `QuotedPrintable` (the preview decoder).
* **Discovery.** `Discovery` holds the two one-pass machines over XML events,
  `DiscoveryTree` the queries over the tree that they compute, `DiscoveryNames` what
  they make of names and of whole documents.
* **Search index.** `Like` (SQLite's LIKE), `Search` and `SearchProofs` (the compiler
  from a query to a WHERE clause with numbered placeholders, evaluated in
  three-valued logic), `Paging`, `Index` (the table, the FTS sidecar kept by three
  triggers, transactions and crashes), `Disk`, `Rebuild`, `RebuildProofs`,
  `IndexedRows`, `RebuildScript`, `CrashProofs`, `VerifyIndex`.
* **Reconcile and restore.** `Tree`, `Pull`, `PullProofs`, `PulledFiles` (the calendar pull),
  `Paths`, `Restore`, `RestoreProofs` (bulk restore).
* `Seqs`, `Order` and `Messages` are shared.

Code that works by changing things step by step is written as methods and classes
and proved equal to a function; the theorems are about the functions. Beside them stand
lemmas that say what the small functions mean in literal characters, files and
events, so that no theorem is about a name alone. SQLite is a
map with a snapshot to fall back to, the sidecar a multiset of postings, SQL a small
syntax tree with holes, XML a sequence of events, git a map from commit and path to
text. What comes from outside is a parameter: the clock, SHA-256, the MIME and date
parsers, the FTS tokenizer and MATCH, `to_lowercase`, the URL join, the order in
which a directory is listed, the server's answers.

## Hypotheses that carry weight

* Zone rewriting needs a table whose new names are portable and not old names
  (`TableIsGood` proves it of the real one).
* The feed theorems ask that no logical line of a payload starts with a blank and that
  name and product id are single lines. Cutting events out of the feed asks besides
  that no event opens inside a zone, cutting zones out that no zone opens inside an
  event. What is defined in the feed is exact (`DefinedExactly`). The iMIP theorems ask
  that no logical line of the stored event starts with a blank and that its zones hold
  no VEVENT markers; `ReadPayloadExactly` says what is seen when they do.
* The resume theorem asks that every file loads and that a row which would be left
  alone is what its file loads to. Files of one id must load to one row, and that is
  exact (`ResumesExactly`, `SteadyIsAgree`); two folders with one id do not
  (`TwoFoldersCrash`).
* The pull theorems ask for event keys distinct and not ending in `.meta.json`, a
  directory of matching `.ics` and `.meta.json` files, and truthful etags and hashes.
  What they need of the calendar ids is exact (`PullMirrorsExactly`); ids that collide
  when sanitised, and a calendar listed twice, fail (`CollidingIds`, `ListedTwice`).
* The restore theorems ask for a server that stores bodies verbatim, uids unique per
  calendar, fresh ids for new events, calendar ids that are directory names, a commit
  that lists no path twice, and uids, in the store and in the paths of the commit, that
  sanitising keeps and that do not end in `.meta.json`. A calendar named by the commit
  need not be listed any more; its files are then not pulled. A
  calendar id with a slash, such as a collection URL, is not the one read back from
  the path (`SanitisedIdMissed`).

## Where the code and its comments differ

* `wrap_like` says that lowering both sides makes upper and lower case pairs outside
  ASCII behave consistently. SQLite's LOWER changes ASCII letters only, so a text
  without wildcards is found by itself exactly when `to_lowercase` changes no other
  letters (`FindsItselfIff`, `NonAsciiNeedleMisses`).
* `delete_folder` and the prefix filter are described as a folder and its descendants.
  An underscore or percent sign in the name is a wildcard, and other folders match
  (`FolderRowsExact`, `PrefixMeaning`, `WildcardFolder`). LIKE also ignores the case of
  ASCII letters, so `archive/2026` counts as below `Archive`; `Descendant` says so, and
  `SpelledExactly` when this makes no difference.
* `apply_bulk` says that it stops at the first failure. It collects the error and
  goes on (`EveryPlanTried`).
* `rebuild_from_disk` calls the orphan sweep an authoritative sync. A folder that
  cannot be listed counts as one error and then loses its rows in the sweep, unless
  another folder has the id (`UnreadableFolderSwept`); `verify` treats the same folder
  as an error.
* `build_imip` says that the organizer is rewritten. A stored event without an
  ORGANIZER line gets none (`OrganizerReadsBackIff`).
* The comment on a forced rebuild speaks of dropping and recreating the FTS tables.
  The code deletes every row and lets the triggers empty the sidecar, which is what
  `Index` models.

## Model

| member | source | states |
|---|---|---|
| `Text.UnfoldUndoesFolding` | crates/pimsteward-ical/src/ical.rs:39-62 | Unfolding a text with folds inserted gives the original back if and only if the insertion is legal in the sense of section 3.1 of RFC 5545; an illegal one always loses characters |
| `Text.UnfoldIdempotentIff` | crates/pimsteward-ical/src/ical.rs:39-62 | Unfolding twice equals unfolding once exactly when no line feed of the text is followed by one or more folds and then a blank |
| `Text.UnfoldFixpoint` | crates/pimsteward-ical/src/ical.rs:39-62 | A text is unchanged by unfolding exactly when it contains no fold |
| `Text.UnfoldNotIdempotent` | crates/pimsteward-ical/src/ical.rs:39-62 | A concrete text on which a second unfolding still changes something |
| `Text.UnfoldLoop` | crates/pimsteward-ical/src/ical.rs:39-62 | The peeking loop computes the recursive unfolding |
| `Text.FoldsGo` | crates/pimsteward-ical/src/ical.rs:39-62 | A carriage return and line feed, or a bare line feed, with the space or tab after it disappears |
| `Text.CaseMeaning` | crates/pimsteward-ical/src/ical.rs:87-87 | Case folding exchanges the 26 letters with their capitals, one by one, and changes no other character |
| `Text.WhiteMeaning` | crates/pimsteward/src/icloud/discovery.rs:240-241 | White space is these 25 characters and no other |
| `Text.TrimMeaning` | crates/pimsteward/src/icloud/discovery.rs:240-241 | Trimming takes white space off both ends, leaves none there, and nothing else goes |
| `Lines.GoodReadsBack` | crates/pimsteward-ical/src/ical.rs:39-62 | CRLF-printed logical lines are read back as they were: printing, unfolding and splitting is the identity on good lines |
| `Vevent.PropertyLine` | crates/pimsteward-ical/src/ical.rs:68-74 | A line made of name, parameters and value splits into that name and that value |
| `Vevent.ScanIsBody` | crates/pimsteward-ical/src/ical.rs:84-103 | The flag-driven scan yields what lies between the first BEGIN and the first END marker, however markers are repeated |
| `Vevent.MarkExactly` | crates/pimsteward-ical/src/ical.rs:86-95 | A line is the begin or the end marker exactly when it spells it in any case, carriage returns at its end aside |
| `Vevent.VeventProperties` | crates/pimsteward-ical/src/ical.rs:80-107 | The loop yields the properties of the first VEVENT, in order, and none from outside it |
| `Vevent.VeventRawLinesNamed` | crates/pimsteward-ical/src/ical.rs:141-173 | The loop yields the whole lines of that name of the first VEVENT, in order |
| `Vevent.FirstDecides` | crates/pimsteward-ical/src/ical.rs:111-115 | A field is the value of the first property of that name in the first VEVENT |
| `Vevent.BodyBetween` | crates/pimsteward-ical/src/ical.rs:80-107 | Content printed between the markers is found again, whatever stands before and after |
| `EventWriter.EscIsOnePass` | crates/pimsteward/src/mcp/server.rs:2863-2869 | The chain of five replacements equals one pass that maps each character on its own |
| `EventWriter.UnescapeUndoesEsc` | crates/pimsteward/src/mcp/server.rs:2863-2869 | Unescaping by section 3.3.11 of RFC 5545 gives the original text back, minus carriage returns |
| `EventWriter.BuildIcalEvent` | crates/pimsteward/src/mcp/server.rs:2850-2932 | The writer returns the printed lines of the event, or the error of the first date that does not parse |
| `EventWriter.ReadEvent` | crates/pimsteward/src/mcp/server.rs:2910-2931 | A VEVENT reader finds in the written event exactly the properties written, whatever the texts contain |
| `EventWriter.EventReadsBack` | crates/pimsteward/src/mcp/server.rs:2916-2929 | For each text property the reader returns exactly the escaped values given, in order |
| `EventWriter.SummaryRoundTrip` | crates/pimsteward/src/mcp/server.rs:2920-2920 | The first SUMMARY a reader finds in the written event unescapes to the original minus carriage returns |
| `EventWriter.TextsRoundTrip` | crates/pimsteward/src/mcp/server.rs:2910-2931 | SUMMARY, DESCRIPTION, LOCATION and every ATTENDEE read back by name and unescaped are the texts given, in order, minus carriage returns, and absent ones stay absent |
| `EventWriter.CreatedEventReadsBack` | crates/pimsteward/src/mcp/server.rs:2850-2932 | The same of what the writer returns for any arguments whose dates parse |
| `EventWriter.CreatedDates` | crates/pimsteward/src/mcp/server.rs:2871-2912 | Read back, DTSTART is the given start and DTEND the given end, as dates with VALUE=DATE exactly when the start has ten characters with a dash at index 4, else as instants; DTSTAMP is the present time and UID the given id, else the fresh one |
| `EventWriter.CreationFails` | crates/pimsteward/src/mcp/server.rs:2871-2894 | The error is that of the start exactly when the start does not parse, and that of the end exactly when only the end does not |
| `Components.ExtractComponents` | crates/pimsteward-ical/src/feed.rs:27-46 | The loop returns the CRLF-joined blocks between matching begin and end markers |
| `Components.BlocksWell` | crates/pimsteward-ical/src/feed.rs:27-46 | Every extracted block opens with the begin marker, closes with the end marker and has neither in between |
| `Components.BlocksFound` | crates/pimsteward-ical/src/feed.rs:27-46 | Extracting from the concatenation of well-formed blocks gives these blocks and then those of the rest |
| `WindowsZones.TableIsGood` | crates/pimsteward-ical/src/feed.rs:52-124 | The 67 zone names are portable parameter values and none of them is itself a Windows name |
| `WindowsZones.PublishedFeed` | crates/pimsteward-ical/src/feed.rs:228-264 | With the real table: cutting the published feed apart gives exactly the rewritten events, in order, and each zone of the table once |
| `WindowsZones.PublishedReference` | crates/pimsteward-ical/src/feed.rs:52-169 | With the real table: no zone that a published event refers to is a Windows name of the table, whether or not the payloads define their zones |
| `WindowsZones.PublishedResolved` | crates/pimsteward-ical/src/feed.rs:228-264 | With the real table, and payloads that define the zones they refer to: such a zone is moreover defined in the feed exactly once |
| `WindowsZones.EasternTime` | crates/pimsteward-ical/src/feed.rs:71-71 | In the real table the Windows name of eastern time stands for New York |
| `Zones.RewrittenReference` | crates/pimsteward-ical/src/feed.rs:131-157 | Rewriting a line maps the zone it refers to and changes nothing from the first colon on, unless it is a TZID property |
| `Zones.ParameterMeaning` | crates/pimsteward-ical/src/feed.rs:141-157 | A line with a TZID parameter keeps all of itself but the value, which becomes the name the table gives it |
| `Zones.PropertyMeaning` | crates/pimsteward-ical/src/feed.rs:131-140 | A TZID property keeps its name and its value becomes the name the table gives it |
| `Zones.RewriteIdempotent` | crates/pimsteward-ical/src/feed.rs:131-157 | Rewriting a line twice equals rewriting it once |
| `Zones.OtherLinesFixed` | crates/pimsteward-ical/src/feed.rs:131-157 | A line without a zone is the image of itself only |
| `Zones.RewriteTextLines` | crates/pimsteward-ical/src/feed.rs:163-169 | Rewriting a text line by line, line endings kept, rewrites each of its logical lines |
| `Zones.RewrittenLines` | crates/pimsteward-ical/src/feed.rs:163-169 | The logical lines of a rewritten payload are the rewritten logical lines of the payload |
| `Feed.InsertSorted` | crates/pimsteward-ical/src/feed.rs:239-243 | First-wins insertion keeps the zone table sorted by id and adds at most the new entry |
| `Feed.BlankContributesNothing` | crates/pimsteward-ical/src/feed.rs:231-236 | A payload of white space would contribute no block, so skipping it loses nothing |
| `Feed.MergeCalendar` | crates/pimsteward-ical/src/feed.rs:228-264 | The merge prints the header, one zone per id in id order, every event block in order, and the footer |
| `FeedProofs.FeedReadsBack` | crates/pimsteward-ical/src/feed.rs:247-263 | The feed text reads back as the lines it was printed from |
| `FeedProofs.FeedNames` | crates/pimsteward-ical/src/feed.rs:249-255 | A reader of the feed finds the given product id and calendar name under their properties, and the method PUBLISH |
| `FeedProofs.ScanHit` | crates/pimsteward-ical/src/feed.rs:174-184 | A field is found under its name in any case, parameters or not, and is what follows the colon |
| `FeedProofs.MergeKeepsEvents` | crates/pimsteward-ical/src/feed.rs:228-264 | Extracting events from the feed gives exactly the event blocks of the rewritten inputs, in order: none lost, none invented |
| `FeedProofs.MergeKeepsZones` | crates/pimsteward-ical/src/feed.rs:239-259 | Extracting zones from the feed gives exactly the zone table |
| `FeedProofs.ReferenceRewritten` | crates/pimsteward-ical/src/feed.rs:131-169 | No event of the feed refers to an old name of the table, whether or not the payloads define their zones |
| `FeedProofs.FirstDefinitionWins` | crates/pimsteward-ical/src/feed.rs:239-243 | The table is sorted and holds, per rewritten id, the first definition among all inputs |
| `FeedProofs.DefinedExactly` | crates/pimsteward-ical/src/feed.rs:228-264 | A zone name is defined in the feed, and then exactly once, if and only if some rewritten input holds a zone of that name |
| `FeedProofs.ReferenceDefined` | crates/pimsteward-ical/src/feed.rs:228-264 | What an input that defines its zones refers to is defined in the feed exactly once, whatever the other inputs |
| `FeedProofs.ReferencesStayClosed` | crates/pimsteward-ical/src/feed.rs:228-264 | If each input defines the zones its events refer to, every zone an event of the feed refers to has exactly one definition there |
| `Imip.BuildImip` | crates/pimsteward-ical/src/imip.rs:78-142 | The payload is the printed header, zones, rewritten first event and footer |
| `Vevent.BodyAfter` | crates/pimsteward-ical/src/ical.rs:80-107 | Markers before a printed event: a reader finds what is there alone and, unless that holds an end marker, the printed content |
| `ImipProofs.ReadPayloadExactly` | crates/pimsteward-ical/src/imip.rs:78-142 | A VEVENT reader sees exactly the new event if and only if it finds nothing in the zones alone and no end marker there, or finds the very same event there; otherwise the theorem says what it sees |
| `ImipProofs.ReadPayload` | crates/pimsteward-ical/src/imip.rs:78-142 | When no zone holds a VEVENT marker the reader sees exactly the lines of the new event |
| `ImipProofs.DecimalParses` | crates/pimsteward-ical/src/imip.rs:118-118 | The decimal printed for a sequence number parses to that number |
| `ImipProofs.AddressReadsBackIff` | crates/pimsteward-ical/src/imip.rs:15-26 | An address put in an attendee line comes back lowercased if and only if it is not empty, has no white space at its ends and no field of it starts with an EMAIL parameter |
| `ImipProofs.AttendeesReadBackIff` | crates/pimsteward-ical/src/imip.rs:57-73 | The attendees read from the payload are the given ones, lowercased and in order, if and only if each address is faithful in that sense |
| `ImipProofs.OrganizerReadsBackIff` | crates/pimsteward-ical/src/imip.rs:45-55 | The organizer read from the payload is the given one if and only if the stored event had an ORGANIZER line and the address is faithful |
| `ImipProofs.SequenceReadsBack` | crates/pimsteward-ical/src/imip.rs:116-131 | The SEQUENCE read from the payload is the decimal of the given number, whatever the stored event said |
| `ImipProofs.StampReadsBack` | crates/pimsteward-ical/src/imip.rs:120-134 | The DTSTAMP read from the payload is the time it was made, whatever the stored event said |
| `ImipProofs.SurvivorsKept` | crates/pimsteward-ical/src/imip.rs:102-129 | The lines of the stored event that start with none of the six words, in any case, survive, in order, and none of that sort is added |
| `PayloadFrame.PayloadHead` | crates/pimsteward-ical/src/imip.rs:85-90 | The payload is a calendar of version 2.0 that says the method it was asked for |
| `PayloadFrame.ZonesKept` | crates/pimsteward-ical/src/imip.rs:92-94 | The zones of the stored calendar are in the payload, as they were and in order; and no other zone is, exactly when the stored event holds none itself |
| `Addresses.EmailExactly` | crates/pimsteward-ical/src/imip.rs:16-21 | A line has an EMAIL parameter if and only if one of its fields, after white space, starts with the word in capitals or small letters |
| `Addresses.EmailIsAddress` | crates/pimsteward-ical/src/imip.rs:16-21 | The first such parameter is the address, up to the next semicolon or colon, trimmed and lowercased |
| `Addresses.MailtoIsAddress` | crates/pimsteward-ical/src/imip.rs:22-25 | Without one the address is what follows mailto, in any case, after the first colon, trimmed and lowercased; else there is none |
| `ImipProofs.OrganizerIsFirst` | crates/pimsteward-ical/src/imip.rs:45-55 | The organizer of any event is read off its first ORGANIZER line |
| `QuotedPrintable.DecodeLoop` | crates/pimsteward/src/mcp/server.rs:3193-3222 | The byte loop ends on every input, computes the recursive decoding and never lengthens its input |
| `QuotedPrintable.DecodeInvertsIff` | crates/pimsteward/src/mcp/server.rs:3193-3231 | Decoding an encoding gives the bytes back if and only if no literal equals sign is read as an escape; otherwise it is strictly shorter |
| `QuotedPrintable.LegalEncodingsInvert` | crates/pimsteward/src/mcp/server.rs:3193-3231 | Every encoding of section 6.7 of RFC 2045 (literals, hex pairs of either case, soft breaks) decodes to the original |
| `QuotedPrintable.InCharacters` | crates/pimsteward/src/mcp/server.rs:3193-3231 | The escape is an equals sign, the soft breaks are made of carriage return and line feed, and the digits are those of either case |
| `Discovery.ParseCalendarList` | crates/pimsteward/src/icloud/discovery.rs:262-405 | The event loop computes the run of the stack machine |
| `Discovery.ParseFirstHrefInside` | crates/pimsteward/src/icloud/discovery.rs:214-253 | The event loop computes the run of the href machine |
| `DiscoveryTree.AbsorbConcat` | crates/pimsteward/src/icloud/discovery.rs:322-364 | Absorbing elements in two goes equals absorbing them at once: first-wins href and name, last-wins ctag and colour, all components |
| `DiscoveryTree.StreamingComputesQuery` | crates/pimsteward/src/icloud/discovery.rs:262-405 | On the events of any tree the machine returns what the recursive query over the tree returns, nested responses included |
| `DiscoveryTree.FirstHrefInside` | crates/pimsteward/src/icloud/discovery.rs:214-253 | On the events of any tree the result is the first non-blank href, in closing order, below the parent |
| `DiscoveryNames.LocalNames` | crates/pimsteward/src/icloud/discovery.rs:181-187 | An element name is read as what follows its last colon, in lower case |
| `DiscoveryNames.CalendarsIgnorePrefixes` | crates/pimsteward/src/icloud/discovery.rs:262-405 | Putting any namespace prefix before the name of each element and attribute changes nothing in what the calendar machine does |
| `DiscoveryNames.HrefIgnoresPrefixes` | crates/pimsteward/src/icloud/discovery.rs:214-253 | The same of the href machine |
| `DiscoveryNames.OneCollection` | crates/pimsteward/src/icloud/discovery.rs:262-405 | A document of one collection, with any texts, gives exactly one calendar, each part in its place, if and only if the collection is a calendar, has an address and holds events, in any case; an address that does not resolve is an error |
| `DiscoveryNames.AddressInside` | crates/pimsteward/src/icloud/discovery.rs:214-253 | Of the addresses before, inside and after an element the one inside is found |
| `DiscoveryNames.OutOfPlace` | crates/pimsteward/src/icloud/discovery.rs:322-364 | An address of a principal or home set, a calendar mark outside the resource type and a component outside the component set are ignored; the first address and name stay |
| `DiscoveryNames.PiecesRead` | crates/pimsteward/src/icloud/discovery.rs:320-324 | A text that comes in pieces is put together, pieces that do not decode left out |
| `DiscoveryNames.AttrFound` | crates/pimsteward/src/icloud/discovery.rs:409-423 | An attribute is found by its local name in any case, the first whose value can be read |
| `Like.PrefixPattern` | crates/pimsteward/src/index/search.rs:291-297 | A plain text and a percent sign match the strings that begin with it, up to ASCII case |
| `Like.ContainsPattern` | crates/pimsteward/src/index/search.rs:376-394 | A plain needle between percent signs matches exactly the strings that contain it, up to ASCII case |
| `Like.DescendantPattern` | crates/pimsteward/src/index/search.rs:291-297 | A plain folder with slash and percent sign matches exactly its strict descendants, up to ASCII case |
| `Like.SiblingUntouched` | crates/pimsteward/src/index/mod.rs:116-124 | A folder that merely begins with the name is neither the folder nor a match |
| `Like.ContainsExactly` | crates/pimsteward/src/index/search.rs:376-394 | The pattern with percent signs around a text means containment, for every string, if and only if the text has no wildcard |
| `Like.UnderExactly` | crates/pimsteward/src/index/search.rs:291-297 | Equality or the slash-percent pattern means "the folder or a strict descendant", for every folder, if and only if the name has no wildcard |
| `Like.OtherFolder` | crates/pimsteward/src/index/mod.rs:116-124 | For every name with a wildcard: a folder that is neither it nor below it and is matched |
| `Like.SpelledExactly` | crates/pimsteward/src/index/search.rs:291-297 | The pattern asks only for folders spelled exactly like the name if and only if the name has neither a wildcard nor an ASCII letter |
| `Like.WildcardFolder` | crates/pimsteward/src/index/mod.rs:116-124 | One such name, with an underscore, and one such folder |
| `Search.InClause` | crates/pimsteward/src/index/search.rs:396-422 | The two in-clause helpers number their placeholders after the arguments so far, one per flag, and add the flags in order |
| `Search.BuildWhere` | crates/pimsteward/src/index/search.rs:234-374 | The compiler pushes clauses and arguments as the sequence of parts of the query prescribes |
| `SearchProofs.PlaceholdersExact` | crates/pimsteward/src/index/search.rs:190-206 | The placeholders in the text, left to right, are 1 to the number of arguments, each once, and LIMIT and OFFSET take the next two |
| `SearchProofs.EvalFrame` | crates/pimsteward/src/index/search.rs:234-374 | Arguments pushed later do not change the truth value of an earlier clause |
| `SearchProofs.PushesExtend` | crates/pimsteward/src/index/search.rs:234-374 | Later pushes leave earlier clauses and arguments in place |
| `SearchProofs.PartMeaning` | crates/pimsteward/src/index/search.rs:238-355 | Each pushed clause is true of a row, in three-valued logic, exactly when its filter holds |
| `SearchProofs.CompilerPreservesMeaning` | crates/pimsteward/src/index/search.rs:234-374 | For every query and row, NULL columns included, the WHERE clause over its arguments is true exactly when all the independent filters hold |
| `SearchProofs.NeedleMeaning` | crates/pimsteward/src/index/search.rs:376-382 | Any needle whose lowered text has no wildcard asks for a column that contains the lowered text up to ASCII case, and never for a NULL column |
| `SearchProofs.AsciiNeedle` | crates/pimsteward/src/index/search.rs:376-382 | In particular an ASCII needle without wildcards asks for a column that contains it up to ASCII case |
| `SearchProofs.FindsItselfIff` | crates/pimsteward/src/index/search.rs:376-382 | A text is found by itself if lowering it changes no more than the case of ASCII letters, and, when the lowered text has no wildcard and is not shorter, only if |
| `SearchProofs.NonAsciiNeedleMisses` | crates/pimsteward/src/index/search.rs:376-382 | A capital outside ASCII does not find a column with that very text; its small letter does |
| `SearchProofs.PrefixMeaning` | crates/pimsteward/src/index/search.rs:291-297 | A prefix filter selects the folder and its strict descendants if and only if its name has no wildcard |
| `SearchProofs.FolderSpecMeaning` | crates/pimsteward/src/index/search.rs:73-83 | A folder spec, trimmed, selects everything, or a folder with its descendants (if and only if its name has no wildcard), or one folder alone |
| `Paging.StrictTotalOrder` | crates/pimsteward/src/index/search.rs:424-428 | Either date order is irreflexive, transitive and total on distinct ids |
| `Order.BeforeMeaning` | crates/pimsteward/src/index/search.rs:424-428 | Ids are compared by their first difference, a proper prefix first |
| `Paging.ListingUnique` | crates/pimsteward/src/index/search.rs:424-428 | A set of rows can be listed in such an order in one way only |
| `Paging.RunSearch` | crates/pimsteward/src/index/search.rs:154-224 | The search answers by the meaning of the query: the count of matching rows and the slice of their ordered listing, or the error of a relevance sort without a query |
| `Paging.PageSize` | crates/pimsteward/src/index/search.rs:162-166 | Without a limit 25 hits are returned, never more than 200, at least 1 where there is one, and no more than there are from the offset on |
| `Paging.HitsInOrder` | crates/pimsteward/src/index/search.rs:424-428 | Hits come newest first, a missing date last, ties by id; oldest first, a missing date before all, when asked for |
| `Paging.OtherSearches` | crates/pimsteward/src/index/search.rs:154-206 | A search fails only when it asks for relevance without a query; a count returns the number alone; relevance is the ranking of the matching rows |
| `Paging.ListingByDate` | crates/pimsteward/src/index/search.rs:194-216 | The listing holds exactly the matching rows, in order, independently of how the table stores them |
| `Paging.PagesPartition` | crates/pimsteward/src/index/search.rs:162-223 | Successive pages concatenate to the listing up to the number of rows asked for |
| `Paging.OnePage` | crates/pimsteward/src/index/search.rs:162-223 | Every page is its slice of the one listing and reports the same total |
| `Paging.AllPages` | crates/pimsteward/src/index/search.rs:162-223 | Enough pages give exactly the matching rows, in order, each once |
| `Index.SidecarAlwaysAgrees` | crates/pimsteward/src/index/mod.rs:311-333 | After any run of statements and after a crash anywhere in it the posting multiset is the sum of the rows' tokens |
| `Index.LookupIsScan` | crates/pimsteward/src/index/mod.rs:311-333 | A token lookup through the sidecar equals a scan of all rows |
| `Index.FolderRowsExact` | crates/pimsteward/src/index/mod.rs:116-124 | Deleting a folder takes, from every table, exactly its rows and those of its strict descendants if and only if the folder name has no wildcard |
| `Index.SearchIndex.constructor` | crates/pimsteward/src/index/mod.rs:278-338 | A new index is empty and in step |
| `Index.SearchIndex.UpsertMessage` | crates/pimsteward/src/index/mod.rs:178-225 | An upsert inserts or updates the row, keeps the rowid on conflict, and leaves table and sidecar as the step function says |
| `Index.SearchIndex.DeleteMessage` | crates/pimsteward/src/index/mod.rs:103-110 | Deletes that row and no other and returns whether it was there |
| `Index.SearchIndex.DeleteFolder` | crates/pimsteward/src/index/mod.rs:116-124 | Deletes the rows of the folder and its descendants and returns their number |
| `Disk.FoldersSorted` | crates/pimsteward/src/index/rebuild.rs:504-524 | The folders are walked in the order of their names |
| `Rebuild.WriteRow` | crates/pimsteward/src/index/rebuild.rs:317-345 | BEGIN before the first row of a transaction, the upsert, COMMIT when the batch is full |
| `Rebuild.RebuildOneFolder` | crates/pimsteward/src/index/rebuild.rs:193-359 | The loop over a folder runs the statements of the walk and counts as the walk counts |
| `Rebuild.RebuildFromDisk` | crates/pimsteward/src/index/rebuild.rs:134-191 | A rebuild runs exactly the statements of the specification, ends in the state they lead to and returns its counters |
| `RebuildProofs.FilesAccountedFor` | crates/pimsteward/src/index/rebuild.rs:214-359 | Each counter counts its outcome over all files; scanned plus unreadable folders and entries equals upserted plus skipped plus errors |
| `RebuildProofs.RebuildLeaves` | crates/pimsteward/src/index/rebuild.rs:134-191 | From any state and for any tree: a row for an id on disk is the last one stored or, unless forced, the row it had; every other row is gone |
| `IndexedRows.LoadSays` | crates/pimsteward/src/index/rebuild.rs:241-313 | A file loads exactly when its size can be read and is within the cap, its sidecar reads, its bytes can be read and parse; the row has the folder of the sidecar, else the directory, its flags, source id and size, and the rest from the bytes |
| `IndexedRows.FilesWalked` | crates/pimsteward/src/index/rebuild.rs:504-524 | The files walked are exactly those of listable directories whose names start with neither underscore nor dot |
| `IndexedRows.OnlyFileRow` | crates/pimsteward/src/index/rebuild.rs:214-345 | The row of an id that one file has, after any rebuild: what it was when the file is no newer and nothing is forced; else what the file says, when it can be indexed; else what it was, or none when forced |
| `IndexedRows.LastFileRow` | crates/pimsteward/src/index/rebuild.rs:148-177 | Of several files of one id the last walked decides, when it can be indexed and is not left alone |
| `IndexedRows.NoneIndexed` | crates/pimsteward/src/index/rebuild.rs:241-313 | An id whose files are all over the cap, without a sidecar or otherwise not to be indexed has no row after a forced rebuild |
| `RebuildScript.RebuildStatements` | crates/pimsteward/src/index/rebuild.rs:317-358 | Every upsert runs inside a transaction, none is open at the end, and the n-th upsert carries the n-th reading of the clock |
| `RebuildProofs.ForcedIsFunctionOfDisk` | crates/pimsteward/src/index/rebuild.rs:148-177 | After a forced rebuild each id's row is the one from the last folder where it loads |
| `RebuildProofs.ForcedRebuildsAgree` | crates/pimsteward/src/index/rebuild.rs:148-177 | Two forced rebuilds over the same folders agree whatever the old tables, listing orders, batches and clocks |
| `RebuildProofs.UnreadableFolderSwept` | crates/pimsteward/src/index/rebuild.rs:201-208 | An id in no folder that can be listed has no row after a rebuild, whatever it had; an id in such a folder keeps a row unless forced |
| `RebuildProofs.UnreadableFoldersAreSwept` | crates/pimsteward/src/index/rebuild.rs:201-208 | A rebuild that can list no folder empties the index |
| `CrashProofs.CrashFallsBack` | crates/pimsteward/src/index/rebuild.rs:316-358 | A crash leaves the state of the last durable statement |
| `CrashProofs.CrashLosesOneBatch` | crates/pimsteward/src/index/rebuild.rs:316-358 | A crash anywhere in a rebuild loses at most one batch of upserts (one row when the batch size is 0) |
| `CrashProofs.RebuildReachesDisk` | crates/pimsteward/src/index/rebuild.rs:134-191 | When files load, the tree is steady and rows are up to date, a completed rebuild, forced or not, leaves exactly the rows the last files of the ids load to |
| `CrashProofs.CrashResume` | crates/pimsteward/src/index/rebuild.rs:134-391 | However many rebuilds of a steady tree, forced or not, die at whatever statements, one completed rebuild, forced or not, leaves the rows an uninterrupted one leaves |
| `CrashProofs.SteadyIsAgree` | crates/pimsteward/src/index/rebuild.rs:214-275 | Where modification times can be read, a tree is steady exactly when any two files of one id load to the same row |
| `CrashProofs.ResumeFails` | crates/pimsteward/src/index/rebuild.rs:134-391 | For every tree that is not steady: a rebuild of an empty index, dead at the end of some folder and resumed, leaves another table than a whole one |
| `CrashProofs.ResumesExactly` | crates/pimsteward/src/index/rebuild.rs:134-391 | When files load, resuming always gives the table of an uninterrupted rebuild if and only if the tree is steady |
| `CrashProofs.TwoFoldersCrash` | crates/pimsteward/src/index/rebuild.rs:214-240 | Two files of one id in two folders load to different rows, and a crash between the folders makes the next incremental rebuild keep the wrong one |
| `VerifyIndex.Verify` | crates/pimsteward/src/index/rebuild.rs:433-500 | The report lists exactly the rows without a file and the files without a row; a cleaning run runs exactly the prescribed statements; an unlistable folder is an error that changes nothing |
| `VerifyIndex.KeysAfterClean` | crates/pimsteward/src/index/rebuild.rs:474-493 | After a cleaning run the ids are those on disk that had a row or of which some file can be indexed within the default cap of 50 MiB |
| `VerifyIndex.VerifyRepairs` | crates/pimsteward/src/index/rebuild.rs:433-500 | A following report has no orphan, and as unindexed exactly the ids without a row of which no file can be indexed |
| `VerifyIndex.CleanWhenAllLoad` | crates/pimsteward/src/index/rebuild.rs:433-500 | When every file loads the table has exactly the ids on disk |
| `VerifyIndex.ReportMeans` | crates/pimsteward/src/index/rebuild.rs:433-472 | Against the tree itself: an orphan is a row whose id no file of a mail folder has, an unindexed file one whose id has no row, and the folder told for it holds it |
| `VerifyIndex.LastFolderTold` | crates/pimsteward/src/index/rebuild.rs:449-451 | Of several folders with one id the last walked is told |
| `VerifyIndex.CleaningLosesOneBatch` | crates/pimsteward/src/index/rebuild.rs:489-491 | A crash in the rebuild of a cleaning run loses at most 200 rows |
| `Tree.ReadMetasRender` | crates/pimsteward/src/pull/calendar.rs:160-180 | Reading the metas of a well-formed directory, in any listing order, gives the meta of each event key |
| `Tree.StemMeaning` | crates/pimsteward/src/pull/calendar.rs:174-174 | A key is the file name with every .meta.json at its end taken off |
| `PulledFiles.FilenameSafeExactly` | crates/pimsteward/src/pull/mod.rs:45-54 | Sanitising keeps the length, puts an underscore in the place of slash, backslash, NUL, line feed and carriage return, and changes nothing else; so it keeps exactly the names without these five |
| `Pull.StoreEvent` | crates/pimsteward/src/pull/calendar.rs:74-109 | One event is compared by etag or hash, written as two files if changed, and counted |
| `Pull.RemoveStale` | crates/pimsteward/src/pull/calendar.rs:111-125 | Both files of every stale key go, in any order, and are counted |
| `Pull.RunPull` | crates/pimsteward/src/pull/calendar.rs:37-143 | The pull leaves the tree and the counts of the specification, or fails at a meta file that does not parse |
| `PullProofs.PullOneMirrors` | crates/pimsteward/src/pull/calendar.rs:60-126 | One calendar mirrors the remote afterwards; added, updated and deleted count the new, changed and vanished keys; the number of events is the number before plus added less deleted |
| `PullProofs.PullLeaves` | crates/pimsteward/src/pull/calendar.rs:37-143 | Calendars listed any number of times: the tree holds exactly the listed directories, each with its manifest and what the last listing of its calendar found |
| `PullProofs.PullMirrorsExactly` | crates/pimsteward/src/pull/calendar.rs:37-143 | From any readable tree a pull mirrors the remote if and only if every two listed entries with one directory are the same calendar and it has no remote events |
| `PullProofs.PullMirrors` | crates/pimsteward/src/pull/calendar.rs:37-143 | For distinct directories the tree holds exactly the listed calendars, each with its manifest and the events of the remote; each directory stands for its entry of the state whose events are counted, and the counts balance over them |
| `PullProofs.SecondPullIsNoop` | crates/pimsteward/src/pull/calendar.rs:37-143 | A second pull of the same remote counts 0/0/0 and leaves the tree as it is |
| `PullProofs.MirroredIcsFiles` | crates/pimsteward/src/pull/calendar.rs:95-97 | In a mirrored directory the .ics files are exactly the remote events, under their keys, with their bodies |
| `PulledFiles.PulledEvent` | crates/pimsteward/src/pull/calendar.rs:74-109 | After a pull a remote event of a listed calendar is the file of its uid, else id, with its body, beside a sidecar that is kept when current by etag or hash and otherwise holds the id, uid, calendar, etag, time and hash of the event |
| `PullProofs.ListedTwice` | crates/pimsteward/src/pull/calendar.rs:60-64 | In a readable tree, with no two different calendars in one directory, a calendar listed twice loses all its files, whatever the remote holds |
| `PullProofs.CollidingIds` | crates/pimsteward/src/pull/calendar.rs:44-64 | Two different listed calendars with one directory name are never mirrored, whatever the list, the tree and the remote hold |
| `PullProofs.SlashCollides` | crates/pimsteward/src/pull/calendar.rs:44-64 | Such as two ids that differ in a slash and an underscore |
| `Paths.EventPathRoundTrip` | crates/pimsteward/src/restore/bulk.rs:280-286 | An event path is extracted back if and only if the calendar id has no slash |
| `Paths.ExtractInjective` | crates/pimsteward/src/restore/bulk.rs:280-286 | Different paths name different events |
| `Paths.ContactRoundTrip` | crates/pimsteward/src/restore/bulk.rs:265-269 | A contact path is extracted back to its uid |
| `Paths.SieveRoundTrip` | crates/pimsteward/src/restore/bulk.rs:272-276 | A sieve path is extracted back to its name |
| `Paths.KindsDisjoint` | crates/pimsteward/src/restore/bulk.rs:97-131 | No path is of two kinds |
| `Paths.PathsSpelled` | crates/pimsteward/src/restore/bulk.rs:265-286 | The three kinds of path spelled out: a path names a contact, a script or an event exactly when it reads so |
| `Restore.ApplyCalendar` | crates/pimsteward/src/restore/calendar.rs:107-154 | A wrong token changes nothing; otherwise the write and the re-pull, or nothing at all for a NoOp |
| `Restore.PlanBulk` | crates/pimsteward/src/restore/bulk.rs:71-147 | One plan per event path, contacts and scripts set aside; a prefix with dots, an unlistable tree or an unreadable blob is an error |
| `RestoreProofs.PlanFailsExactly` | crates/pimsteward/src/restore/bulk.rs:71-147 | Planning fails exactly when the prefix has two dots, the tree of the commit cannot be listed, or an event path in it has two dots or no blob at that commit |
| `RestoreProofs.CollectedPaths` | crates/pimsteward/src/restore/bulk.rs:97-117 | The contacts and scripts collected are exactly those of the listed paths, in order |
| `Restore.ApplyBulk` | crates/pimsteward/src/restore/bulk.rs:149-226 | Behind the bulk token each sub-plan is applied in turn; failures are collected and do not stop the rest |
| `RestoreProofs.EveryPlanTried` | crates/pimsteward/src/restore/bulk.rs:201-225 | Successes and errors add up to the number of sub-plans, also after a failure |
| `RestoreProofs.ProperPull` | crates/pimsteward/src/pull/calendar.rs:37-143 | A store with safe unique uids and truthful etags and hashes can be pulled into a consistent tree, which then mirrors it |
| `RestoreProofs.ApplyRestores` | crates/pimsteward/src/restore/calendar.rs:107-154 | A sub-plan fails exactly when its write is refused, and then changes nothing; otherwise its event has the historical body, every other event is kept, and the tree is re-pulled to mirror the store |
| `RestoreProofs.AllRestore` | crates/pimsteward/src/restore/bulk.rs:201-225 | The sub-plans restore every event whose write is accepted and touch nothing else; the errors are exactly the refusals, in order |
| `RestoreProofs.BulkRestoreExactly` | crates/pimsteward/src/restore/bulk.rs:71-226 | After a bulk restore, whatever the server refuses and whichever calendars it still lists: accepted events have their historical bodies, all others are as they were, the errors are the refusals, planning again gives NoOps for what was accepted and the same operations for the rest, and the re-pulled tree has the historical file of an accepted event exactly when its calendar is listed |
| `RestoreProofs.BulkRestoreReachesPast` | crates/pimsteward/src/restore/bulk.rs:71-226 | After a bulk restore without errors, planning again gives NoOps only, events not named are untouched, and the re-pulled files of listed calendars equal the historical blobs |
| `RestoreProofs.RestoredFromCommit` | crates/pimsteward/src/restore/mod.rs:37-56 | After it the live event and the re-pulled file have the very blob of that commit at that path |
| `RestoreProofs.SanitisedIdMissed` | crates/pimsteward/src/restore/bulk.rs:280-286 | A live event that still has the historical body: the plan made from its backup path is a NoOp if and only if sanitising kept the calendar id; otherwise it recreates the event |

## Left out

- Network and TLS, HTTP listeners, tasks and timers, the permission matrix, provider selection, configuration: no property of their own.
- The XML tokenizer, the JSON and MIME parsers, git as a process, SHA-256, chrono and SQLite's storage: parameters or maps here.
- Failing SQL statements (BEGIN, COMMIT, an upsert refused by SQLite) and failing writes to the working tree: every such call succeeds here.
- Paging under a relevance sort: bm25 ties are not broken, so only the date sorts are shown to partition; the relevance order is a parameter.
- Result rows of a search are the table rows: address splitting and previews are not modelled.
- FTS MATCH syntax: `Search` takes it as a predicate on text and row; `Index.LookupIsScan` is about one token.
- `keep_for_feed` and `build_feed`: one-branch trimming by date before the merge.
- `cn_of`: display names of addresses; only the addresses are read back.
- The 4-byte integer width of limits, offsets and sequence numbers: nothing is computed with them that could wrap.
- `start.len()` counts bytes in the source and characters here; the two differ only for a date outside ASCII, which parses in neither form.
- Local names of XML elements are lowered in ASCII only.
- UTF-8 replacement of bytes that are not text, in the quoted-printable preview and in historical blobs: decoding is stated on bytes, blobs are text.
- Contacts and sieve sub-plans of a bulk restore: their paths are recognised and collected, their plans and application are not part of this model.
- Plan tokens: a function of the plan; that different plans have different tokens is left to SHA-256.
- Commits and audit messages after a pull or a restore.
- Entries of `calendars/` that are no directories, and directories whose name is no text.
- Rebuild.RebuildFromDisk: `elapsed_ms` and the log lines are not modelled.
