# quackiso, modelled and proved in Dafny

quackiso reads ISO 20022 and SWIFT MT payment files into rows. This project models the parts of it
where a mistake would be silent: a sum over rows that lost one, a payment file with a changed
character, a statement booked under another statement's account. Properties are stated over all
inputs, all documents, all interleavings or all reachable states. The exceptions are about documents
of one shape, and their rows say so: `StatementGrains.GrainsAgree` (no container in an entry or
balance), `CancellationInheritance.InheritsFromAround` (blocks and transactions in an `Undrlyg`),
`AddressFacts.LinesAreTheirTexts` (no address line in another), what `AddressMessages` says of the
inside of a message (no Document in it), and what is said of a file cut short (one root element).

`dafny verify dfyconfig.toml` checks everything.

## How it is put together

| files | what they model |
|---|---|
| `Xml`, `TreeMachine` | XML as events and as a document, subtree cutting, and the skeleton the XML readers share: a step machine over events that equals a recursion over the document |
| `StatementWalk`, `StatementTables`, `StatementTree`, `StatementMessages`, `StatementContext`, `StatementGrains`, `StatementReader` | the camt.052/.053/.054 statement walk at its three grains, with the message columns of every row, and the names and paths it knows |
| `ParallelScan`, `ParallelAnswers`, `SequentialScan` | the worker protocol over files, channel and consumer, what the consumer is answered over a run, and the sequential scan it has to agree with |
| `Bytes`, `Decoding`, `Utf16`, `ByteInput`, `Declaration` | the byte pipeline: peeked magic, replayed prefix, chunked decoding through two buffers; the declared encoding |
| `Entries`, `EntryCursors`, `EntryRows`, `EntryStreams` | one entry, the constant-space cursors over it, the counts that have to agree with them, and the readers that compose both |
| `Tar`, `Envelope`, `OpenPgp`, `Ebics`, `EbicsAttributes`, `Containers` | the container checks over an arbitrary prefix |
| `Decimal` | exact amounts in 128 bits |
| `AddressWalk`, `AddressTables`, `AddressRows`, `AddressFacts`, `AddressMessages`, `AddressFiles`, `AddressFamilies`, `AddressBoundaries`, `AddressNumbers`, `AddressFormat`, `AddressReader`, `MtAddresses` | the address audit over XML and MT: parties, messages, families and record numbers of a whole file, and the names it knows |
| `Cancellation`, `CancellationScopes`, `CancellationLeaves`, `CancellationInheritance`, `CancellationReasons`, `CancellationReader` | the camt.055 reader: its rows over a whole file, which path is which column, what the rows inherit, and whose reason they show |

The objects the program updates in place are classes here (`StatementRecordStream`, `AddressStream`,
`CclStream`, `ScanState`, `Transcoder`, `Input`, the cursors, `Der`). Each of their methods is proved
against a function of the old state, and the theorems are about those functions. Where a loop body of
the program is long, the model puts a part of it into a method of its own, as `Transcoder.StagePiece`
does for one decoder call or `AmountCursor.NextBlock` for one transaction's blocks; the order of the
steps stays the program's.

An XML document is a well-nested forest; names are local names, text is trimmed and never empty, and
the family a namespace binding names comes with the element that declares it. The tables that name
message families are parameters of the walks, and what is proved holds for every table; the tables of
record elements, roles, address elements and field paths are the program's own, and each is tied to
the names and paths it stands for, in both directions (`StatementContext.SlotsExactly`,
`StatementTables`, `AddressTables`, `CancellationLeaves`). Clocks, files and the
network are parameters: reading a file may take any number of bytes and may fail at any read, which
the file counts (`failures` of `ByteInput.File`), a stream may end, fail or panic behind any row, and the consumer may stop at any time.

## Where the code and its documentation disagree

The model follows the code.

* `src/camt.rs:410-441` opens a message at an element inside a statement where none is open, and with
  it forgets the group header. In a file without a message around its statements, which is read on
  purpose (`src/camt.rs:449-455`), entries of one statement can carry different message columns:
  `StatementMessages.SplitStatementLosesItsMessage` is such a file, and
  `StatementMessages.StatementKeepsItsColumns` and `RecordsKeepTheirColumns` say exactly when a
  statement keeps its columns.
* `src/encoding.rs:131-133` says a read after a malformed sequence says so again. When text precedes
  the bad bytes in the same decoding step, the step fails first, that text stays staged, and the next
  read hands it out; only the read after it fails again. A failed decoder fails exactly when nothing
  is staged (`ByteInput.Transcoder.Read`); `Utf16.ReadsBehindAnError` is an input. Nothing is lost or
  repeated, and the end of the text is never reported.
* `src/addresses.rs:285-289` says identity belongs to one message, not to the file. The binding of the
  last Document and the definition of the first header are never cleared, so a message can be given
  another one's family: `AddressFamilies.ReportUnderTheTransfersFamily` is a file, and
  `AddressFamilies.FamilyIsItsOwn` says when a message's family is its own. The end of a message clears
  neither id nor family, so a party behind it and in no message carries both:
  `AddressBoundaries.LoosePartyHasTheReportsId` is a file, and `AddressBoundaries.PartyBehindAStart`
  says exactly what such a party carries and when it carries nothing. A Document inside a message ends
  it (`AddressBoundaries.NestedDocumentEndsTheMessage`); a container inside one does not.
* `src/addresses.rs:390-393` takes the record element at hand away as soon as a record nested in it
  closes, and a Document inside a record takes it away too, so parties behind have no record index.
  `AddressNumbers.FileIsNumbered` says exactly when all parties of a file carry their record's number;
  `AddressNumbers.NestedRecordLosesTheOuter` is a file.
* `structured_elements` is described as counting populated elements (`src/addresses.rs:478-483`). It
  counts text events, and a comment or a CDATA section splits the text of one element into several
  (an entity does not). `AddressFacts.SplitTownCountsTwice` is a file, and
  `AddressFacts.StructuredIsPopulated` says exactly when the column is the number of populated
  elements.
* `src/camt055.rs:322-325` starts the group context over at each `Undrlyg` and not at its end, so a
  `TxInf` behind an `Undrlyg` and in none goes on from the last one
  (`CancellationInheritance.TransactionBehindAnUndrlyg`, with the condition under which it inherits
  nothing). Inside `Undrlyg` nothing crosses (`CancellationInheritance.InheritsFromAround`).
* `src/camt055.rs:156-157` speaks of whole blocks. A group and a payment group keep the first code,
  every text and the last originator of all their reason blocks, and a transaction the first code,
  every text and the first originator of its own, so a row's three columns need not be any one
  block's: `CancellationReasons.TwoBlocksMix` is a file, and
  `CancellationReasons.RowReasonIsOneBlocks` says exactly when they are. A level's columns do come
  whole: no row shows one level's code beside another's text.

## Model

| member | source | states |
|---|---|---|
| `Xml.SubtreeOfElement` | src/wire.rs:105-204 | Counting one tag name, and nothing else, consumes exactly to the matching End, however the tag nests in itself |
| `Xml.SubtreeExtends` | src/wire.rs:105-204 | More input never moves the End a shorter input already showed |
| `TreeMachine.StepOn` | src/camt.rs:267-276 | Every step consumes input, whichever action it takes |
| `TreeMachine.DrainIsRepeatedNext` | src/camt.rs:267-390 | Draining is calling the reader until it stops |
| `TreeMachine.DrainIsWalk` | src/camt.rs:267-390 | From any state, over any document and whatever follows it, the event loop is the recursion over the document |
| `TreeMachine.CutInputGivesFirstRows` | src/wire.rs:848-862 | Input that stops early, at any event, has handed out an initial piece of the rows of the whole |
| `TreeMachine.CutDocumentIsRefused` | src/wire.rs:831-862 | A document cut anywhere inside its root element, whatever comments, declarations and white space stand around the root, ends in the truncation error, never as a finished scan |
| `StatementTree.DrainIsDocument` | src/camt.rs:267-397 | At each of the three grains the rows but for their message columns are exactly the direct records of the outermost containers outside skipped elements, with file-wide statement numbers and per-statement record numbers, and the wrong-file error comes exactly when no container opens |
| `StatementContext.FieldMeaning` | src/camt.rs:498-577 | A statement field is its latest overwriting text in the statement, else its first filling text, else NULL |
| `StatementContext.SlotsExactly` | src/camt.rs:498-577 | A text reaches a field, and overwrites or only fills it, if and only if it stands at that field's own path below the statement, at the servicer's second spelling, or, filling, at the in-house account number |
| `StatementContext.SlotsAreOwned` | src/camt.rs:498-577 | No path but a field's own reaches it |
| `StatementContext.OwnPathsHaveSlots` | src/camt.rs:498-577 | Every field has its path |
| `StatementContext.MessageSlotsExactly` | src/camt.rs:562-577 | A text outside the statements reaches a message column if and only if its path ends in that column's own |
| `StatementTables.NamesOfRecords` | src/camt.rs:166-199 | The three containers (lines 55 to 64), and of their children the records each grain hands out, counts and passes over, at a record's place and elsewhere |
| `StatementTables.IdentifiersExactly` | src/sniff.rs:273-295 | A text is a message-definition identifier if and only if it is four letters, three digits, three digits and two digits with dots between, and nothing else |
| `StatementTables.FamiliesExactly` | src/camt.rs:74-83 | An element announces a family if and only if it is the family's container element, in any version, or is itself an identifier of the family |
| `StatementTables.DefinitionsExactly` | src/sniff.rs:347-357 | A header names a message if and only if its text is an identifier of another business area than the header's own |
| `StatementTables.BindingsExactly` | src/camt.rs:70-72 | Of the bound families the three of the statements count and no other |
| `StatementContext.CutStatementFileIsRefused` | src/camt.rs:267-276 | A statement file cut inside its root is refused at every grain, after an initial piece of its rows |
| `StatementContext.NothingBeforeTheHeaderIsKept` | src/camt.rs:399-497 | Two walks that differ only in what earlier headers and messages stated are the same from the next group header, self-closing or not, or message on |
| `StatementContext.MessageIsForgottenAtItsClose` | src/camt.rs:367-380 | The message columns are NULL again once the message's element has closed, whatever it held |
| `StatementMessages.DrainIsWholeDocument` | src/camt.rs:267-577 | Every column of every row of every well-nested document, the message columns included, and the ending, by recursion on the document |
| `StatementMessages.ColumnMeaning` | src/camt.rs:555-577 | A message column is the latest text at its leaf since its header or its message started, else NULL |
| `StatementMessages.RecordsKeepTheirColumns` | src/camt.rs:399-474 | All records of a statement carry the message columns it opened with if and only if those are empty, or a message is open around it, or no message opens in it ahead of a record |
| `StatementMessages.StatementKeepsItsColumns` | src/camt.rs:399-474 | A whole statement keeps the columns it opened with, in its rows and behind it, if and only if those are empty, or a message is open around it, or nothing in it that is walked into opens one; at the statement grain its row alone decides |
| `StatementMessages.RowsCarryTheirHeader` | src/camt.rs:399-408 | Behind a group header, self-closing or not, in a message or in none, every row of every statement up to the next header or message carries that header's texts and no other's, whatever white space and text lies between |
| `StatementMessages.SplitStatementLosesItsMessage` | src/camt.rs:412-441 | A whole file without a message in which two entries of one statement carry different message ids |
| `StatementGrains.ContentIsNumbered` | src/camt.rs:306-373 | Records are numbered one by one in their statement, self-closing ones where the grain counts them |
| `StatementGrains.ContentIsCounted` | src/camt.rs:296-305 | The close row counts an entry exactly where the entry grain hands one out and a balance exactly where the balance grain does |
| `StatementGrains.GrainsAgree` | src/camt.rs:166-199 | With no container inside an entry or balance, the three grains give one container the same statement number, and the close row's counts are the records 1, 2, 3, … the other grains hand out for it, on the rows as the readers hand them out |
| `StatementReader.StatementRecordStream.SkipSubtree` | src/wire.rs:183-204 | The depth-counting loop leaves the input behind the matching End, or fails where there is none |
| `StatementReader.StatementRecordStream.RecordSubtree` | src/wire.rs:105-178 | The copying loop returns the subtree's own events and leaves the input behind them |
| `StatementReader.StatementRecordStream.Open` | src/camt.rs:412-479 | The assignments of an opening element are the machine's |
| `StatementReader.StatementRecordStream.Capture` | src/camt.rs:498-577 | The assignments of a text are the machine's |
| `StatementReader.StatementRecordStream.NextRecord` | src/camt.rs:267-390 | The loop over fields hands out the machine's next row with its context, or its ending, and leaves its state |
| `ParallelScan.RunInv` | src/lib.rs:1045-1121 | In every reachable state, whatever streams fail or panic and whoever stops listening: each file is unclaimed, in one worker's hands, delivered, broken or abandoned, and what was sent of it and what its worker holds are what was read of it |
| `ParallelScan.ClaimedOnce` | src/lib.rs:1056-1062 | No file is in two workers' hands |
| `ParallelScan.LogInFileOrder` | src/lib.rs:1030-1044 | At any moment what was received of a file is an initial piece of its rows in file order |
| `ParallelScan.EmptyIsTheEnd` | src/lib.rs:1142-1150 | The consumer gets an empty vector exactly when every worker is gone and the channel is empty, and never a batch over 2048 rows |
| `ParallelScan.LogIsComplete` | src/lib.rs:1045-1122 | A scan that ends with no error among the messages received has received every row of every file, each file's in order, and nothing else |
| `ParallelScan.NoFalseAlarm` | src/lib.rs:1066-1120 | Where every file can be read no error is received |
| `ParallelScan.LogQuietExactlyWhenReadable` | src/lib.rs:1045-1122 | With a consumer that listens to the end, no error is among the messages received if and only if every file can be read, in every maximal interleaving |
| `ParallelScan.Bounded` | src/lib.rs:1036-1122 | In every reachable state the channel holds at most 2·threads messages, every batch at most 2048 rows and at least one once sent, and at most 3·threads + 1 batches are alive, the bound src/membound.rs:99 holds the heap to |
| `ParallelScan.AliveUntilReleased` | src/lib.rs:1142-1150 | A message received stays alive with the consumer until it is released, and one at a time |
| `ParallelScan.WaitsExactlyWhenFull` | src/lib.rs:1053-1054 | In every reachable state a worker with something to send waits exactly where 2·threads messages are in the channel, and no other worker waits |
| `ParallelScan.NotStuck` | src/lib.rs:1056-1120 | From every reachable state with a worker left some step is enabled; once the receiver is gone, a worker's |
| `ParallelScan.ActDecreases` | src/lib.rs:1056-1120 | Every step strictly decreases unclaimed files, unread rows, and batches to send, receive and release |
| `ParallelScan.RunsAreBounded` | src/lib.rs:1056-1120 | No interleaving takes more steps than the measure allows |
| `ParallelScan.MaximalRunsFinish` | src/lib.rs:1045-1121 | A run that only the drop of the receiver could continue is one where all workers have exited, after a bounded number of steps |
| `ParallelAnswers.AnswersAreMessages` | src/lib.rs:1142-1150 | Over any run, the consumer's calls have answered the messages received, one each, in order and whole: a batch with all its rows, an error with that error |
| `ParallelAnswers.AnsweredInFileOrder` | src/lib.rs:1030-1044 | What the consumer has been given of a file is at any moment an initial piece of its rows in file order |
| `ParallelAnswers.NoSilentLoss` | src/lib.rs:1045-1151 | A complete run in which no call answered an error has handed out every row of every file, each file's in order, and nothing else: the rows answered are a permutation of the files' rows |
| `ParallelAnswers.EndsQuietlyExactlyWhenReadable` | src/lib.rs:1045-1151 | With a consumer that listens to the end, every maximal interleaving is without an error answered if and only if every file can be read |
| `SequentialScan.ResolvePaths` | src/lib.rs:1191-1202 | The files read are the first places of all names the patterns stand for; the first pattern that fails fails the call |
| `SequentialScan.FirstPlacesMeaning` | src/lib.rs:1188-1202 | No file is read twice, none is lost or made up, and first places keep their argument order |
| `SequentialScan.EffectiveThreads` | src/lib.rs:1013-1028 | One file is sequential; never more threads than files, nor than asked for, nor than four times the parallelism, nor than the parallelism by default; anything below 1 asks for one |
| `SequentialScan.ScanState.PullBatch` | src/lib.rs:966-1001 | A call hands out the next 2048 rows across files, or the last few, or the failure behind fewer than 2048, and a short batch is the end |
| `SequentialScan.BatchesInOrder` | src/lib.rs:966-1001 | Repeated calls hand out the rows in order, no batch empty before the end, and end in the error exactly where a file cannot be read |
| `SequentialScan.SequentialIsArgumentOrder` | src/lib.rs:966-1001 | For readable files that is their rows concatenated in argument order |
| `SequentialScan.ParallelIsSequential` | src/lib.rs:1030-1121 | For readable files every interleaving of any number of threads delivers a permutation of the sequential rows |
| `SequentialScan.BothFailTogether` | src/lib.rs:1041-1044 | The parallel and the sequential scan report an error on exactly the same file lists |
| `Decoding.DecodeInPieces` | src/encoding.rs:183-186 | However a byte source is cut, the text of the pieces is the decoding of the whole |
| `Utf16.Utf8Exactly` | src/encoding.rs:198-214 | The text is handed out in the UTF-8 of RFC 3629, section 3: lengths, byte ranges, and payloads that make up the scalar value |
| `Utf16.RoundTrip` | src/encoding.rs:326-341 | Decoding the UTF-16LE bytes of any text gives its UTF-8 bytes |
| `Utf16.AcceptsOnlyEncodings` | src/encoding.rs:12-19 | Nothing is substituted: bytes decode without an error if and only if they are the UTF-16LE form of a text |
| `Utf16.MarkedFileIsItsText` | src/encoding.rs:70-83 | A file behind a UTF-16LE byte order mark reads as its text, and to its end exactly when it is one |
| `Utf16.LittleEndianIsNarrow` | src/encoding.rs:168-171 | No step of the UTF-16LE decoder writes more than four bytes, which is what the pipeline asks of a decoder |
| `Utf16.CutPairIsMalformed` | src/encoding.rs:131-133 | The bytes 41 00 00 DC are a letter and a malformed sequence |
| `Utf16.ReadsBehindAnError` | src/encoding.rs:131-133 | With those bytes read at once, the first read fails, the second hands out the letter, and the third fails again |
| `ByteInput.OpenSource` | src/lib.rs:308-346 | Peeking takes the first two bytes in as many reads as it needs and gives them back, gzip is seen exactly when the file starts with 1f 8b, and it fails exactly where a read of the file failed |
| `ByteInput.Peeked.Read` | src/lib.rs:283-286 | The magic and the file behind it read as the file |
| `ByteInput.DecodeToUtf8` | src/encoding.rs:198-214 | One decoder call: bytes taken and text written are one piece of the decoding; a full buffer, the end and a malformed sequence each say what they mean |
| `ByteInput.Transcoder.DecodePrefix` | src/encoding.rs:165-181 | All the prefix's text, the character it ends inside kept in the decoder; the room it reserves always suffices; an error only for bytes no continuation can mend |
| `ByteInput.Transcoder.Refill` | src/encoding.rs:183-217 | Refilling loses and repeats nothing, terminates, returns with text to hand out or at the true end, fails exactly when the decoder has failed, and leaves all text ahead of the bad bytes staged beside the error |
| `ByteInput.Transcoder.Read` | src/encoding.rs:219-231 | A read moves text from what is still to come into the caller's buffer; nothing moved into a buffer with room only at the true end; an error leaves what is to come as it was. Once failed, a read into a buffer with room fails if and only if nothing is staged; the failing read leaves staged exactly the text not yet handed out; an I/O error exactly where a read of the file failed |
| `ByteInput.Input.Read` | src/lib.rs:288-306 | For every chunking of the file and every sequence of buffer sizes, what was handed out and what is to come are the decoding of the whole source; 0 on a buffer with room only when all of it was handed out and none was malformed; an I/O error exactly where a read of the file failed |
| `ByteInput.Input.ReadPrefix` | src/lib.rs:354-358 | The guard looks at 65536 bytes, or at all of a shorter file, and fails to exactly where a read of the file failed |
| `ByteInput.Input.SettleEncoding` | src/lib.rs:350-366 | After the guard the text to come is the whole file's in its declared encoding, the prefix included; it is unreadable exactly where a read of the file failed, and a prefix is refused exactly where its own bytes are malformed, and then the file has no text |
| `ByteInput.Input.GuardForSniffer` | src/lib.rs:858-869 | The sniffer's guard refuses no file: the text to come is the file's, and every read is an error instead exactly where a read of the file failed, its encoding is not supported, or its prefix is malformed |
| `ByteInput.MalformedPrefixHasNoText` | src/lib.rs:359-366 | A file refused for its prefix is malformed as a whole, whatever follows |
| `Declaration.LabelExtends` | src/encoding.rs:43-62 | A label found in some of a file is the label of the file, wherever the prefix was cut |
| `Declaration.WrittenLabelIsRead` | src/encoding.rs:43-62 | Every declaration that assigns its encoding in the first 512 bytes is read as written, with either quote and any white space |
| `Entries.BlockIsIndexed` | src/model.rs:365-394 | Indexing by option checks and one subtraction is indexing the list of blocks on the wire: an absent slot takes no index |
| `Entries.StatedExactly` | src/model.rs:958-965 | A text is a leaf, as it stands, if and only if some character of it is no white space |
| `EntryCursors.TxCursor.Next` | src/model.rs:802-819 | Hands out the next of the entry's transactions with their scoped indexes, and None for ever after the last |
| `EntryCursors.AmountCursor.Next` | src/model.rs:854-901 | Hands out the entry's blocks, then each transaction's, with indexes scoped to their owner, and None for ever after |
| `EntryCursors.LeafCursor.Next` | src/model.rs:942-1044 | Hands out the next leaf that is not blank in slot order, and terminates on a lexicographic measure |
| `EntryCursors.StepLeaves` | src/model.rs:942-1044 | Each turn of the slot machine says the first of the leaves to come, if its slot has one, and steps past it |
| `EntryCursors.StepAhead` | src/model.rs:942-1044 | Each turn leaves lexicographically less to look at: blocks, then document numbers, then the reference, then additional texts |
| `EntryCursors.RemittanceCursor.Next` | src/model.rs:1058-1081 | Hands out each transaction's leaves, numbered from 1 in it, and None for ever after |
| `EntryCursors.TxCursor.constructor` | src/model.rs:793-800 | A new cursor stands before all transactions of the entry |
| `EntryCursors.AmountCursor.constructor` | src/model.rs:821-836 | A new cursor stands before the flattened list of all amount blocks |
| `EntryCursors.RemittanceCursor.constructor` | src/model.rs:903-940 | A new cursor stands before the flattened list of all leaves |
| `EntryRows.CountLeaves` | src/model.rs:506-530 | The count of a transaction's leaves, and the text exactly where there is one |
| `EntryRows.CountEntry` | src/model.rs:602-624 | One nested pass counts transactions and leaves and keeps the sole transaction and sole text exactly where there is one of each |
| `EntryRows.CountsAgree` | src/model.rs:514-624 | The sum of the transactions' leaf counts is the number of leaves the remittance reader hands out for the entry |
| `EntryRows.RowFromEntry` | src/model.rs:602-669 | transaction_count and remittance_count are the cursors' yields; remittance_info is there exactly with one transaction and one leaf and is its text; the other convenience columns are empty unless there is one transaction, and the counterparty's unless that one has parties |
| `EntryRows.Counterparty` | src/model.rs:673-718 | Name and account come from one side: the other side of the flow, or the own side where that one says nothing at all |
| `EntryRows.SoleCharge` | src/camt_transactions.rs:131-150 | Every stated total is parsed, and the column is filled exactly where one is stated |
| `EntryStreams.AmountDetailStream.NextRow` | src/camt_amount_details.rs:113-139 | A call hands out the next of the items ahead, or says how they end. From the constructor on the items ahead are those of the entry walk over the whole input, each entry parsed and flattened, with its index and context; the walk's ending is passed on, and an entry that does not deserialize ends them |
| `EntryStreams.RemittanceStream.NextRow` | src/camt_remittance.rs:91-117 | The same for remittance leaves |
| `EntryStreams.AmountDetailStream.constructor` | src/camt_amount_details.rs:105-111 | A new stream has all items of the walk over the input ahead |
| `EntryStreams.RemittanceStream.constructor` | src/camt_remittance.rs:84-89 | The same for remittance leaves |
| `EntryStreams.ListedIsItems` | src/camt_amount_details.rs:113-139 | The items are those of all entries before the first that does not deserialize, one entry after the other, and the walk's ending comes through exactly where there is no such entry |
| `Tar.OctalMeaning` | src/container.rs:156-181 | A number is read exactly where the field is spaces, octal digits and NUL or space padding and the number fits |
| `Tar.OctalIsStated` | src/container.rs:156-181 | In fields of up to twenty bytes a number is read if and only if the field states it |
| `Tar.ParseOctal` | src/container.rs:159-182 | The digit loop with its overflow checks reads what the field says |
| `Tar.ShortFieldsFit` | src/container.rs:166 | No field of up to twenty digits can overflow |
| `Tar.ChecksumIsTheSum` | src/container.rs:139-153 | The two checksums are the plain and the two's-complement sum of the header's bytes with eight spaces for its checksum field |
| `Tar.AcceptedExactly` | src/container.rs:111-153 | A block is a TAR header if and only if it has a name, a size of either encoding and a known type, and states the one or the other of those sums |
| `Tar.OneBlockDecides` | src/container.rs:124-127 | Only the first 512 bytes decide, and a prefix without them is none |
| `Tar.SumsDoNotCross` | src/container.rs:139-153 | A changed byte never turns one accepted sum into the other |
| `Tar.OneByteChangeIsCaught` | src/container.rs:118-153 | Any single-byte change of an accepted header outside its checksum field makes it rejected, although two sums are accepted |
| `Tar.StoredIsRead` | src/container.rs:144-182 | The six-digit octal of either non-negative sum reads back as that sum |
| `Tar.WrittenHeaderIsTar` | src/container.rs:124-138 | A header with either of its sums written into it is accepted |
| `Tar.TarExtends` | src/container.rs:124-138 | A TAR prefix stays one in the whole file |
| `Envelope.StartsWithExtends` | src/container.rs:564-575 | Armor that opens a prefix opens the file, a cut byte order mark included |
| `Envelope.OpensExactly` | src/container.rs:564-575 | A file opens with a needle if and only if nothing but a byte order mark and blanks stands before it |
| `Envelope.BlockEndExtends` | src/container.rs:577-596 | A longer prefix moves the end of the MIME header block back by bytes of a line break at most |
| `Envelope.MimeExtends` | src/container.rs:220-225 | A media type named in the headers of a prefix is named in the headers of the file |
| `Envelope.NamedTypeIsFound` | src/container.rs:577-596 | A media type in any case, before the first blank line of a file that opens with a header field, is found |
| `Envelope.FoundTypeIsNamed` | src/container.rs:577-596 | What is found stands in the file before its blank line, and the file opens with a field |
| `Envelope.Der.Tagged` | src/container.rs:243-278 | One step over the bytes in hand: contents clamped to what is there, and the rest kept for the next step |
| `Envelope.TlvInverse` | src/container.rs:252-278 | Reading a TLV undoes writing it in every length form it takes |
| `Envelope.TlvExtends` | src/container.rs:246-251 | What a clamped prefix shows of the contents is what the file has |
| `Envelope.WrittenContentInfo` | src/container.rs:227-240 | A written sequence whose first child is an object identifier is a ContentInfo if and only if that is below the CMS arc, in every length form, with anything behind |
| `Envelope.Pkcs7Extends` | src/container.rs:220-240 | A PKCS#7 prefix stays one in the whole file |
| `Envelope.Pkcs7Exactly` | src/container.rs:220-225 | The four ways a file is PKCS#7, by the words the program looks for |
| `Containers.ZipExactly` | src/container.rs:93-107 | A ZIP file opens with P, K and one of the six pairs of bytes |
| `Containers.PgpExactly` | src/container.rs:283-291 | An OpenPGP file opens with the armor of a message, or its packets are one |
| `OpenPgp.NewHeaderInverse` | src/container.rs:353-379 | Reading undoes writing for every tag and every length of the one-, two- and five-octet forms of section 4.2.1 of RFC 9580 |
| `OpenPgp.OldHeaderInverse` | src/container.rs:380-407 | The same for the one-, two- and four-octet length types of section 4.2.2 of RFC 9580 |
| `OpenPgp.OpenLengths` | src/container.rs:353-406 | Partial lengths and length type 3 lead to no next header |
| `OpenPgp.Header` | src/container.rs:353-407 | A header's body lies behind its first byte, and the next header no earlier than the body |
| `OpenPgp.ChainAdvances` | src/container.rs:308-338 | Each step of the chain goes strictly on |
| `OpenPgp.OneChain` | src/container.rs:308-338 | A prefix has at most one chain of packets |
| `OpenPgp.Packets` | src/container.rs:299-338 | True if and only if there is a chain of definite-length session-key packets of known versions from byte 0 that ends in SEIPD of version 1 or 2, or in SED after at least one key packet |
| `OpenPgp.WrittenMessage` | src/container.rs:293-341 | Any number of written session keys with versions that exist, and encrypted data behind them, are found |
| `OpenPgp.PacketsExtend` | src/container.rs:308-407 | An OpenPGP prefix stays one in the whole file |
| `Ebics.TagEnd` | src/container.rs:466-480 | The first > outside every attribute value |
| `Ebics.DoctypeEnd` | src/container.rs:482-495 | One past the first > outside the internal subset's brackets |
| `Ebics.RootStartTag` | src/container.rs:443-464 | The loop returns the root tag the recursion over the suffix finds, and terminates |
| `Ebics.RootTagExtends` | src/container.rs:436-442 | A root tag whole in a prefix is the file's |
| `Ebics.FindsTheRootTag` | src/container.rs:443-464 | Whatever comments, instructions, doctypes and text stand before it, the scan finds the root tag and nothing else |
| `EbicsAttributes.HasEbicsNamespace` | src/container.rs:501-548 | The attribute loop answers what its turns say, and terminates |
| `EbicsAttributes.FindsTheBinding` | src/container.rs:497-548 | Over attributes as XML writes them, true if and only if one declares a namespace whose value starts with an EBICS root |
| `EbicsAttributes.BindsExactly` | src/container.rs:411-413 | An attribute binds EBICS if and only if it declares a namespace whose name starts like one of the two |
| `EbicsAttributes.EnvelopeExactly` | src/container.rs:414-441 | A document is an EBICS envelope if and only if its root's local name opens with ebics and an attribute binds an EBICS namespace, whatever stands before the root |
| `EbicsAttributes.EbicsExtends` | src/container.rs:422-442 | An EBICS prefix stays one in the whole file |
| `Containers.Detect` | src/container.rs:61-81 | The first kind in the order whose check passes, or none where none does |
| `Containers.CutNeverInvents` | src/container.rs:16-25 | For each of the five checks, what holds of a prefix holds of the file, for all byte strings |
| `Containers.VerdictOnlyLost` | src/container.rs:61-81 | A prefix has a verdict only where the file has one, from a check no earlier than the file's |
| `Decimal.Scaled` | src/decimal.rs:23-85 | Accepted if and only if the text states an amount that is a whole number of hundred-thousandths within 10^38 - 1, and the result is exactly that number; no check on the way refuses a value that fits |
| `Decimal.AppendDigits` | src/decimal.rs:60-73 | The digit loop with its overflow checks reads the digits' number, and fails only for a non-digit or a number past 128 bits |
| `Decimal.ExactlyAligned` | src/decimal.rs:74-84 | With at most five fraction digits that count there is one exact scaled integer, the left-aligned one |
| `Decimal.ExactlyMeans` | src/decimal.rs:13-23 | The column holds hundred-thousandths in 38 decimal digits: the scaled integer is exactly the amount times 100 000 |
| `Decimal.NoneFits` | src/decimal.rs:50-58 | With more there is none |
| `Decimal.WrittenIsStated` | src/decimal.rs:30-50 | Blanks, an optional sign, digits with at most one point and at least one digit: read as that amount |
| `Decimal.StatedIsWritten` | src/decimal.rs:30-50 | And nothing else is read as an amount |
| `Decimal.ScaledOpt` | src/decimal.rs:87-94 | Absent and blank texts are NULL; every other text is an amount or an error |
| `AddressWalk.RolesAreNoRecords` | src/addresses.rs:76-134 | No name is a role and a record element or an address element at once, nor a party and an agent |
| `AddressTables.OneElementFile` | src/addresses.rs:80-109 | A file that is one element gives one row of its kind if the element is one of the parties or agents, and else the rows of its content |
| `AddressTables.RecordsAndElements` | src/addresses.rs:111-130 | The names that are numbered as records (`src/sniff.rs:88-100`) and those that count as parts of an address |
| `AddressTables.MessageIdsExactly` | src/sniff.rs:321-331 | The three places a message id stands |
| `AddressWalk.ElementSlicesInBounds` | src/addresses.rs:525-553 | Both path slices an element takes are of depths on the path |
| `AddressWalk.EveryStepStaysOnPath` | src/addresses.rs:329-404 | No step over any event leads off the path |
| `AddressWalk.EveryRunStaysOnPath` | src/addresses.rs:329-404 | No input, well nested or not, leads off the path over any number of steps |
| `AddressWalk.ReachableSlicesInBounds` | src/addresses.rs:525-553 | In every state an input leads to from the start, both path slices of the next element are in bounds |
| `AddressWalk.CutAuditIsRefused` | src/addresses.rs:334 | A file cut inside its root element is refused, whatever stands before the root |
| `AddressRows.OneRowAParty` | src/addresses.rs:329-511 | From any state outside a party, over any document: one row for each outermost role element that is not self-closing, in closing order, with its own content's facts and nothing else's |
| `AddressRows.DrainIsParties` | src/addresses.rs:329-404 | So the rows of a file are its parties |
| `AddressFacts.LinesAreElements` | src/addresses.rs:484-497 | address_lines is the number of AdrLine elements under PstlAdr, self-closing ones included |
| `AddressFacts.LinesAreTheirTexts` | src/addresses.rs:597-606 | Where lines do not nest, each line is the text of its own element, put together again where it stands in pieces |
| `AddressFacts.ColumnsAreFirstTexts` | src/addresses.rs:575-624 | Town, country, name and BIC are the first text at their place, address facts only from the postal address and name and BIC only from outside it |
| `AddressFacts.StructuredIsPopulated` | src/addresses.rs:607-616 | structured_elements is at least the number of structured elements that hold a text, and is that number if and only if none of them holds its text in pieces |
| `AddressFacts.SplitTownCountsTwice` | src/addresses.rs:478-490 | A whole file with one populated element that is counted twice |
| `AddressMessages.RowsAreTheMessages` | src/addresses.rs:408-511 | Inside a message the rows' id, record index and party path depend on its own content alone, and their family is the one it was opened with |
| `AddressMessages.ContainerIsAMessage` | src/addresses.rs:446-462 | A message that its container opens has no id and counts records from 1, and is over when the container closes |
| `AddressMessages.PartiesOfARecord` | src/addresses.rs:493-511 | Every party of a record without a nested record carries the record's number |
| `AddressMessages.PartiesOfNoRecord` | src/addresses.rs:493-511 | A party outside every record carries none |
| `AddressMessages.RecordStaysAtHand` | src/addresses.rs:390-393 | Inside a record, the record is at hand if and only if no record nested in it has closed |
| `AddressFiles.DrainIsTold` | src/addresses.rs:329-622 | Every column of every row of every well-nested document, and the ending, by recursion on the document: family, id, record number, path and facts of each party, whatever Documents, messages, records and parties lie wherever; refused exactly where no Document or container opens and nothing is bound |
| `AddressFiles.DocumentStartsOver` | src/addresses.rs:432-445 | What a Document hands out and leaves behind, named or not, owes nothing to the messages, records, ids and Documents before it |
| `AddressFiles.ContainerStartsOver` | src/addresses.rs:446-462 | Nor does a container outside every message, but for the last Document's binding and depth |
| `AddressFiles.MessageRowsAreTold` | src/addresses.rs:408-511 | Inside a message without a Document in it, the rows are those of the message's own content |
| `AddressFamilies.StartIsNamed` | src/addresses.rs:440-460 | A container always gives a family, and a Document exactly where it binds one, a header before it names one, or something before it bound one |
| `AddressFamilies.FamilyIsItsOwn` | src/addresses.rs:432-462 | In every file, for every row: when the family its message or Document was given is the one that names that message itself, in terms of which Documents bound what before it, which headers named what, and its container |
| `AddressFamilies.ReportUnderTheTransfersFamily` | src/addresses.rs:435-460 | A whole file in which a status report's party is handed out as a credit transfer's |
| `AddressBoundaries.ContentAdds` | src/addresses.rs:466-476 | Content in which no message and no Document starts adds its id texts and its bindings to what is known, and nothing else does |
| `AddressBoundaries.PartyCarries` | src/addresses.rs:376-391 | Any party at whose tag and in which nothing starts carries the first id text since the last message or Document started, and that one's family, else the first binding since; it carries no id, and no family, if and only if there is none |
| `AddressBoundaries.PartyBehindAStart` | src/addresses.rs:396-398 | A party behind a message or a Document, whatever stands between that starts nothing: the first id text and the family of the message and of what stands between, and none if and only if those state none; the end of a message takes neither away |
| `AddressBoundaries.PartyBeforeAnyStart` | src/addresses.rs:376-391 | The same before the first message and Document of a file |
| `AddressBoundaries.LoosePartyHasTheReportsId` | src/addresses.rs:376-398 | A whole file with a party in no message that carries the id and the family of the message before it |
| `AddressBoundaries.NestedDocumentEndsTheMessage` | src/addresses.rs:432-445 | A Document, wherever it lies, ends the message around it, the record at hand, the numbering and the ids |
| `AddressNumbers.ContentIsNumbered` | src/addresses.rs:390-393 | Of any content, in any scope: no row carries a number but that of the innermost record around its party in its scope, and all carry it if and only if no party stands, in its record, behind a record, a message or a Document |
| `AddressNumbers.FileIsNumbered` | src/addresses.rs:329-511 | The same over every file, with every message and every Document, named or not, as a scope |
| `AddressNumbers.ScopeNumbersFromOne` | src/addresses.rs:514-523 | The numbering of a scope starts from 1 and owes nothing to the records around it |
| `AddressNumbers.NestedRecordLosesTheOuter` | src/addresses.rs:390-393 | A whole file in which a party of the first record has no record number |
| `AddressFormat.Finding` | src/addresses.rs:217-258 | No finding if and only if the party has no address, or is located with at most two lines of at most 70 characters; else each fault exactly where it applies, in the order reported, and no other |
| `AddressFormat.FormatsExactly` | src/addresses.rs:206-215 | The format of an address by its lines, its town and country and its populated elements, each of the four exactly |
| `AddressFormat.VerdictOf` | src/addresses.rs:626-632 | Families the mandate does not reach never get a finding, and every other party gets one exactly by the rule |
| `AddressReader.AddressStream.OnElement` | src/addresses.rs:408-511 | The assignments of an element start are the machine's |
| `AddressReader.AddressStream.Capture` | src/addresses.rs:555-622 | The assignments of a text are the machine's |
| `AddressReader.AddressStream.Pop` | src/addresses.rs:376-397 | The assignments of a closing tag are the machine's, and it queues at most one row |
| `AddressReader.AddressStream.NextRow` | src/addresses.rs:329-404 | The loop with its queue hands out the machine's next row or its ending; the queue is empty between calls |
| `MtAddresses.DebitsRunTheOtherWay` | src/addresses.rs:688-726 | Fields 50 to 59 and no others are parties, of one kind in every message; the role of each in a credit transfer and in a direct debit, which differ exactly at 50, 52, 57 and 59, and at 50 not for options C and L |
| `MtAddresses.FieldLines` | src/mt.rs:672-691 | A line starts a field if and only if it is two digits, or two digits and one capital, between colons, and a value |
| `MtAddresses.Load` | src/addresses.rs:771-811 | Every party field in the order stated, named with its occurrence |
| `MtAddresses.PathsAreDistinct` | src/addresses.rs:780-802 | No two rows of one message have the same path, for all fields the tokenizer can yield |
| `Cancellation.CutRequestIsRefused` | src/camt055.rs:247-256 | A file cut inside its root element is refused, whatever stands before the root |
| `CancellationLeaves.LeavesExactly` | src/camt055.rs:385-428 | A text speaks to a leaf of a group, of a payment group, or to the assignment, if and only if its path ends in one of the leaf's own paths; no text speaks to two |
| `CancellationLeaves.AssignmentTakes` | src/wire.rs:627-664 | Of the assignment's columns a text at a naming path replaces its own, at a filling path fills it, and touches no other |
| `CancellationLeaves.AssignmentExactly` | src/wire.rs:627-664 | A text is the assignment's if and only if its path ends in one of its columns' paths |
| `CancellationLeaves.NamedGroupIsShown` | src/camt055.rs:399-402 | A whole file, for any two texts: each is in its own column of the group's row and of the inheriting transaction's, and every other column is as stated |
| `CancellationLeaves.FinishedExactly` | src/camt055.rs:284-321 | A file is read to its end if and only if some element of it is a camt.055 request, of any version |
| `CancellationScopes.DrainIsTold` | src/camt055.rs:247-428 | Every column of every row of every well-nested document, from its first event to its last, and the ending, by recursion on the document over the texts each level has heard |
| `CancellationInheritance.GroupMeaning` | src/camt055.rs:393-402 | A group's references are the last texts at its leaves |
| `CancellationInheritance.PaymentMeaning` | src/camt055.rs:411-418 | And a payment group's at its own |
| `CancellationInheritance.RowsRefer` | src/camt055.rs:174-184 | The original message, its name and the payment id of a transaction and of a payment group are the last texts its payment group heard, else the last its group heard, else NULL; a group's row has its own; the scope, the assignment, the cancellation id and the transaction's own columns of each |
| `CancellationInheritance.RequestStartsOver` | src/camt055.rs:315-321 | A request's rows owe nothing to what came before it |
| `CancellationInheritance.UndrlygStartsOver` | src/camt055.rs:322-325 | An Undrlyg's rows owe nothing to groups and payment groups before it |
| `CancellationInheritance.PaymentGroupStartsOver` | src/camt055.rs:326-328 | A payment group's rows owe nothing to the payment group before it |
| `CancellationInheritance.InheritsFromAround` | src/camt055.rs:247-376 | In a file whose blocks and transactions lie in Undrlyg, each row inherits from the payment group around it and the Undrlyg around that and from nothing else: the rows are those of the recursion in which both take what they heard with them |
| `CancellationInheritance.NoPaymentAround` | src/camt055.rs:364-366 | In a request and in no payment group nothing is heard for one, whatever payment groups came before |
| `CancellationInheritance.InheritsExactly` | src/camt055.rs:156-184 | A transaction, wherever it stands, inherits nothing if and only if nothing it takes over was said since its levels started |
| `CancellationInheritance.TransactionBehindAnUndrlyg` | src/camt055.rs:322-325 | A transaction behind an Undrlyg and in none goes on from what that Undrlyg said, and inherits nothing if and only if neither it nor what stands between said anything to inherit |
| `CancellationReasons.LevelIsOneBlocks` | src/camt055.rs:403-410 | A level's three reason columns, the additional texts joined, are one block's if and only if that block states the level's first code and last originator, where there are any, and every additional text |
| `CancellationReasons.CollapsedIsOneBlocks` | src/wire.rs:548-561 | A transaction's own three reason columns are one of its blocks' if and only if that block states the first code and the first originator there are and no other states a text |
| `CancellationReasons.CollapseOfBoth` | src/wire.rs:548-561 | Of two runs of reason blocks the earlier code and originator go first, and the earlier texts stand first |
| `CancellationReasons.JoinedOfBoth` | src/wire.rs:828-830 | Texts stand in the column one behind the other, one blank between two |
| `CancellationReasons.RowReasonIsOneBlocks` | src/camt055.rs:156-172 | For every transaction row: from which level its reason comes, and for each reason block of that level when the three columns are that block's |
| `CancellationReasons.LevelRowReason` | src/camt055.rs:331-363 | The same for the rows of groups and payment groups |
| `CancellationReasons.OneBlockShows` | src/camt055.rs:156-172 | A level with one reason block always shows that block, and so does a transaction with one |
| `CancellationReasons.InfosOfBlock` | src/wire.rs:828-830 | A block without all of its level's additional texts takes less room in the joined column than the level, so joining keeps the difference |
| `CancellationReasons.TwoBlocksMix` | src/camt055.rs:403-410 | A whole file whose transaction row has the first block's code and the second block's text and originator |
| `CancellationReader.CclStream.CloseElement` | src/camt055.rs:331-384 | The rows and resets of a closing tag are the machine's |
| `CancellationReader.CclStream.NextRow` | src/camt055.rs:247-376 | The loop over fields hands out the machine's next row or its ending |

## Left out

- Resource use of the parser, and XML well-formedness: quick-xml is taken to deliver well-nested events.
- DuckDB bindings, column writers and the projections that copy fields one by one.
- Deserialization of a record subtree: a function from the subtree to an entry or a transaction block. An entry that does not deserialize ends the streams over entries; elsewhere, and for a malformed amount of a row, the error is not modelled.
- File opening, globbing, FIFO checks, gzip inflation and the wording of errors; an error is an error whatever it says.
- Character tables of encodings other than UTF-16LE: a decoder is any byte automaton with bounded output, and DecodeToUtf8 stands for the library call.
- The table of message families (`src/sniff.rs`) for the address audit, and namespace resolution: both are parameters there.
- MT framing and field values (`src/mt.rs`): the address audit over MT starts at parsed fields, of which the tags are modelled, and the classification of their values is not part of this model.
- The counter of claimed files is unbounded, where the program's has the machine's width.
- A panic that leaves a worker other than through the caught one: the model has the caught one, with its error.
- The other cancellation and case readers: the same skeleton as camt.055 with fewer levels.
- Balance and statement projections: they copy fields of the rows the walk is proved to hand out.
- Disjointness of the container kinds: the order of the checks decides, and no claim is made beyond it.
- StatementReader.StatementRecordStream.RecordSubtree: the limit on the bytes of one subtree (`src/wire.rs:115-120`) and its error, because events have no size here.
- AddressFiles.ContainerStartsOver: the last Document's binding stays, because the program keeps it.
- StatementGrains.GrainsAgree: over documents with no container inside an entry or a balance, which one grain skips and another walks into.
- CancellationInheritance.InheritsFromAround: over files whose blocks and transactions lie in an Undrlyg; for the others CancellationScopes.DrainIsTold and CancellationInheritance.InheritsExactly say what a row inherits.
- AddressFacts.LinesAreTheirTexts: over parties in which no address line lies in another; the number of lines is stated for all.
- ParallelScan.NotStuck: fairness is not modelled; some step is always enabled, and runs are bounded, so every scheduler that takes enabled steps finishes.
- Decimal.Scaled: which of several applicable errors is reported is the code's order, and only the empty amount is stated as a contract.
