# A verified model of the Redis 2.6 server core

The project models those parts of the Redis 2.6.14 server whose correctness does not rest on the operating
system, and proves what the source and its comments promise about them. Each Dafny module stands for one source
file or for one layer of it: the imperative modules follow the C functions field by field and loop by loop, and are
proved against functions on values; the lemmas about those functions are the results.

| part of the server | modules |
|---|---|
| LZF codec (`lzf_c.c`, `lzf_d.c`) | LzfFormat, LzfCompress, LzfDecompress, LzfRoundTrip |
| partial quicksort (`pqsort.c`) | Pqsort |
| incrementally rehashed hash table (`dict.c`) | DictModel, DictRuns, DictGrowth, DictIterator, Dict |
| protocol parser (`networking.c`) | Wire, Protocol, ProtocolRuns, ProtocolLines, ProtocolReads, ProtocolClient |
| reply stream (`networking.c`) | ReplyStream, ReplyClient, ReplyRuns, ReplyServer, ReplyValues |
| keyspace, commands and propagation (`db.c`, `redis.c`, `multi.c`) | Keyspace, Commands, Effects, Propagation, CommandLaws, KeyLaws, BitLaws, ExecLaws, CallReplay, Db |
| append only file (`aof.c`) | LogFile, Rewrite, LogMachine, LogDisk, LogLimits, LogDrift, LogRuns, AofRewrite, AofLoad, Aof |
| AOF repair tool (`redis-check-aof.c`) | CheckAofModel, CheckAofTheorem, CheckAofKept, CheckAof, CrashRecovery, TornFeeds, CrashStates |
| WATCH and EXEC (`multi.c`, signals in `db.c`, `t_*.c`, `bitops.c`) | WatchModel, WatchIndex, WatchedKeys |
| RDB strings (`rdb.c`) | RdbFormat, Rdb |
| integer sets (`intset.c`) | IntsetFormat, Intset |
| bit operations (`bitops.c`) | BitString, Bitops, SetBit, Popcount |
| CRC64 and DUMP payloads (`crc64.c`, `migrate.c`) | Crc64Table, Crc64, Crc64Bursts, DumpPayload |
| background jobs (`bio.c`) | BioModel, Bio |
| event port (`ae_evport.c`, `ae.c`) | EventPort, Evport |
| random numbers (`rand.c`) | Rand48, Rand48Period |

Bytes, Decimal and Strtol hold what several of them share: byte strings, and the printing and reading of numbers.

## Main results

- Whatever the compressor's uninitialised hash table holds, what it emits decodes to its input
  (`LzfCompress.Compress`, `LzfRoundTrip.RoundTrip`), and equal bytes are packed.
- The two tables of a dictionary, at any point of any run, are one plain map (`DictRuns.RunFromEmpty`) with never more
  entries than one for each bucket and one besides while resizing is allowed and no iterator is open
  (`DictGrowth.ChainsStayShort`), and a safe iterator returns each surviving key exactly once while the client changes
  the dictionary (`DictIterator.SafeIteration`).
- Commands reach a client that is parsed after every read whole, however the bytes are cut
  (`ProtocolReads.CommandsAlwaysArrive`); in portions of any size they do if and only if one size limit is never met
  (`ProtocolRuns.CommandsArrive`). Lines that people type are split into exactly the words they spell
  (`ProtocolLines.InlineArrives`).
- What each command does when it is called is said without the functions that do it: when it goes through, and what the
  databases are afterwards (CommandLaws, KeyLaws, BitLaws, `ExecLaws.ExecLaw`).
- After any run of the server the log, loaded at any time, is the dataset (`LogMachine.LogRebuilds`); where a rewrite
  finds expired keys, or SET is used with EX or PX, it is the dataset but for these keys and these times, exactly
  (`LogRuns.LogTrails`); a background rewrite neither loses nor repeats a write (`LogMachine.RewriteHandsOver`).
- The log cut at any byte is repaired to the longest part that can be loaded (`CrashRecovery.CrashIsRepaired`), and that
  gives the databases of an earlier moment, but for a part of the next event and for what the log rebuilt differently
  at that moment (`CrashStates.CrashGoesBack`); exactly where it rebuilds them exactly
  (`CrashStates.CrashGoesBackExactly`).
- Whatever commands say to any number of clients, with the same objects in many of their lists, lengths reserved and
  supplied in any order, and values replaced and changed in place in between, each client is sent the beginning of what
  was said to it, with the values of that moment, and all of it once its socket has taken something often enough; and
  no other holder of an object loses its reference or its text (`ReplyValues.Talk`).
- What EXEC does is determined by history (`WatchModel.ExecRunsUnspoiled`), and when it runs a transaction the watched
  keys are as they were (`WatchedKeys.WatchProtects`).
- A changed DUMP payload is refused whenever the change lies within eight bytes (`DumpPayload.BurstIsRejected`).
- Background jobs run once each and in order, and no interleaving strands one (`BioModel.NoJobIsStranded`).
- The random generator has the full period (`Rand48Period.FullPeriod`).

## Where the code falls short of what one would expect

Each of these is stated as a lemma, with the condition under which it happens.

- SET with EX or PX is logged with its relative time to live, so loading the log later gives a later expire time:
  one call is rebuilt exactly if it is no such SET or is loaded in the same millisecond
  (`CallReplay.CallReplays`, `CallReplay.RelativeSetFed`). Over whole runs nothing else comes of it: there are the same
  keys and values, and only the times that were last set so differ, until a rewrite (`LogDrift.OnlyTimesDiffer`,
  `LogRuns.LogTrails`). The runs of LogMachine leave such calls out.
- SETEX and PSETEX are logged as two commands. A crash between them leaves the key without its expire time
  (`CrashStates.SetExIsTorn`); nothing else that an event feeds can be torn so (`TornFeeds.EventPart`).
- The limit on a header line is compared with the whole query buffer, so a valid stream can be refused once several reads
  have gathered while a client was blocked (`ProtocolRuns.LimitStrikes`; exactly when: `ProtocolRuns.CommandsArrive`). A
  client that is parsed after every read is never struck (`ProtocolReads.NeverStruck`).
- A rewrite skips keys past their expiry, and is exact if and only if there is none (`LogLimits.ForkIsExact`). What it
  skips the server may still hold, but no lookup can find it (`LogDrift.MissingIsUnseen`), and the log lacks nothing else
  (`LogRuns.LogTrails`) as long as these conditions are met. PERSIST does not look whether a key has expired: a call
  leaves the log more than a lag behind if and only if it is a PERSIST of a key that the log lacks
  (`LogDrift.CallKeepsBehind`); such a key lives on in memory and is missing from the log (`LogLimits.SkippedKeyIsLost`),
  until SET or DEL settles it or a rewrite writes it, and it taints what is made from it (`LogDrift.EffectBehind`); all
  other keys are rebuilt as before (`LogRuns.LogTrails`). An expire time that has overflowed is past to a rewrite and
  none to the server: what a rewrite rebuilds lacks expired keys only if and only if no expire time is negative
  (`LogRuns.RewriteIsBehind`, `LogRuns.OverflowIsNegative`). And the clock must not go back behind a rewrite that skipped
  keys.
- The repair tool does not look at the numbers of arguments, nor at what the commands are. What it keeps of a file loads if
  and only if every count it accepted is between 1 and 2^31 - 1 and every command can be run (`CheckAofKept.KeptParses`,
  `CheckAofKept.KeptLoads`; an input: `CheckAofKept.HeaderAlone`). Logs that the server writes are of that kind.
- A verbatim RDB string is read back if and only if it is shorter than 2^32 - 1 bytes (`RdbFormat.VerbatimLoads`).
- The size of an integer set is computed in 32 bits. It is right if and only if the cells take less than 4 GB
  (`IntsetFormat.SizeHolds`); adding to 2^29 - 1 eight-byte cells computes 0 (`IntsetFormat.SizeWrapsToZero`), and
  `Intset.Intset.Add` says exactly when the buffer is overrun.
- A watched key can change without a signal: if and only if it loses its expire time to PERSIST, is moved away or hither,
  is evicted, or expires and is not signalled for another reason (`WatchedKeys.ChangeIsUntold`). Then, and only then, EXEC
  runs over the change (`WatchedKeys.UntoldIsMissed`; a run: `WatchedKeys.PersistIsMissed`).
- The heading of `crc64.c` names both 0 and all ones as the starting value. The code starts at 0, and only that gives the
  check value named there (`Crc64Bursts.CheckValue`).

## Model

| member | source | states |
|---|---|---|
| `LzfFormat.CopyBack` | redis/src/lzf_d.c:137-142 | Copying a back reference appends `len` bytes, each equal to the byte `dist` places before it in the output itself, so overlapping copies repeat with period `dist`. |
| `LzfFormat.CopyBackUnique` | redis/src/lzf_d.c:137-142 | The overlapping copy is the only extension of the output with that period: the forward byte-by-byte copy is determined by its meaning. |
| `LzfFormat.DecodeAppend` | redis/src/lzf_d.c:64-146 | A stream may be decoded in two parts: decoding the second part on top of the first's output is decoding the whole. |
| `LzfFormat.DecodeFits` | redis/src/lzf_d.c:72-76 | Decoding only ever appends, and a stream that decodes in one buffer decodes to the same bytes in every buffer that holds the result. |
| `LzfCompress.LiteralsDecode` | redis/src/lzf_c.c:268-273 | A control byte followed by that many literals decodes to exactly those literals on top of what came before. |
| `LzfCompress.EncodeRefDecodes` | redis/src/lzf_c.c:214-224 | The two- or three-byte form of a back reference decodes to the overlapping copy of the match it stands for. |
| `LzfCompress.MatchIsCopy` | redis/src/lzf_c.c:179-209 | A match found in the input, overlapping itself or not, is what the decoder's forward copy reproduces. |
| `LzfCompress.IsMatch` | redis/src/lzf_c.c:149-166 | A candidate is taken if and only if it lies strictly inside the input and before ip, less than 8192 back, with four more bytes after ip, and agrees on three; whatever stale address the table held, no byte outside the input is read. |
| `LzfCompress.MatchLength` | redis/src/lzf_c.c:169-209 | The unrolled comparisons and the loop after them find a length between 3 and 264 over which the match really holds, and which is 264, or ends at a byte that differs or near the end of the input. |
| `LzfCompress.NextRolls` | redis/src/lzf_c.c:46-56 | The slot depends on the three bytes alone, although the running hash goes on to hold older ones. |
| `LzfCompress.LookUp` | redis/src/lzf_c.c:143-148 | The three bytes at ip are entered in their slot, and what the slot held is taken if and only if it passes the test. |
| `LzfCompress.TakeMatch` | redis/src/lzf_c.c:167-250 | The branch for a match: the open run is closed and the reference written, which decodes to the input consumed; the last two positions of the match are entered; with equal bytes it takes three bytes for 264, or reaches the end. |
| `LzfCompress.CompressBody` | redis/src/lzf_c.c:142-277 | For every initial table: on success the output so far is whole blocks and one open run that decode to the input consumed; the room checks never fail when out_len leaves the promised slack. |
| `LzfCompress.Compress` | redis/src/lzf_c.c:99-294 | For every input (but one of length 1), out_len and initial table: a positive result decodes to the input and is at most out_len; it is at most n + ceil(n/32); it is positive whenever out_len >= n + n/32 + 4; at most one byte past out_len is written; and n >= 32 equal bytes with out_len >= n - 4 are compressed, to at most 11 + 3 * (n/264) bytes. |
| `LzfDecompress.CopyReference` | redis/src/lzf_d.c:137-142 | The in-place forward copy leaves the periodic extension of the output. |
| `LzfDecompress.Decompress` | redis/src/lzf_d.c:56-149 | For every non-empty byte string: terminates within both buffers, and gives exactly what the format says: the decoded bytes, E2BIG when they do not fit, EINVAL when the stream is malformed. |
| `LzfRoundTrip.RoundTrip` | redis/src/lzf_c.c:99-294 | What the compressor accepts the decompressor gives back: any input, output bound and initial table, into any buffer at least as long as the input. |
| `LzfRoundTrip.DecodeNeedsRoom` | redis/src/lzf_d.c:72-76 | A stream that decodes to s does so in every buffer at least as long as s and is refused as too big in every smaller one. |
| `LzfRoundTrip.VerdictsAreRight` | redis/src/lzf_d.c:64-146 | A stream refused as invalid is invalid for every larger buffer, and none is refused as too big by a buffer with 264 bytes for each of its own. |
| `Pqsort.InsertionSort` | redis/src/pqsort.c:121-124 | The insertion sort sorts its segment, rearranges it and touches nothing else. |
| `Pqsort.Pivot` | redis/src/pqsort.c:127-138 | The pivot of the middle element, the median of three or the median of three medians lies inside the segment. |
| `Pqsort.Med3IsMedian` | redis/src/pqsort.c:101-108 | For every total preorder med3 returns a median: one of its three arguments that lies between the other two. |
| `Pqsort.ScanUp` | redis/src/pqsort.c:144-151 | The upward scan keeps the four-finger picture (equal, smaller, unseen, greater, equal) and stops at an element greater than the pivot or past pc. |
| `Pqsort.Partition` | redis/src/pqsort.c:143-166 | The fat partition ends with the fingers met: equal elements at both ends, smaller ones left, greater ones right, and the segment a rearrangement of what it was. |
| `Pqsort.Gather` | redis/src/pqsort.c:175-179 | Exchanging the shorter of the outer blocks on each side brings all elements equal to the pivot to the middle. |
| `Pqsort.Round` | redis/src/pqsort.c:118-179 | One round on any segment either sorts it outright, also when no swap was needed and insertion sort takes over, or splits it in three around a pivot. |
| `Pqsort.Segment` | redis/src/pqsort.c:111-200 | The recursion and its loop, with segments outside l..r skipped, leave every pair in order that reaches into l..r or straddles it; it terminates. |
| `Pqsort.AddressesAgree` | redis/src/pqsort.c:180-197 | The byte-address test that skips a segment is the test that the segment and l..r do not meet. |
| `Pqsort.Pqsort` | redis/src/pqsort.c:203-208 | For every total preorder and l <= r < n: a permutation in which l..r is sorted, everything before a[l] is <= a[l] and everything after a[r] is >= a[r]. |
| `Pqsort.PlacedIsSelection` | redis/src/pqsort.c:203-208 | The element at each k in l..r compares equal to the k-th of any fully sorted rearrangement of the array. |
| `DictModel.ExpandKeeps` | redis/src/dict.c:259-286 | Growing denotes no new entry, keeps the invariant, and an add never finds the growth refused. |
| `DictModel.RehashStepKeeps` | redis/src/dict.c:293-330 | One rehash step denotes the same map, keeps the invariant, gets at least one bucket further, and its scan for a busy bucket stays inside the table. |
| `DictModel.FirstBusy` | redis/src/dict.c:308-311 | While entries are left in the old table the scan over empty buckets stops at a busy one before the end of the table. |
| `DictModel.AddDenotes` | redis/src/dict.c:392-415 | dictAdd: at most one step, a growth if needed, and then exactly the new entry; nothing but the step if the key is there. |
| `DictModel.ReplaceDenotes` | redis/src/dict.c:421-440 | dictReplace denotes the map updated at the key, and reports whether the key was new. |
| `DictModel.DeleteDenotes` | redis/src/dict.c:455-490 | dictGenericDelete denotes the map without the key, and reports whether it was there. |
| `DictModel.FindDenotes` | redis/src/dict.c:538-557 | dictFind returns the value of the map whichever table holds it, and changes no entry. |
| `DictRuns.StepDenotes` | redis/src/dict.c:392-557 | One operation on a valid pair of tables: the same reply as a plain map gives, and the tables go on denoting that map. |
| `DictRuns.StepValid` | redis/src/dict.c:293-330 | Bucket placement, uniqueness across both tables, exact used counts and empty old buckets below rehashidx survive every operation. |
| `DictRuns.RunFromEmpty` | redis/src/dict.c:293-557 | Refinement: from an empty dictionary every run of operations, with growths, migrations and frozen spells wherever they fall, is answered as a plain map would, with the invariant throughout. |
| `DictRuns.RehashFinishes` | redis/src/dict.c:293-330 | A budget of one step more than the buckets left to visit completes the migration. |
| `DictRuns.GrowthCompletes` | redis/src/dict.c:666-714 | A growth started on S buckets is over after at most S further adds and the next operation, and the new table takes over with at most one entry more than it has buckets. |
| `DictGrowth.AddGrows` | redis/src/dict.c:678-684 | An add to a table that is not growing starts a growth if and only if there is an entry for every bucket and growing is allowed, or there are six and it is not; to the least power of two that holds twice the entries. |
| `DictGrowth.FirstTable` | redis/src/dict.c:675-676 | The first add sets up four buckets. |
| `DictGrowth.ChainsStayShort` | redis/src/dict.c:666-686 | In every state that any run reaches from the empty dictionary, growing being allowed at every add: at most one entry more than there are buckets in the only table, or in the new one; six for every bucket where growing is discouraged; plus the entries added while an iterator held up the migration. |
| `DictGrowth.OperationMoves` | redis/src/dict.c:363-365 | Each add, find and delete takes a growth one step further, unless an iterator is open. |
| `DictIterator.AdvanceMoves` | redis/src/dict.c:586-615 | dictNext returns a key that was still to come, and afterwards exactly the others are. |
| `DictIterator.AdvanceShrinks` | redis/src/dict.c:586-615 | Each entry returned brings the end nearer in a measure that adds cannot raise, so the iteration ends however many keys are added. |
| `DictIterator.PerformKept` | redis/src/dict.c:363-490 | Adds, replaces, finds and deletes of the entry just returned disturb no key that is still to come, even when an add starts a migration. |
| `DictIterator.SafeIteration` | redis/src/dict.c:586-622 | From the first dictNext of a safe iterator until the end, for every table layout and every client that deletes only the entry last returned: each key present at the start and not deleted is returned exactly once, and no other undeleted key twice. |
| `Dict.Dictionary.ScanForBusy` | redis/src/dict.c:308-311 | The scan loop leaves rehashidx at the first busy bucket. |
| `Dict.Dictionary.MoveEntries` | redis/src/dict.c:312-327 | The relinking loop moves the whole bucket, head first, and adjusts both used counts. |
| `Dict.Dictionary.Rehash` | redis/src/dict.c:293-330 | dictRehash makes exactly n steps of the model, or as many as are left, and reports whether there is more to do. |
| `Dict.Dictionary.ExpandIfFull` | redis/src/dict.c:666-686 | _dictExpandIfNeeded sets up the first table, or grows at one entry per bucket (five when resizing is discouraged), and always succeeds. |
| `Dict.NextPowerLoop` | redis/src/dict.c:704-714 | The doubling loop finds the smallest power of two from 4 on that reaches the size. |
| `Dict.Dictionary.Put` | redis/src/dict.c:368-415 | dictAdd on the bucket arrays is the model's add. |
| `Dict.Dictionary.PutOrReplace` | redis/src/dict.c:421-440 | dictReplace on the bucket arrays is the model's replace. |
| `Dict.Dictionary.Fetch` | redis/src/dict.c:538-557 | dictFind returns what the tables denoted before the call. |
| `Dict.Dictionary.Drop` | redis/src/dict.c:455-494 | dictDelete on the bucket arrays is the model's delete; unlinking walks the list with a trailing pointer. |
| `Dict.SafeIterator.GetNext` | redis/src/dict.c:586-615 | The loop of dictNext, with the saved successor and the crossing to the new table, is the model's dictNext. |
| `Dict.SafeIterator.Release` | redis/src/dict.c:617-622 | Releasing gives back the freeze exactly if it was taken. |
| `Decimal.ParseIsInverse` | redis/src/util.c:264-325 | string2ll reads exactly the canonical forms of exactly the 64-bit integers: no plus sign, leading zero, -0 or overflow. |
| `Decimal.Ll2String` | redis/src/util.c:224-259 | ll2string prints every 64-bit integer, the smallest included, in canonical form. |
| `Decimal.String2Ll` | redis/src/util.c:264-325 | The digit loop with its overflow checks accepts what the parse function accepts and nothing else. |
| `Wire.CatAppendOnlyGenericCommand` | redis/src/aof.c:335-358 | The command is appended as a count header and length-prefixed arguments. |
| `Protocol.StepExtends` | redis/src/networking.c:1012-1142 | More input never changes a parsing step that can already be taken. |
| `Protocol.DrainResumes` | redis/src/networking.c:1144-1183 | Parsing what has arrived and then the rest is parsing it all at once. |
| `ProtocolRuns.ProcessIsDrain` | redis/src/networking.c:1024-1067 | The size limit decides only whether the connection is given up, never which commands are found before. |
| `ProtocolRuns.SplitIndependence` | redis/src/networking.c:1012-1183 | However a stream, valid or not, is cut into reads: unless the limit strikes, the commands, the error and the bytes left over are those of the stream in one piece. |
| `ProtocolRuns.ErrorIsFinal` | redis/src/networking.c:1001-1010 | Once in error a connection executes nothing more. |
| `ProtocolRuns.CommandsArrive` | redis/src/networking.c:1012-1183 | Any list of sendable commands, written as the log writes them and delivered in any portions, is executed as that list, with nothing left over, if and only if the size limit never strikes. |
| `ProtocolRuns.SmallBuffersNeverClog` | redis/src/networking.c:1024-1027 | Reads that never bring the buffer over the limit cannot be struck by it. |
| `ProtocolRuns.LimitStrikes` | redis/src/networking.c:1064-1067 | The limit is measured on the whole buffer: where several reads come between two rounds of parsing, as for a blocked client, a valid command with a 64 KB argument up to the next `$` is refused. |
| `ProtocolLines.WordsOfLine` | redis/src/networking.c:976-995 | A line is split into exactly the words that make it up, with any number of spaces around them and one at least between two: none is empty or contains a space, and none is lost. |
| `ProtocolLines.InlineArrives` | redis/src/networking.c:960-997 | Any words with spaces around them, without NUL and CR LF and not starting with '*', followed by CR LF and delivered in any portions to an idle client, are executed as exactly these words with nothing left over if and only if no buffer is over the limit before the line is complete; none is where the line is shorter. |
| `ProtocolLines.RequestsArrive` | redis/src/networking.c:1144-1183 | Streams of both kinds, commands as programs send them and lines as people type them, blank ones included, are executed in order with nothing left over, in whatever portions, unless the limit strikes. |
| `ProtocolLines.CountIsChecked` | redis/src/networking.c:1031-1057 | A number of arguments that is not the printed form of a number of at most 1048576 closes the connection with nothing executed; one that is not positive is passed over. |
| `ProtocolLines.LengthIsChecked` | redis/src/networking.c:1069-1085 | Where an argument is due, anything but '$' and the printed form of a number from 0 to 512 MB closes the connection. |
| `ProtocolReads.DrainShort` | redis/src/networking.c:1012-1142 | However much of a valid stream has come in, what is left unread is less than one argument, or part of a header line. |
| `ProtocolReads.SomethingAsked` | redis/src/networking.c:1193-1206 | After every round of parsing at least one byte is asked for: 16384, or what is missing of a big argument. |
| `ProtocolReads.NeverStruck` | redis/src/networking.c:1193-1206 | A client that is parsed after every read, each at most what readQueryFromClient asks for (16 KB, and nothing past the end of a big argument), never meets the limit on a valid stream. |
| `ProtocolReads.CommandsAlwaysArrive` | redis/src/networking.c:1185-1251 | So every list of sendable commands, cut into such reads in any way, is executed as that list, with nothing left over. |
| `ProtocolClient.Client.InlineBuffer` | redis/src/networking.c:960-997 | An inline command is split at spaces and removed from the buffer, and what remains is processed as the model says; ProtocolLines says what that means for what is executed. |
| `ProtocolClient.Client.ReadCount` | redis/src/networking.c:1018-1057 | The header of a command: its count, a protocol error, or a wait, with the buffer position tracked. |
| `ProtocolClient.Client.ReadLength` | redis/src/networking.c:1060-1103 | The length line of an argument; a big argument is moved to the front of the buffer. |
| `ProtocolClient.Client.ReadArgument` | redis/src/networking.c:1105-1132 | The argument itself; a big one that fills the buffer is taken without a copy. |
| `ProtocolClient.Client.MultibulkBuffer` | redis/src/networking.c:1012-1142 | The loop over the arguments finds what the model finds, and reports whether a command is complete. |
| `ProtocolClient.Client.InputBuffer` | redis/src/networking.c:1144-1183 | The buffer, the position and the client's fields end up as the model says; the assertion that a header starts with `*` cannot fail. |
| `ProtocolClient.Client.ReadQuery` | redis/src/networking.c:1193-1250 | One read: as many bytes as the socket gives, at most as many as are asked for, appended and parsed. |
| `ProtocolClient.Client.Serve` | redis/src/networking.c:1185-1251 | A connection served read after read, each within what is asked for, loses no byte of the stream, ends up where the model says, and gets on with every read that gives something. |
| `Strtol.NumberOfPrint` | redis/src/aof.c:371-390 | A printed number is read back by strtol, whatever follows it but a digit. |
| `Strtol.GetLongLongOfPrint` | redis/src/object.c:474-496 | What the server prints it also accepts as a number. |
| `Strtol.GetLongLongIs` | redis/src/object.c:474-496 | A text is taken for a number if and only if it is a sign or none and decimal digits that stand for a 64-bit integer, up to its end or a NUL; the empty text counts as 0. |
| `Commands.Names` | redis/src/redis.c:119-258 | The names the server itself writes to the log are those of the commands they should be, case aside. |
| `Commands.LookupIsName` | redis/src/redis.c:1546-1548 | A command is found by its name in letters of either case, and by nothing else. |
| `Effects.TimelessEffect` | redis/src/redis.c:1599-1657 | Only SET with a time to live and the EXPIRE family depend on the clock or on whether the server is loading. |
| `CommandLaws.SetNxLaw` | redis/src/t_string.c:127-130 | SETNX goes through if and only if the key is not there (not in the dictionary, or past its expire time), and leaves it with the value and no expire time, every other key as it was. |
| `CommandLaws.SetExLaw` | redis/src/t_string.c:132-140 | SETEX and PSETEX go through if and only if the time to live is a positive number, and set the value and the expire time now + ttl, in seconds and in milliseconds. |
| `CommandLaws.SetLaw` | redis/src/t_string.c:65-125 | SET with any options: with NX it goes through if and only if the key is not there, with XX if and only if it is, and never with a time to live that is no positive number; it leaves the key with the value, and no expire time or the one that the last EX or PX asks for, and every other key as it was. |
| `CommandLaws.SetSyntax` | redis/src/t_string.c:117-120 | SET with anything but options behind the value changes nothing. |
| `CommandLaws.GetSetLaw` | redis/src/t_string.c:161-166 | GETSET stores its second argument, without an expire time, if and only if the key holds nothing else than a string. |
| `KeyLaws.ReadLaw` | redis/src/t_string.c:142-159 | Commands that only read change nothing and are not logged, but that an expired key they look at goes. |
| `KeyLaws.DelLaw` | redis/src/db.c:241-252 | DEL takes out exactly the keys it names, expired or not, and is logged if there was one. |
| `KeyLaws.RenameLaw` | redis/src/db.c:364-403 | RENAME goes through if and only if the first key is there and the second is another, RENAMENX if besides the second is not there; the value takes its expire time along, and what the target had is gone. |
| `KeyLaws.MoveLaw` | redis/src/db.c:405-446 | MOVE goes through if and only if there is another database of that number, the key is there and is not there in the other; the value leaves its expire time behind. |
| `KeyLaws.PersistLaw` | redis/src/db.c:631-645 | PERSIST drops the expire time, passed or not, and is logged if there was one. |
| `KeyLaws.ExpireLaw` | redis/src/db.c:548-606 | The EXPIRE family, in seconds or milliseconds, from now or absolute: a time that has come deletes the key, any other becomes its expire time, if and only if the key is there and the time is a number. |
| `KeyLaws.FlushLaw` | redis/src/db.c:211-239 | FLUSHDB empties its database and FLUSHALL all; the others stay. |
| `KeyLaws.RPushLaw` | redis/src/t_list.c:297-329 | RPUSH puts its items at the end of the list in order, or makes it, if and only if the key holds nothing else; the expire time stays. |
| `KeyLaws.SAddLaw` | redis/src/t_set.c:250-272 | SADD unites the set with its members, or makes it, if and only if the key holds nothing else, and is logged if the set has grown. |
| `KeyLaws.HMSetLaw` | redis/src/t_hash.c:496-514 | HMSET gives each field the last value named for it, existing ones included, and leaves all others, if and only if fields and values pair up and the key holds nothing else than a hash. |
| `BitLaws.SetBitLaw` | redis/src/bitops.c:106-158 | SETBIT goes through if and only if the offset is from 0 to 2^32 - 1, the bit 0 or 1, and the key holds nothing else than a string; the string is lengthened no further than needed, the one bit is as asked, and every other reads as before. |
| `BitLaws.FirstBits` | redis/src/bitops.c:130-143 | The first bit of a byte is its highest. |
| `BitLaws.BitOpLaw` | redis/src/bitops.c:188-355 | BITOP: the result is as long as the longest source, and each of its bits is AND, OR, XOR or NOT of the bits of all sources, keys that are not there counting as empty; it replaces the target and its expire time, or the target goes where all sources are empty. |
| `BitLaws.BitOpWrong` | redis/src/bitops.c:218-245 | Where a source holds something else than a string nothing is stored; only expired sources before it go. |
| `BitLaws.BitOpSyntax` | redis/src/bitops.c:198-216 | A word that names no operation, or NOT with several sources, changes nothing. |
| `CallReplay.EffectOk` | redis/src/db.c:93-169 | Every command keeps expire times on existing keys only and no empty collection, and one that does not count as a change makes none. |
| `CallReplay.LookedExplained` | redis/src/db.c:509-535 | Whatever a command looks up, the DELs propagated on the way account for exactly the keys that expired. |
| `CallReplay.EffectFed` | redis/src/aof.c:397-445 | A change is fed in a form whose loading makes the same change at any later time, relative expire times having become absolute. |
| `CallReplay.CallReplays` | redis/src/redis.c:1599-1657 | One call, exactly: what it feeds, loaded at time t into the databases it started from, gives the databases it left if and only if it is not a successful SET with EX or PX, or t is the millisecond in which it ran. |
| `CallReplay.RelativeSetFed` | redis/src/t_string.c:91-125 | A successful SET with EX or PX is fed as it stands and so is rebuilt only in that very millisecond. |
| `CallReplay.TransactionReplays` | redis/src/multi.c:114-182 | A whole transaction, SELECTs and lazy expiries in it included, is rebuilt by what it feeds between MULTI and EXEC. |
| `ExecLaws.ExecLaw` | redis/src/multi.c:114-182 | EXEC calls every queued command once, in the order of the queue, each in the database selected by then and on what the one before it has left; the databases are what the last leaves. |
| `Propagation.FeedRuns` | redis/src/aof.c:397-411 | With the SELECTs that feeding inserts, every record runs in its own database, as long as the log and the server agree on the selected one or a SELECT is forced. |
| `Propagation.RewrittenRunnable` | redis/src/db.c:570-581 | The only argument vector a command leaves changed is the DEL of an expire time in the past. |
| `LogFile.CommandParses` | redis/src/aof.c:536-555 | A command written to the log is read back as itself, whatever follows it, with header lines read through a 128-byte buffer. |
| `LogFile.LogParses` | redis/src/aof.c:518-578 | A log is read back as the list of commands written. |
| `Rewrite.ChunkedRuns` | redis/src/aof.c:624-724 | Collections written in commands of at most 64 items are rebuilt whole. |
| `Rewrite.ValuesAreChunked` | redis/src/aof.c:624-724 | Every command but the last of a collection carries exactly 64 items, members or fields, and the last no more. |
| `Rewrite.DumpRestores` | redis/src/aof.c:860-968 | A rewritten log, loaded at any time, rebuilds every database with its expire times, in whatever order keys and elements were iterated, except for the keys already past their expiry. |
| `Rewrite.NothingSkipped` | redis/src/aof.c:914-915 | The rewrite loses nothing exactly when no key is past its expire time. |
| `LogMachine.StepKeeps` | redis/src/aof.c:168-222 | Calls, transactions, expiries, evictions, flushes, rewrites, their success or failure, and switching the log on and off keep: file ++ buffer rebuilds the databases, and the child's file ++ rewrite buffer does too while a child runs. |
| `LogMachine.LogRebuilds` | redis/src/aof.c:397-578 | From an empty server, after any run with the log on: the file and the buffer, loaded at any time, are exactly the live databases with their expire times. |
| `LogMachine.RewriteHandsOver` | redis/src/aof.c:1106-1288 | A rewrite that succeeds leaves a file that alone is the dataset; one that fails with the log on leaves the old file and buffer being it. |
| `LogDisk.FileGrows` | redis/src/aof.c:242-333 | The file only grows, and only by a flush or a stop, but for a successful rewrite; what is not on disk yet is kept in order behind what is. |
| `LogDisk.FlushedIsDurable` | redis/src/aof.c:168-196 | After any run that ends in a flush, or in a stop of a log that was on, the file alone, loaded at any time, is exactly the live databases. |
| `LogDisk.RewriteBegins` | redis/src/aof.c:1012-1060 | A rewrite begins whenever none is under way, and its child's file alone is the dataset. |
| `LogLimits.ForkIsExact` | redis/src/aof.c:914-915 | What a rewrite child writes is the dataset as of the fork if and only if no key is past its expire time when it starts. |
| `LogLimits.SkippedKeyIsLost` | redis/src/db.c:631-645 | A key past its expiry that the rewrite skips and PERSIST then keeps: after the handover the server holds it for good and the log does not. |
| `LogDrift.MissingIsUnseen` | redis/src/db.c:509-535 | Databases that lack only keys past their expire time cannot be told apart by a client: a key that is looked up, that no PERSIST has revived, and whose time is not counted from the loading, is found alike in both. |
| `LogDrift.OnlyTimesDiffer` | redis/src/t_string.c:65-89 | Where no key is lacking there are, but for revived keys, the same keys with the same values, the same of them have expire times, and only the times last set by SET with EX or PX differ, by the time between that SET and the loading. |
| `LogDrift.LookedSettles` | redis/src/db.c:58-83 | Every command but PERSIST looks up, and so expires, whatever its effect depends on before it takes effect: nothing it reads, but for revived keys, can differ between the server and a log that lacks expired keys. |
| `LogDrift.EffectBehind` | redis/src/redis.c:1599-1657 | What a command changes in the databases it also changes in those that lag behind them, which afterwards differ in nothing but expired keys, the expire times of SET with EX or PX, and revived keys; RENAME takes either mark along, SET and DEL settle a revived key, and what is made from one is one. |
| `LogDrift.ChangesNamed` | redis/src/db.c:93-158 | A command changes no key but those it names, and gives none but an existing key an expire time. |
| `LogDrift.CallKeepsBehind` | redis/src/db.c:631-645 | One call, exactly, provided that no sum of the clock and a time to live set by SET overflows: what it feeds, loaded at time t into databases that lag, leaves them lagging no further than the marks it leaves say; and a key must be marked as revived if and only if the call is a PERSIST of a key that they lack. |
| `LogDrift.RevivesNothing` | redis/src/db.c:631-645 | A PERSIST of a key that was not past its expire time when the rewrite started revives nothing, and none does while no rewrite has skipped a key. |
| `LogRuns.TransactionKeepsBehind` | redis/src/multi.c:114-182 | The same of a whole transaction, for what it feeds between MULTI and EXEC. |
| `LogRuns.RewriteIsBehind` | redis/src/aof.c:914-915 | What a rewrite rebuilds lacks nothing of the databases but keys that the server looks upon as expired, if and only if no expire time is negative. |
| `LogRuns.OverflowIsNegative` | redis/src/t_string.c:65-89 | PSETEX makes an expire time negative, which a rewrite takes for past and the server for none, exactly when its sum with the clock overflows. |
| `LogRuns.StepTrails` | redis/src/aof.c:168-222 | Every event keeps it, rewrites that start with expired keys, PERSIST of such keys and SET with EX or PX included: file ++ buffer, and the child's file ++ rewrite buffer, rebuild databases that differ from the live ones only as far as is recorded for each. |
| `LogRuns.LogTrails` | redis/src/aof.c:397-578 | From an empty server, after any run in which no time to live overflows, no expire time is negative at a rewrite, and the clock does not go back behind a rewrite that skipped keys: the log, loaded at time t, gives the live databases, but for keys held past their expire time, for those of them that PERSIST has kept since and what was made from these, and with the expire times of SET with EX or PX later by as much as t is. |
| `LogRuns.SoundRunIsFair` | redis/src/aof.c:397-578 | A run without SET EX and PX and without expired keys at the start of a rewrite meets these conditions for every t, and its logs differ in nothing. |
| `LogRuns.HandoverTrails` | redis/src/aof.c:1106-1288 | The same of the file that a successful rewrite hands over: only times set by SET with EX or PX, and keys revived, since it started are still marked. |
| `AofRewrite.RewriteItems` | redis/src/aof.c:624-724 | The loop of rewriteListObject and rewriteSetObject, with its counter of items per command, writes the chunked commands. |
| `AofRewrite.RewriteHash` | redis/src/aof.c:827-851 | rewriteHashObject writes fields with their values in chunks of 64 pairs. |
| `AofRewrite.RewriteEntry` | redis/src/aof.c:914-942 | One key: skipped if past its expiry, else its value and a PEXPIREAT if it has an expire time. |
| `AofRewrite.RewriteAppendOnlyFile` | redis/src/aof.c:860-968 | The whole file: a SELECT and the keys of each database that is not empty. |
| `AofLoad.LoadAppendOnlyFile` | redis/src/aof.c:489-602 | The loading loop parses and runs command by command, and stops for a format error, an unknown command or a log that ends inside MULTI; where the original reads outside its memory the model stops too. |
| `Aof.AppendOnlyFile.RewriteBufferAppend` | redis/src/aof.c:92-129 | The block list grows by exactly the bytes, every block but the last being full. |
| `Aof.AppendOnlyFile.RewriteBufferSize` | redis/src/aof.c:79-89 | The size computed from the number of blocks and the last one is that of all bytes. |
| `Aof.AppendOnlyFile.RewriteBufferWrite` | redis/src/aof.c:134-154 | All blocks are written in order. |
| `Aof.AppendOnlyFile.FeedAppendOnlyFile` | redis/src/aof.c:397-445 | SELECT if needed, translation of expire times, and the bytes into the buffer when the log is on and into the rewrite buffer when a child runs. |
| `Aof.AppendOnlyFile.Flush` | redis/src/aof.c:275-333 | A flush that is not postponed and whose write succeeds moves the buffer to the file. |
| `Aof.AppendOnlyFile.RewriteBackground` | redis/src/aof.c:1012-1060 | A rewrite starts unless one runs, and forces a SELECT in what is fed next. |
| `Aof.AppendOnlyFile.StartAppendOnly` | redis/src/aof.c:200-222 | Switching on waits for a rewrite, which is started. |
| `Aof.AppendOnlyFile.StopAppendOnly` | redis/src/aof.c:168-196 | Switching off flushes, forgets the selected database and kills a running child with its buffer. |
| `Aof.AppendOnlyFile.RewriteDone` | redis/src/aof.c:1106-1288 | The handover: difference appended, file renamed, buffer dropped and the log turned on, only if every step succeeded. |
| `Db.RedisServer.ExpireIfNeeded` | redis/src/db.c:509-535 | A lazy expiry deletes the key and feeds the DEL before the command goes on. |
| `Db.RedisServer.SetGenericCommand` | redis/src/t_string.c:65-88 | SET and its family on the server's fields: time to live parsed first, NX and XX looked up, value and expire time set, dirty counted, as the function says of which CommandLaws states what it comes to. |
| `Db.RedisServer.RenameGenericCommand` | redis/src/db.c:364-395 | RENAME moves the value with its expire time and drops the old target's. |
| `Db.RedisServer.MoveCommand` | redis/src/db.c:405-446 | MOVE moves the value and loses its expire time; it refuses a target that exists. |
| `Db.RedisServer.PersistCommand` | redis/src/db.c:631-645 | PERSIST drops the expire time without looking whether it has passed. |
| `Db.RedisServer.DelCommand` | redis/src/db.c:241-252 | DEL deletes what exists and counts it, without expiring first. |
| `Db.RedisServer.ExpireGenericCommand` | redis/src/db.c:548-590 | A past time deletes the key and turns the command into a DEL, else the expire time is set. |
| `Db.RedisServer.SetBitCommand` | redis/src/bitops.c:106-158 | SETBIT grows the string with zeros and sets the one bit. |
| `Db.RedisServer.BitOpCommand` | redis/src/bitops.c:188-355 | BITOP looks up sources until one is no string, stores the result or deletes the target. |
| `Db.RedisServer.PushCommand` | redis/src/t_list.c:297-321 | RPUSH appends, or makes the list. |
| `Db.RedisServer.SAddCommand` | redis/src/t_set.c:250-272 | SADD adds the members that are missing and counts only those. |
| `Db.RedisServer.HMSetCommand` | redis/src/t_hash.c:496-514 | HMSET sets the fields pair by pair. |
| `Db.RedisServer.FlushDbCommand` | redis/src/db.c:211-217 | FLUSHDB empties one database and counts the keys it removed. |
| `Db.RedisServer.CallCommand` | redis/src/redis.c:1599-1657 | call on the live server: lookups, effect, and propagation exactly if something changed, all the way to the log's bytes. |
| `Db.RedisServer.DropKey` | redis/src/redis.c:2556-2566 | An eviction or active expiry feeds the DEL and deletes the key. |
| `Db.RedisServer.ExecCommand` | redis/src/multi.c:114-182 | EXEC runs the queue, with MULTI fed before the first command that is not read-only and EXEC after the last. |
| `CheckAofModel.ReadArgsReads` | redis/src/redis-check-aof.c:124-143 | The tool reads every argument of a whole command and follows MULTI and EXEC. |
| `CheckAofModel.CutCommand` | redis/src/redis-check-aof.c:117-159 | A command cut short at any byte ends the tool's reading there, and the loader refuses it. |
| `CheckAofTheorem.KeepsTheMost` | redis/src/redis-check-aof.c:117-159 | A log the server wrote, cut anywhere: the tool keeps the longest part that ends between two commands with no transaction open. |
| `CheckAofTheorem.RepairedLoads` | redis/src/redis-check-aof.c:117-159 | The repaired file loads, as the commands kept whole, and nothing longer of what the crash left could. |
| `CheckAofKept.ReadIsParsed` | redis/src/redis-check-aof.c:117-159 | What the tool reads to its end the loader can read if and only if every count header is between 1 and 2^31 - 1, and both see the same MULTI and EXEC. |
| `CheckAofKept.ProcessReads` | redis/src/redis-check-aof.c:117-159 | For any bytes, the position the tool returns is the end of something it reads whole with no transaction open, or where the open one began. |
| `CheckAofKept.KeptParses` | redis/src/redis-check-aof.c:117-159 | For every file, damaged in whatever way: what the tool keeps is a well-formed log if and only if every count it accepted is between 1 and 2^31 - 1. |
| `CheckAofKept.KeptLoads` | redis/src/aof.c:542-566 | And it loads if and only if, besides, the loader knows and can run every command in it. |
| `CheckAofKept.HeaderAlone` | redis/src/aof.c:542-544 | A lone header with a count of 0 or less is kept whole by the tool and refused by the loader. |
| `CheckAof.File.ReadLong` | redis/src/redis-check-aof.c:68-80 | A prefixed number and its CR LF, read through the 128-byte buffer; the cursor moves past it. |
| `CheckAof.File.ReadString` | redis/src/redis-check-aof.c:93-111 | An argument and the CR LF after it; a negative length, for which the original leaves its buffer, is a failure. |
| `CheckAof.Process` | redis/src/redis-check-aof.c:117-159 | The loop over the file finds the safe length of the model. |
| `CrashRecovery.StepCloses` | redis/src/aof.c:397-445 | Every event of the server leaves whole commands with every transaction closed, in the log and in what a rewrite child and its buffer hold. |
| `CrashRecovery.CallPlain` | redis/src/redis.c:1599-1657 | Nothing that a call outside EXEC feeds is a MULTI or an EXEC. |
| `CrashRecovery.TransactionNests` | redis/src/multi.c:106-182 | A transaction feeds one MULTI and one EXEC around its commands, or neither. |
| `CrashRecovery.CrashIsRepaired` | redis/src/redis-check-aof.c:117-159 | After any such run with the log on, cut the log at any byte: the tool keeps a length that loads, nothing longer would, and if nothing was cut the result is the live databases, but for what the log rebuilds differently. |
| `TornFeeds.CommandPart` | redis/src/aof.c:397-445 | Of the commands that one call feeds, cut before their end and loaded into databases that lag, a crash leaves nothing but deletions of keys that the call found expired, or else a SETEX has set its key without an expire time. |
| `TornFeeds.TransactPart` | redis/src/multi.c:106-182 | Of a transaction cut before its end it leaves nothing but deletions of keys that commands before the MULTI found expired. |
| `TornFeeds.EventPart` | redis/src/aof.c:397-445 | The same of every event, cut anywhere: what can be loaded of the commands written for it gives databases that lag behind those after it, or behind those before it but for these two exceptions. |
| `CrashStates.CrashGoesBack` | redis/src/redis-check-aof.c:117-159 | After any run as for LogRuns.LogTrails a crash takes the databases back to an earlier moment: what the tool keeps of the log cut at any byte, loaded at time t, gives those of the last moment at which the log ended within these bytes, but for what the log rebuilt differently then, and, if it did not end there, but for a part of the next event. |
| `CrashStates.CrashGoesBackExactly` | redis/src/redis-check-aof.c:117-159 | Where a run uses no SET with EX or PX and no rewrite starts with expired keys, it gives them exactly, at any time of loading. |
| `CrashStates.SetExIsTorn` | redis/src/aof.c:416-423 | SETEX is written as two commands, and there is a cut between them after which its key is there without its expire time. |
| `ReplyStream.QueueIsSaid` | redis/src/networking.c:144-270 | In any interleaving of replies, reservations, lengths and partial writes, what was sent and is still owed is exactly what was said, each length at its reserved place. |
| `ReplyStream.SettledIsText` | redis/src/networking.c:382-415 | Once every reservation has its length there is no hole left, so all of it can be sent. |
| `ReplyClient.Client.AddReply` | redis/src/networking.c:277-311 | An object's text is appended to what is owed, in the static buffer, in the last object or as a new node; for every object there is, those who hold it besides the list keep their references and find its text unchanged. |
| `ReplyClient.Client.AddReplyString` | redis/src/networking.c:327-331 | The same for a plain string, references and texts included. |
| `ReplyClient.Client.AddReplyInteger` | redis/src/networking.c:290-307 | The same for an integer-encoded object, whose digits are printed, references and texts included. |
| `ReplyClient.Client.CloseAfterReply` | redis/src/networking.c:1001-1010 | Once the connection is to be closed what is owed is still owed, and no reply is added to it. |
| `ReplyClient.Client.AddReplyToBuffer` | redis/src/networking.c:162-177 | Text goes to the static buffer if and only if the list is empty and there is room, or is dropped because the connection is closing. |
| `ReplyClient.Client.DupLastObjectIfNeeded` | redis/src/networking.c:144-156 | The last object of the list is made the list's own before it may grow, and the list gives up a reference together with the place. |
| `ReplyClient.Client.AddDeferredMultiBulkLength` | redis/src/networking.c:382-389 | A hole is put after everything said so far. |
| `ReplyClient.Client.SetDeferredMultiBulkLength` | redis/src/networking.c:392-415 | The length fills the hole and is glued to the text after it; nothing else of what is owed changes, and holders of objects notice nothing. |
| `ReplyClient.Client.SendReplyToClient` | redis/src/networking.c:863-947 | For any numbers of bytes the socket takes: what is sent moves from owed to sent in order; it is the sum, over the writes, of the smaller of what the socket takes and what is left of the piece; the call ends only when nothing is owed, the socket takes no more, or more than 64 KB went out and memory is not short, and no later; if the socket takes anything something goes out. |
| `ReplyRuns.SaidIsSpeech` | redis/src/networking.c:382-415 | What the operations on the stream say is what the commands said, each length in the place where it was reserved. |
| `ReplyRuns.Obey` | redis/src/networking.c:277-415 | One order, be it a text, a number, an object, a length reserved or supplied, or a write: the buffer, the list and its objects change as the stream does, and no holder of any object loses a reference or its text. |
| `ReplyServer.BesideAt` | redis/src/networking.c:144-156 | Where one client's list has changed, an object in another's list still has a reference for each of its places there, someone besides the first list holds it, and a hole stays out of reach. |
| `ReplyServer.Give` | redis/src/networking.c:277-415 | An order for one client leaves what all others are owed, although their lists share objects with its list, and leaves every holder its references and texts. |
| `ReplyServer.Count` | redis/src/object.c:224-246 | References taken and given up by others leave what every client is owed. |
| `ReplyServer.OwnIsUnlisted` | redis/src/bitops.c:134-140 | An object whose only reference a holder has is in no client's list. |
| `ReplyServer.Rewrite` | redis/src/bitops.c:134-140 | So its text can be changed in place, and no client notices. |
| `ReplyValues.AlterValue` | redis/src/bitops.c:124-145 | A value is changed in place if nobody else has the object, and else in a copy: the key has the new value, what every client is owed stays, and whoever else holds the object finds its text unchanged. |
| `ReplyValues.Put` | redis/src/db.c:93-110 | A key takes one reference to its new object and gives up the one to its old, which no client notices. |
| `ReplyValues.Serve` | redis/src/networking.c:277-415 | Any interleaving of orders for any number of clients, with values replaced, shared, removed and changed in between: each client's buffer and list follow its own orders only, with the values of that moment, and each write that the socket takes brings it further. |
| `ReplyValues.Talk` | redis/src/networking.c:863-947 | From new clients, whatever is said to them and whatever their sockets take: what has been sent to each is the beginning of what was said to it, with the values of that moment; all of it when nothing is left to write, and all of it once the socket has taken something as often as bytes were said; every key ends with its last value; and every reference that others have they still have, to an unchanged text. |
| `WatchModel.WatchedIsHistory` | redis/src/multi.c:202-257 | A client's list holds exactly the keys it asked to watch since it last gave up its keys. |
| `WatchModel.WatchedOnce` | redis/src/multi.c:206-213 | No key is listed twice. |
| `WatchModel.DirtyIsHistory` | redis/src/multi.c:261-305 | A client has DIRTY_CAS exactly when, since its last EXEC, DISCARD or UNWATCH, a key it was then watching was touched, or existed when its database was flushed. |
| `WatchModel.MultiIsHistory` | redis/src/multi.c:86-102 | A client is inside MULTI exactly if the last of its events to say so was MULTI. |
| `WatchModel.QueueIsHistory` | redis/src/multi.c:56-84 | The queue and the error mark are those of the commands that came, or were refused, since the MULTI that opened the transaction. |
| `WatchModel.ExecRunsUnspoiled` | redis/src/multi.c:114-182 | What EXEC does, by history alone: an error outside MULTI; an abort exactly if a command was refused since MULTI; else nil exactly if a watched key was touched or flushed; else exactly the commands queued since MULTI. |
| `WatchedKeys.ChangesAreSignalled` | redis/src/db.c:118-127 | Every command that stays in its database, but PERSIST and the flushes, calls signalModifiedKey for each key whose value or expire time it changes. |
| `WatchedKeys.SignalledAre` | redis/src/db.c:199-201 | And nothing else is signalled: a command that does not count as a change signals nothing, and one that does signals exactly its key, both keys of RENAME, the target of BITOP, or the keys that DEL found. |
| `WatchedKeys.ChangeIsUntold` | redis/src/db.c:405-446 | Exactly: a key changes without a signal for it, or a flush of a database it is in, if and only if it loses its expire time to PERSIST, is the source or the target of a MOVE that succeeds, is evicted, or expires and is not signalled for another reason. |
| `WatchedKeys.WatchProtects` | redis/src/multi.c:114-182 | What WATCH is for: if EXEC is to run a transaction, each watched key has the value and expire time it had when it was watched, unless one of these untold changes hit this very key in between. |
| `WatchedKeys.UntoldIsMissed` | redis/src/multi.c:114-182 | A new client watches a key and sends MULTI, and one thing happens to the keys: EXEC runs over a changed key if and only if it is an untold change of that key. |
| `WatchedKeys.PersistIsMissed` | redis/src/db.c:631-645 | Such a run: another client makes a watched key permanent, and EXEC runs all the same. |
| `WatchedKeys.GoesIsClientAfter` | redis/src/multi.c:202-305 | The client followed there is the one whose flags are history. |
| `WatchIndex.Server.WatchForKey` | redis/src/multi.c:202-229 | Watching adds the key to the client's list and the client to the key's list, once; the two go on mirroring each other. |
| `WatchIndex.Server.UnwatchAllKeys` | redis/src/multi.c:233-257 | Unwatching empties the client's list and takes it out of the index, with no empty entry left. |
| `WatchIndex.Server.TouchWatchedKey` | redis/src/multi.c:261-278 | Exactly the clients that watch the key are flagged. |
| `WatchIndex.Server.TouchWatchedKeysOnFlush` | redis/src/multi.c:284-305 | Exactly the clients that watch an existing key of a flushed database are flagged. |
| `WatchIndex.Server.CreateClient` | redis/src/networking.c:54-115 | A new client watches nothing and is in no transaction. |
| `WatchIndex.Server.QueueMultiCommand` | redis/src/multi.c:56-70 | A command is queued as the last. |
| `WatchIndex.Server.FlagTransaction` | redis/src/multi.c:81-84 | A refused command marks the transaction, if one is open. |
| `WatchIndex.Server.Exec` | redis/src/multi.c:114-182 | EXEC decides as the model does, and gives up the queue, the flags and all watches. |
| `WatchIndex.Server.Discard` | redis/src/multi.c:95-102 | DISCARD gives them up too. |
| `WatchIndex.Server.FreeClient` | redis/src/networking.c:623-713 | A client that goes leaves no trace in the index. |
| `RdbFormat.LenLoads` | redis/src/rdb.c:86-139 | Every length below 2^32 - 1 is read back from its form, whatever follows, and the form is the shortest of one, two and five bytes. |
| `RdbFormat.IntegersOnly` | redis/src/rdb.c:200-214 | The strings stored as integers are exactly the 32-bit integers as they print. |
| `RdbFormat.SignedBytes` | redis/src/rdb.c:170-195 | The little-endian bytes of an integer of 8, 16 or 32 bits stand for it, negative ones included. |
| `RdbFormat.IntegerLoads` | redis/src/rdb.c:145-195 | A string stored as an integer is read back as the same string, from the shortest of two, three and five bytes. |
| `RdbFormat.LzfLoads` | redis/src/rdb.c:216-270 | A compressed string is read back, consuming what was written. |
| `RdbFormat.VerbatimLoads` | redis/src/rdb.c:274-304 | A verbatim string is read back if and only if its length is below 2^32 - 1, the value that stands for an error. |
| `RdbFormat.SavedLoads` | redis/src/rdb.c:274-363 | Whichever form was chosen and whatever follows, the same string is read back and exactly what was written is consumed. |
| `Rdb.RdbSaveLen` | redis/src/rdb.c:86-110 | The length is written in its form and its size returned. |
| `Rdb.RdbLoadLen` | redis/src/rdb.c:115-139 | A length, or an encoding type, is read in whichever form it has. |
| `Rdb.RdbTryIntegerEncoding` | redis/src/rdb.c:200-214 | strtoll and printing back decide whether a string is stored as an integer. |
| `Rdb.RdbSaveLzfStringObject` | redis/src/rdb.c:216-251 | Compression is used if it gains four bytes, with the scratch byte that the compressor may write; 32 or more equal bytes always are compressed. |
| `Rdb.RdbSaveRawString` | redis/src/rdb.c:274-304 | An integer form is written whenever there is one; otherwise, with compression on and more than 20 bytes, the compressed form whenever the compressor returns one, and else the string itself; 32 or more equal bytes take at most 22 + 3 * (n/264). |
| `Rdb.RdbLoadIntegerObject` | redis/src/rdb.c:170-195 | The integer forms are read from the stream byte by byte. |
| `Rdb.RdbLoadLzfStringObject` | redis/src/rdb.c:253-270 | Both lengths, the compressed bytes and the decompression into a zero-filled string, with each way to fail. |
| `Rdb.RdbGenericLoadStringObject` | redis/src/rdb.c:337-363 | The stream's next string, or the failure, and the cursor after it. |
| `IntsetFormat.DecodeEncode` | redis/src/intset.c:55-94 | A value that fits w bytes is read back from them, negative ones included. |
| `IntsetFormat.EncodeDecode` | redis/src/intset.c:55-94 | Any w bytes are those of the value they stand for. |
| `IntsetFormat.EncodingFits` | redis/src/intset.c:45-52 | The encoding chosen for a value is the narrowest of 2, 4 and 8 bytes that holds it: it fits a width if and only if that is no narrower. |
| `IntsetFormat.HoldsUnique` | redis/src/intset.c:97-109 | The byte image is determined by the values and the width. |
| `IntsetFormat.InsertedIs` | redis/src/intset.c:204-231 | Inserting at the place the search gives keeps the sequence strictly increasing and adds exactly the value. |
| `Intset.WidenCells` | redis/src/intset.c:167-171 | Writing the wide cell i spares the narrow cells before it and the wide ones after it: widening from the back never overwrites an unread value. |
| `Intset.OutsideAll` | redis/src/intset.c:157-165 | A value that needs a wider encoding lies beyond all that are there, on the side of its sign. |
| `Intset.Intset.Search` | redis/src/intset.c:115-154 | Binary search with its two shortcuts: membership, and otherwise the place of insertion. |
| `Intset.Intset.Find` | redis/src/intset.c:254-257 | intsetFind is membership in the abstract set. |
| `Intset.Intset.UpgradeAndAdd` | redis/src/intset.c:157-180 | Widening in the same buffer puts the new value at the right end and keeps all others, unless the cells would take 4 GB: exactly then the size has wrapped and the first cell written falls outside the buffer. |
| `Intset.Intset.MoveTail` | redis/src/intset.c:182-201 | The tail is moved as one block, overlapping itself; its length, computed in 32 bits, is right for every set in memory. |
| `Intset.Intset.Add` | redis/src/intset.c:204-231 | The set gains exactly the value, the image stays strictly increasing and decodable, adding a member changes no byte; the buffer is overrun if and only if the value is new and (length + 1) times the width reaches 2^32. |
| `IntsetFormat.SizeHolds` | redis/src/intset.c:105-109 | The size computed in 32 bits has room for the cells if and only if they take less than 2^32 bytes. |
| `IntsetFormat.SizeWrapsToZero` | redis/src/intset.c:105-109 | Where one more cell reaches 4 GB, with 8-byte cells at the 2^29-th, the size computed is 0. |
| `IntsetFormat.WrappedIsShort` | redis/src/intset.c:157-171 | Where the size for one more cell has wrapped, the last cell and the one before it end outside the buffer. |
| `Intset.Intset.Remove` | redis/src/intset.c:234-251 | The set loses exactly the value, whatever its size. |
| `Intset.SameImage` | redis/src/intset.c:81-94 | Two sets of the same members and encoding are the same bytes, whatever the byte order of their hosts. |
| `Bitops.SpelledWord` | redis/src/bitops.c:257-320 | Bytes loaded as a machine word and stored again are the same bytes. |
| `Bitops.CombineSpelled` | redis/src/bitops.c:257-320 | A bitwise operation on words is the operation on each of their bytes. |
| `Bitops.FastRound` | redis/src/bitops.c:257-320 | One round of the four-words-at-a-time path leaves in 32 bytes the operation over all sources. |
| `Bitops.BitOp` | redis/src/bitops.c:223-336 | For any number and lengths of sources the fast path and the byte path together give the bytewise operation on zero-padded strings of the longest length. |
| `SetBit.SetThenGet` | redis/src/bitops.c:106-185 | After SETBIT, GETBIT finds the written bit as written and every other bit, in the string or beyond its old end, as before. |
| `Popcount.TableCounts` | redis/src/bitops.c:65 | Each of the 256 entries of the table is the number of ones of its index. |
| `Popcount.WordCountIs` | redis/src/bitops.c:77-88 | The parallel count of a 32-bit word, masks, shifts and multiplication, is its number of ones. |
| `Popcount.Popcount` | redis/src/bitops.c:61-94 | The 16-byte loop and the table tail count the ones of any string. |
| `Crc64Table.TableIs` | redis/src/crc64.c:42-171 | Each of the 256 entries is what eight single-bit steps of the reflected register make of its index. |
| `Crc64.ReflectBit` | redis/src/crc64.c:7-9 | Reflection puts bit k where bit 63 - k was. |
| `Crc64.ReflectStep` | redis/src/crc64.c:5-9 | A step of the reflected register is a step of the division by 0xad93d23594c935a9 seen in the mirror. |
| `Crc64.StepXor` | redis/src/crc64.c:42-171 | A step is linear over exclusive or. |
| `Crc64.NextIsEightSteps` | redis/src/crc64.c:178 | The table look-up with the shifted rest is eight steps of the register. |
| `Crc64.RunIsSpecified` | redis/src/crc64.c:173-181 | The table-driven checksum is the bit-by-bit one, from every starting value. |
| `Crc64.Checksum` | redis/src/crc64.c:173-181 | The loop over the bytes computes the checksum that the parameters specify. |
| `Crc64Bursts.RunIsShift` | redis/src/crc64.c:173-181 | Up to eight bytes meet the register as one word, which is then shifted through. |
| `Crc64Bursts.BurstIsSeen` | redis/src/crc64.c:173-181 | Two messages of one length that differ only within eight consecutive bytes have different checksums. |
| `Crc64Bursts.SpecifiedSeesBurst` | redis/src/crc64.c:5-12 | So have they by the bit-by-bit definition. |
| `Crc64Bursts.ResidueIsZero` | redis/src/migrate.c:32-36 | The register is empty exactly after a message followed by its own checksum. |
| `Crc64Bursts.CheckValue` | redis/src/crc64.c:1-11 | The documented check value is that of a register started at 0, and of no other start, the documented all-ones start included. |
| `DumpPayload.CreateDumpPayload` | redis/src/migrate.c:10-37 | The version and the checksum of value and version are appended, lowest byte first, and the result is acceptable. |
| `DumpPayload.VerifyDumpPayload` | redis/src/migrate.c:43-60 | A payload is accepted exactly when it is one that can be created. |
| `DumpPayload.BurstIsRejected` | redis/src/migrate.c:43-60 | No change within eight consecutive bytes, in the value, the version, the checksum or across them, turns one acceptable payload into another. |
| `DumpPayload.OneByteIsRejected` | redis/src/migrate.c:43-60 | Every one-byte change of a created payload is rejected. |
| `BioModel.StepKeeps` | redis/src/bio.c:127-200 | Every step of either thread keeps the locking discipline, the node in hand at the head, the counter exact, and no sleep over a job that nobody is about to signal. |
| `BioModel.RunsInOrder` | redis/src/bio.c:141-191 | In every interleaving the jobs done are the first of those created, in order, each once. |
| `BioModel.AnswerCounts` | redis/src/bio.c:194-200 | The number read is that of the jobs not yet done, and the one done but not yet taken off; reading 0 means that every job created so far has finished. |
| `BioModel.NoLostWakeup` | redis/src/bio.c:127-139 | Whenever the mutex is free, a worker that sleeps has nothing to do. |
| `BioModel.WorkerFinishes` | redis/src/bio.c:141-191 | Left alone by the main thread, the worker's next steps, counted exactly, finish every job and end in sleep over an empty list. |
| `BioModel.NoJobIsStranded` | redis/src/bio.c:127-200 | From every reachable state, wherever both threads are, going on with what they are at leads to a state in which all jobs ever created are done, the one in the making included. |
| `Bio.Queue.constructor` | redis/src/bio.c:94-125 | The queue starts empty with the worker on its way to the mutex. |
| `Bio.Queue.MainThread` | redis/src/bio.c:127-139 | Each piece of bioCreateBackgroundJob and bioPendingJobsOfType between two calls to the thread library does to the shared fields what the model's step does. |
| `Bio.Queue.WorkerThread` | redis/src/bio.c:141-191 | The same for each piece of the worker's loop. |
| `Bio.Queue.Unlink` | redis/src/bio.c:188 | The node is unlinked wherever it is in the list. |
| `EventPort.EitherOr` | redis/src/ae_evport.c:48-67 | A descriptor is registered if and only if it is with the port or pending; never both; and either place has its registered mask, once. |
| `EventPort.AlwaysEitherOr` | redis/src/ae_evport.c:48-67 | In every reachable state, a descriptor is registered if and only if it is with the port or in one pending slot, never both, with its registered mask. |
| `EventPort.CreateKeeps` | redis/src/ae_evport.c:147-176 | Adding an event to a pending or an associated descriptor, or a new one, keeps it. |
| `EventPort.DeleteKeeps` | redis/src/ae_evport.c:178-236 | Deleting keeps it, and aborts only where the port refuses a new association: dissociating never fails. |
| `EventPort.MasksChange` | redis/src/ae.c:117-157 | Registering adds the events to the mask of that descriptor and deleting takes them away, no other mask changing, with the exact conditions of being refused or aborted. |
| `EventPort.PollKeeps` | redis/src/ae_evport.c:238-311 | Polling keeps it: what is reported leaves the port and becomes pending. |
| `EventPort.PortIsRegistered` | redis/src/ae_evport.c:250-265 | Whenever the port is asked for events it holds exactly the registered descriptors with exactly their masks. |
| `EventPort.ReportsAreWanted` | redis/src/ae_evport.c:290-308 | Events are reported only for registered descriptors, and only those asked for. |
| `EventPort.PollFires` | redis/src/ae_evport.c:267-308 | The same of what the port reports: every registered descriptor that something happens to, once, with the events asked for, up to a full batch. |
| `Evport.FiredFits` | redis/src/ae_evport.c:292-300 | What a poll reports fits in the array of fired events, which has one entry per descriptor. |
| `Evport.EventLoop.LookupPending` | redis/src/ae_evport.c:104-113 | The first pending slot of the descriptor, or -1. |
| `Evport.EventLoop.AddEvent` | redis/src/ae_evport.c:147-176 | The pending mask grows, or the port is given the full mask. |
| `Evport.EventLoop.DelEvent` | redis/src/ae_evport.c:178-236 | The pending mask shrinks and its slot is cleared when nothing is left, or the association is replaced or dropped. |
| `Evport.EventLoop.CreateFileEvent` | redis/src/ae.c:117-138 | Registration in the arrays is the model's, and maxfd stays the highest registered descriptor. |
| `Evport.EventLoop.DeleteFileEvent` | redis/src/ae.c:140-157 | The same for deletion, with the search for the new maxfd. |
| `Evport.EventLoop.Restore` | redis/src/ae_evport.c:250-265 | The pending descriptors go back to the port one by one. |
| `Evport.EventLoop.ApiPoll` | redis/src/ae_evport.c:238-311 | A poll is the model's; the fired entries up to the number returned are exactly the registered descriptors that something happened to, each once and with the events asked for, and none is left out unless a full batch is fired. |
| `Rand48.Generator.Next` | redis/src/rand.c:80-93 | The limb arithmetic with its carries is X' = (0x5DEECE66D X + 0xB) mod 2^48. |
| `Rand48.Generator.Lrand48` | redis/src/rand.c:71-74 | The result is the 31 high bits of the new state. |
| `Rand48.Generator.Srand48` | redis/src/rand.c:76-78 | The seed, negative or not, goes to the 32 high bits and 0x330E to the low ones. |
| `Rand48.Mul` | redis/src/rand.c:50-51 | The product's two limbs are right although it passes through a signed 32-bit variable. |
| `Rand48.LimbsAreSuccessor` | redis/src/rand.c:80-93 | The partial products and carries add up to the successor modulo 2^48. |
| `Rand48.SuccessorIsReversible` | redis/src/rand.c:80-93 | Every state is the successor of exactly one state, which a second multiplier computes. |
| `Rand48.IterateApart` | redis/src/rand.c:80-93 | Different states never meet again, however many steps are made. |
| `Rand48.Draws` | redis/src/rand.c:71-78 | After a seed, the k-th call returns the 31 high bits of the k-th state, whatever was generated before. |
| `Rand48Period.SeriesDivides` | redis/src/rand.c:80-93 | 1 + A + ... + A^(n-1) has as many factors of two as n, for the multiplier A of the generator. |
| `Rand48Period.FullPeriod` | redis/src/rand.c:80-93 | From every state the generator visits all 2^48: a state comes back after n steps if and only if 2^48 divides n. |

## Left out

- LzfCompress.Compress: an input of one byte, for which the original looks past its end; the caller in `rdb.c` never passes one.
- LzfCompress.IsMatch: assumes, as the original does, that no object lies in the first 8192 bytes of the address space.
- Rdb.Rio.Read: a read of no bytes fails, as it does on a file; on a memory buffer it would succeed.
- LzfFormat.FirstBlock: the other build variants of the codec (cleared table, aligned access, the fast settings).
- Pqsort.Pqsort: the word-sized and byte-wise swapping of elements; elements are swapped whole.
- DictModel.Slot: chains are sequences of entries; the hash is reduced modulo the power-of-two size where the source masks it, and the limit of LONG_MAX on table sizes is not modelled.
- DictGrowth.OperationMoves: dictReplace is left out, being an add and, where the key is there, a find.
- DictIterator.SafeIteration: unsafe iterators, dictGetRandomKey (its end is a matter of chance), shrinking with dictResize and the time-boxed rehashing of the cron job.
- ProtocolClient.Client.Serve: clients that are blocked or about to be closed, and the hard limit on the query buffer.
- Effects.Effect: commands other than those of Commands.Command, among them sorted sets and float increments (floating point), blocking lists, sorting and scripts.
- Commands.Lookup: renamed commands and command names with a NUL byte.
- Db.RedisServer.CallCommand: the loader runs commands through the function Effects.Effect and not through this class, which is the live server; slaves, MONITOR, statistics and the slow log.
- Db.RedisServer.ExecCommand: changing the log's setting or starting a rewrite from inside a transaction.
- LogRuns.LogTrails: what a log gives after a time to live set by SET with EX or PX has overflowed, or after the clock has gone back behind a rewrite that skipped keys, is not followed any further; nor is what it has under a revived key.
- LogDrift.EffectBehind: evictions, lookups that expire a key, and an EXPIRE into the past leave a revived key marked, although they settle it too.
- LogDrift.CallKeepsBehind: a SET with EX or PX whose time overflows, now or when the log is loaded.
- LogMachine.LogRebuilds: one clock reading per command; SET with EX or PX, and rewrites that start while a key is past its expiry (for both see LogRuns.LogTrails); operating system errors other than a whole step failing.
- AofLoad.LoadAppendOnlyFile: a command of the log with the wrong number of arguments, or an argument of negative length, ends the loading; the original does not check, and goes on outside its memory.
- Aof.AppendOnlyFile.Flush: postponed flushes, fsync and its policies.
- CheckAof.Process: error messages.
- CheckAof.File.ReadString: a negative length, for which the original reads or writes outside the buffer it has allocated; the model stops.
- CrashRecovery.CrashIsRepaired: the file system is taken to keep a prefix of what was written.
- CrashStates.CrashGoesBack: a cut inside what a rewrite had written before it took the log's name.
- ReplyValues.Talk: objects are not freed when their last reference is given up, and memory is not reused.
- ReplyClient.Client.SendReplyToClient: reference counts of other than string objects, the accounting of reply bytes, replies to masters, and closing after the reply.
- RdbFormat.SavedLoads: the objects around the strings: types, collections, expire times, the file's header and checksum.
- Intset.Intset.Add: what happens once the buffer is overrun.
- Intset.Intset.Search: intsetRandom and the blob functions.
- Popcount.Popcount: BITCOUNT's argument ranges.
- DumpPayload.CreateDumpPayload: the serialization of the value itself, which is a parameter.
- BioModel.StepKeeps: the two kinds of jobs share nothing but the main thread, so one queue is modelled; what a job does (close, fsync) is one step; the pending counter is unbounded.
- EventPort.Polled: an interrupted poll is taken to report nothing; handlers, timers and descriptors closed without being deleted.
- Rand48.Generator.Next: platforms whose long has 32 bits, where the product overflows.
- Sockets, the other polling back ends, `config.c`, replication, scripting, sentinel, pub/sub, the list and string libraries, and all Windows branches: they are I/O, rest on code outside the repository, or would only add easy members.
