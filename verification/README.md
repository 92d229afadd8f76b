# go-redis in Dafny

A model of the parts of go-redis that have to be right together: the in-memory store with its expiry,
the append-only log that has to bring it back after a restart, the RESP protocol both the network and
the log are written in, and the connection layer with transactions and pub/sub. Where the repository's
documentation and its Go code disagree, the model follows the code.

## How it is built

The store is specified twice. `Keyspaces` and the `*Store` modules say what each operation does to the
*slot* of a key, that is, to what the type maps and the deadline map hold under it, and what happens to
the key's version. `Storage.MemoryStore` is the store itself, seven maps changed in place with the
loops of the original, and every method is proved to take exactly the step of its specification. In the
same way `Commands` and `Replay` specify dispatching, logging and replaying as functions, and
`Handlers`, `Routing`, `Persistence`, `RespCodec` and `Sessions` are the mutable objects proved against
them. Properties of whole runs are proved about the functions; `Lifecycle` carries the durability results
over to the objects.

Time is an instant in nanoseconds passed to every operation; a dispatched command reads the millisecond
clock once. Integers of the original are 64 bits wide and wrap where the code lets them
(`Prelude.Wrap64`). Scores are exact reals, and `strconv.ParseFloat` and `formatScore` are parameters
(`Commands.Floats`). Matching of glob patterns is a parameter too.

| files | subject |
|---|---|
| Prelude, Decimal | options, 64-bit integers, decimal text, `itoa` |
| Resp, RespTheorems, RespCodec | wire format, round trip and damage, serializer and parser |
| Keyspace, StringStore, HashStore, ListStore, SetStore, ZOrder, ZSetStore, Versioning | the store as functions |
| Requests, Commands, Replay | handlers, router and log interpreter as functions |
| Wording, StringLaws, KeyLaws, HashLaws, ListLaws, SetLaws, ZSetLaws | what every command answers and leaves behind, from its words |
| Conduct, Timeless | what every request keeps; when the time of execution does not matter |
| RecordDecoding, Rewriting, Renaming, Deadlines, ReplayTheorems, Durability, Crashes, WeightedStores, LogLimits | durability: a restart before the deadlines, or after a crash |
| Mirroring, Locality, LateStrings, LateCollections, LateRestart, Revivals | durability: a restart at any time |
| Spelling | single commands written out, for the runs that show where a property fails |
| Watch, Sweeping, Counters, ListTheorems, ZSetTheorems, ZRanges, Cursors | the other results on runs |
| StoreLoops, Combining, Storage, Handlers, Persistence, Routing, Sessions, Lifecycle | the mutable objects |
| Registry, Delivery, Frames, PubSub | pub/sub |

## The main results

*Durability.* The replayable fragment is every modelled command that leaves a record, except SET with
options, ZUNIONSTORE/ZINTERSTORE whose weights or aggregate matter, RENAME whose records do not carry
everything, and a time to live whose deadline is not the one in the record; the last three are exact
conditions (`WeightedStores.Alike`, `Renaming.RenameCarries`, `Deadlines.Outlives`). Of a command that leaves
no record only one thing is asked, that it is no GETEX that moved a deadline, because nothing else changes
the store without a record (`Durability.UnloggedChangesIff`). For every run of it, including EXPIRE, PEXPIRE,
EXPIREAT, PEXPIREAT, SETEX, PSETEX, PERSIST and background sweeps, if the replay finishes before the logged
deadlines then it restores the store exactly (`Durability.RestartRestores`, and `Lifecycle.LifeAndRestart` for
the mutable objects).

The restart may also come after deadlines. For one command on keys of any type it is exact when its records
keep the restored store abreast of the live one, which is the same as all later reads answering alike
(`LateRestart.CommandMirrors`). Runs of such commands are restored up to what has expired
(`LateRestart.ReadsSurvive`), and that takes no condition on the store for commands that never build on what
they overwrite (`LateRestart.BlindReadsSurvive`). Over a run a key that was harmed may be overwritten again;
if no later command is about it, some read tells (`Revivals.HarmIsSeen`).

A log torn at any byte restores exactly the records wholly in it (`ReplayTheorems.TornTail`), which is the
store after a prefix of the run, or between the two records of a command (`Crashes.CrashRestores`,
`Crashes.CrashIsPrefixIff`). What the code does outside the fragment is stated exactly as well:
`LogLimits.RejectedIffOptions`, `LogLimits.OptionsEndReplay`, `LogLimits.WeightsRestoredIff`,
`Renaming.RenameRestoredIff`, `Deadlines.DeadlineRestoredIff`, `Durability.UnloggedChangesIff`.

*Store.* The invariant of the shared namespace over all runs (`Sweeping.InvariantHolds`), invisibility of
the sweep to reads and its exact exceptions (`Sweeping.SweepIsInvisible`, `Sweeping.SweepChangesTTL`,
`Sweeping.PushNeedsSweep`), and the laws of sorted sets, ranges, cursors, lists and counters.

*Commands.* For every modelled command, what it answers and what it leaves under each key is stated from its
words alone, without the functions that execute it: SET with its options in any order
(`StringLaws.SetMeans`), MSET (`StringLaws.MSetLast`), pushes and the pops that undo them
(`ListLaws.PushThenPop`), unions, intersections and differences with the exact type errors
(`SetLaws.SStoreMeans`), ZADD with its flags (`ZSetLaws.ZAddMeans`), weighted stores (`ZSetLaws.ZStoreMeans`).
The mutable objects execute the same functions, so the laws hold of them too.

*Connections.* WATCH safety over every interleaving (`Watch.PassedCheckMeansUnchanged`) with the exact
commands and sweeps that break it (`Watch.StepSafeIff`, `Watch.SweepSafeIff`), EXEC's replies
in the order of the queue (`Sessions.Handler.HandleExec`), the frame each subscriber of a channel gets
(`PubSub.Broker.Publish`), delivery of published messages over every interleaving
(`Delivery.RunIsGood`) and agreement of connections with the broker (`PubSub.Connection`).

Some properties one would expect turned out not to hold. Each is proved with the exact condition under
which it does: `Decimal.Itoa` and `Counters.DecrByExact` and `ListTheorems.LRemExact` (the smallest
integer), `ZRanges.RevRangeExact` (ranks of reversed ranges), `ListTheorems.FullRotation` (a rotated
one-element list loses its deadline), `Sweeping.SweepChangesTTL`, `LateRestart.CommandMirrors` with
`Revivals.PersistedKeyIsLost`, `Revivals.BlinkedKeyComesBack` and `Revivals.PushedListComesBack`,
`Deadlines.DeadlineRestoredIff` with `Revivals.AgedKeyComesBack`, `Renaming.RenameRestoredIff`, `LogLimits.WeightsRestoredIff` and
`LogLimits.WeightIsLost`, `Crashes.CrashIsPrefixIff` with `Crashes.SetEXCut` and `Crashes.RenameCut`,
`Watch.StepSafeIff` with its four counterexamples, `Watch.PassedCheckSameValueIff`, `RespTheorems.RoundTripIff`.

## Model

| member | source | states |
|---|---|---|
| Lifecycle.LifeAndRestart | cmd/server/main.go:62-82 | The durability results for the objects themselves: start an empty server with store, router and log, let it serve any modelled commands and sweeps, and replay its file into a new store; if what it logged stayed in the replayable fragment, no GETEX moved a deadline and the logged deadlines are still to come, the new store equals the old one; if every command was harmless, or none builds on what it overwrites, every later read of any type answers alike whatever deadlines have passed |
| Lifecycle.LifeAndCrash | internal/persistence/replay.go:42-58 | The same when a crash leaves only the first n bytes of the file, for every faithful run: the new store is the old one after the commands whose records are wholly there, or that store with the first of the two records of the next SETEX, PSETEX or RENAME applied |
| Lifecycle.LiveThrough | internal/commands/router.go:193-211 | Serving modelled commands and sweeps on the mutable objects is a run of the model, and the file grows by exactly the bytes of its records |
| Lifecycle.Restart | cmd/server/main.go:64-72 | A new process gets exactly as far as the model's replay of the file |
| Durability.RestartRestores | internal/persistence/replay.go:26-58 | Durability end to end: from an empty server, for every run whose logged commands are in the replayable fragment, with its time-to-live commands, background sweeps and any commands that fail, read or log nothing in between, if no GETEX moved a deadline and every logged deadline is the live one and still to come at the restart, replaying the bytes of the log yields exactly the live store (all type maps and all deadlines), applies every record and reports no error |
| Durability.RunRestored | internal/commands/router.go:193-371 | The same for records instead of bytes and from any sound starting store: the router's rewriting followed by the log interpreter preserves the meaning of every run |
| Durability.CommandKept | internal/commands/router.go:224-371 | One command at any moment: applying its records to the store before it gives exactly the store after it, although the replay runs later and by other code |
| Durability.UnloggedChangesIff | internal/commands/router.go:193-371 | Whatever its words, a command that leaves no record has changed the store if and only if it is a GETEX that moved or removed the deadline of a live string; so nothing else is asked of failed and read-only commands, refused sets, expiries of missing keys, pops of nothing, RENAME onto itself |
| Durability.EventKept | internal/commands/router.go:193-211 | One command or sweep keeps live and restored store equal and the conditions for the next one |
| Durability.SweepIsIdle | internal/storage/memory.go:86-106 | While no deadline has passed at the restart instant, an earlier sweep removes nothing, so it needs no log record |
| Durability.DispatchConduct | internal/commands/router.go:193-211 | Every dispatched command, whatever its words, keeps the keyspace invariant and never leaves an empty list |
| Durability.DecodedIsSound | internal/commands/list.go:13-130 | What the argument checks let through satisfies the assumptions the store operations rely on, such as a push of at least one value |
| LateRestart.ReadsSurvive | internal/persistence/replay.go:42-122 | Keys of all types, restart at any time, any deadlines passed in between: if every command of the run was harmless, the restored store is the live one minus what has expired, and every read of every key from then on answers as the live server would have |
| LateRestart.BlindReadsSurvive | internal/persistence/replay.go:42-122 | No condition on the store for runs of SET, SETNX, SETEX, PSETEX, MSET, GETSET, GETDEL, counters, DEL and flushes without GETEX options and with times to live that are the same in the log: every later read answers alike |
| Mirroring.MirrorsIffReads | internal/storage/memory.go:86-154 | The restored store being the live one minus what has expired is the same as every later read of every type answering alike |
| Mirroring.ReadsTell | internal/storage/memory.go:86-154 | Two slots that differ in a value or a deadline, apart from what has expired, are told apart by a read at some later instant |
| Mirroring.ReadsGiveGet | internal/storage/memory.go:264-272 | GET is one of those reads |
| LateRestart.CommandMirrors | internal/commands/router.go:193-371 | Exact condition, command by command, for stores and for reads: after its records are replayed the restored store is the live one minus what has expired, and all later reads agree, if and only if the command was harmless: not a GETEX that matters at the restart, not a revival of a key whose deadline the restart has missed (APPEND, PERSIST, a later EXPIRE), not a deadline the log has differently, not an addition to a collection that is gone at the restart, not a RENAME whose records do not carry everything (for moves and STOREs among several keys, none of which may have missed a deadline, it always holds) |
| LateCollections.CollectionShown | internal/commands/list.go:13-305 | The part about one hash, list, set or sorted set: replaying its record later leaves what the command left, if and only if the deadline has not passed, or the command neither makes a collection where there is none nor drops the deadline of a key that holds another one |
| LateCollections.HIncrByMirrors | internal/commands/router.go:335-338 | HINCRBY, logged as HSET, is mirrored if and only if the deadline of the key has not passed |
| LateCollections.JoinMirrors | internal/storage/memory.go:927-960 | LMOVE, SMOVE and the STOREs are mirrored if none of their keys has missed a deadline |
| LateCollections.RenameMirrors | internal/commands/router.go:346-365 | RENAME among such keys is mirrored if and only if its records carry everything |
| LateStrings.ExpireShown | internal/commands/expire.go:13-41 | EXPIRE and PEXPIRE of a key of any type with any record: mirrored if and only if the key is not revived and the record leaves the same deadline |
| LateStrings.ExpireAtShown | internal/commands/expire.go:86-124 | The same for EXPIREAT and PEXPIREAT, deletions included |
| LateStrings.PersistShown | internal/commands/expire.go:126-136 | PERSIST is mirrored if and only if the key has not missed its deadline |
| LateStrings.GetExShown | internal/storage/memory.go:245-260 | An unlogged GETEX is mirrored if and only if it moved no deadline, or both the old and the new one have passed |
| Locality.DoElsewhere | internal/storage/memory.go:186-1912 | A request changes no key that it does not name |
| Locality.JoinsAlike | internal/storage/memory.go:927-1895 | A request about several keys takes the same step, with the same reply, on stores that agree on them |
| LateRestart.RunMirrors | internal/persistence/replay.go:42-58 | Live and restored store mirror each other over whole harmless runs, and every record applies |
| LateRestart.BlindNeverRevives | internal/commands/string.go:161-257 | SET, SETNX, SETEX, MSET, GETSET, GETDEL, counters, DEL and the flushes never revive a key, so for them the mirror needs no condition |
| Revivals.HarmIsSeen | internal/persistence/replay.go:42-122 | The converse over runs: after the first command of a run that is not harmless, if nothing later is about its keys, some read after the restart answers differently from the live server, whatever else the run does |
| Revivals.BlinkedKeyComesBack | internal/commands/router.go:368-371 | SET k v, GETEX k PX 1: GETEX is not logged, so after the restart the key is there for ever while the live server has none |
| Revivals.AgedKeyComesBack | internal/commands/expire.go:15-25 | SET k v, EXPIRE k 10000000000: the nanoseconds wrap and the live key has expired at once, the milliseconds of the record do not and the restart brings it back |
| Revivals.PushedListComesBack | internal/persistence/replay.go:149-153 | RPUSH k a, EXPIRE k 10, RPUSH k b: after a restart past the deadline the live list is gone and the restored one holds b for ever |
| Revivals.PersistedKeyIsLost | internal/persistence/replay.go:102-122 | The run SETEX k 10 v, PERSIST k: after a restart past the old deadline the live server answers v for ever and the restored one has no such key |
| Revivals.CommandElsewhere | internal/commands/router.go:224-371 | A logged command and its records leave alone, live and replayed, every key the command does not name |
| Revivals.RunElsewhere | internal/persistence/replay.go:42-58 | Over whole runs, sweeps included, a key that is left alone shows after the restart what it showed before the run |
| LogLimits.RejectedIffOptions | internal/persistence/replay.go:70-76 | Among all commands logged as typed, replay refuses a record if and only if it is a SET with options |
| LogLimits.OptionsEndReplay | internal/persistence/replay.go:51-54 | A SET with options in the log ends the replay there: everything before it is restored and nothing after it comes back |
| Renaming.RenameRestoredIff | internal/commands/router.go:346-365 | RENAME survives a restart if and only if its records carry everything, as a condition on what the two keys held before (string without deadline; hash alone under its name, with no field left over in the destination and the same deadline; or an exact copy already there); the run theorems ask for exactly this condition |
| LogLimits.WeightsRestoredIff | internal/persistence/replay.go:351-369 | The record of ZUNIONSTORE or ZINTERSTORE always applies, and it restores the command on every store if and only if the weights and the aggregate are alike no weights and SUM: for SUM the weights of each key add up to the number of times it is named, for MIN and MAX there is one key and each weight is the number of its mentions |
| LogLimits.WeightIsLost | internal/persistence/replay.go:359 | ZUNIONSTORE d 1 k WEIGHTS 2 stores 2 for a member of score 1, logs itself, and is replayed as 1 |
| LogLimits.NumkeysWrap | internal/commands/zset.go:539-547 | The guard of ZUNIONSTORE and ZINTERSTORE adds three to the number of keys in 64 bits; it lets a command with too few words through exactly for the three largest numbers, and such a command has changed and logged nothing |
| WeightedStores.CombinedAlike | internal/storage/memory.go:1813-1895 | Weights and aggregates that are alike the default combine any inputs in any store as the replayed form without them does |
| WeightedStores.SomeStoreDiffers | internal/storage/memory.go:1813-1895 | All others give another result on some store |
| WeightedStores.AlikeDistinct | internal/commands/zset.go:534-588 | For distinct keys alike means that all weights are one and the aggregate is SUM or there is a single key |
| WeightedStores.HalvesAreAlike | internal/commands/zset.go:534-588 | With a key named twice other weights do too: 0.5 and 1.5 under SUM |
| Crashes.CrashRestores | internal/persistence/replay.go:42-58 | Cutting the log of any faithful run after any byte: the restored store is the live one after the first j events, or that store with the first record of event j applied when the cut falls between the two records of SETEX, PSETEX or RENAME; j and the place are those of the last whole record |
| Crashes.CrashIsPrefixIff | internal/persistence/replay.go:42-58 | The restored store is the one before or after the cut command if and only if the cut is not between two records or the first record wrote what was there already, a condition on one slot before the command; it is the store after some prefix of the run if and only if, besides, the run had that store at some time, which spells the property out key by key |
| Crashes.SetEXCut | internal/commands/router.go:280-296 | SETEX cut after its SET record comes back as the value without deadline, a store the server never had |
| Crashes.RenameCut | internal/commands/router.go:346-365 | RENAME cut after its first record comes back with both keys, a store the server never had |
| Crashes.HalfIsNotWhole | internal/commands/router.go:280-365 | The first of two records alone never leads to the store after the command |
| ReplayTheorems.TornTail | internal/persistence/replay.go:42-58 | For every log and every cut, replay applies exactly the records wholly inside the cut; it stops silently or with a parse error according to where the cut falls in the damaged record |
| ReplayTheorems.WholeLog | internal/persistence/replay.go:42-58 | Replaying the bytes of any list of records is applying the records |
| ReplayTheorems.WholeIsLongest | internal/persistence/aof.go:70-99 | The number of records meant by the torn-tail result is the greatest that fits in the cut |
| ReplayTheorems.ApplyAllConcat | internal/persistence/replay.go:42-58 | Replaying two logs one after the other is replaying their concatenation, unless the first stops early |
| RecordDecoding.RecordReplays | internal/persistence/replay.go:62-406 | Every record logged as typed is understood by the interpreter as the very request the handler executed |
| WeightedStores.OnesAreDefault | internal/commands/zset.go:534-588 | ZUNIONSTORE and ZINTERSTORE without WEIGHTS combine as the replayed form with an empty weight list does |
| Timeless.RequestTimeless | internal/storage/memory.go:110-154 | While no deadline lies between two instants, every request does the same at both: same store, same versions, same reply |
| Rewriting.CounterRestores | internal/commands/router.go:329-330 | The SET record of a counter command restores what the counter stored |
| Rewriting.SetterRestores | internal/commands/router.go:237-244 | The SET record written for SETNX and GETSET restores what they stored |
| Rewriting.GetDelRestores | internal/commands/router.go:246-249 | The DEL record of GETDEL deletes what it deleted |
| Deadlines.DeadlineRestoredIff | internal/commands/router.go:280-326 | SETEX, PSETEX, EXPIRE, PEXPIRE, EXPIREAT and PEXPIREAT at any moment and with any number: if logged, their records restore what they did if and only if a condition on the number and the clock holds (Deadlines.Outlives); it covers times to live that overflow a duration and those where both computations wrap alike |
| Deadlines.RelativeIff | internal/commands/router.go:280-313 | The record of a relative time to live carries the very deadline if and only if the 64-bit number of milliseconds is a duration in nanoseconds |
| Deadlines.RelativeLasting | internal/commands/router.go:299-313 | With the restart: if and only if, besides, that deadline is still to come |
| Deadlines.AbsoluteSame | internal/commands/router.go:315-326 | For an instant: if it had passed, what the record makes of it has passed at the restart; else the record is still to come and a duration reaches the instant, or the restart is at the very instant of the command and both are cut off alike |
| Deadlines.TimelyIff | internal/persistence/replay.go:102-122 | Two deadlines come to the same for a restart at any time if and only if they are equal or have both passed at once |
| Deadlines.ExpireRestoredIff | internal/persistence/replay.go:102-122 | EXPIRE and PEXPIRE of a key that is there are restored by a PEXPIREAT record if and only if it carries their deadline and that is to come |
| Deadlines.ExpireAtRestoredIff | internal/persistence/replay.go:102-122 | EXPIREAT and PEXPIREAT: the deadline, or the deletion when the time had passed; on a missing key nothing happens then or in the replay |
| Deadlines.SetEXRestoredIff | internal/commands/router.go:280-296 | The two records of SETEX and PSETEX together restore value and deadline under the same condition |
| Rewriting.HIncrByRestores | internal/commands/router.go:335-338 | The HSET record of HINCRBY restores the wrapped sum, also when the handler started from an expired hash |
| RespTheorems.RoundTrip | internal/protocol/parser.go:68-221 | Reading a serialized value followed by any bytes returns the value and leaves exactly those bytes, for all nested values whose lines are clean |
| RespTheorems.RoundTripIff | internal/protocol/serializer.go:21-55 | That holds if and only if every simple string and error in the value has no line feed and does not end in a line break |
| RespTheorems.UncleanIsLost | internal/protocol/parser.go:200-208 | A value with a line break in a simple string or error never reads back as itself, whatever follows |
| RespTheorems.RecordRoundTrip | internal/protocol/parser.go:42-66 | A log record reads back as itself and leaves the rest of the log |
| RespTheorems.CutNeverParses | internal/protocol/parser.go:68-221 | No proper prefix of a serialized value parses, and the error is the unexpected end of input exactly when the cut falls inside a bulk payload |
| RespTheorems.CutRecord | internal/protocol/parser.go:42-66 | The same for a log record cut short |
| RespCodec.SerializeValue | internal/protocol/serializer.go:21-55 | The builder loop produces the wire format of the value |
| RespCodec.Parser.NextLine | internal/protocol/parser.go:200-208 | Reads up to the line feed, strips the line break, and leaves the rest of the input |
| RespCodec.Parser.NextNumber | internal/protocol/parser.go:113-128 | Reads a line as a 64-bit decimal |
| RespCodec.Parser.NextBulk | internal/protocol/parser.go:130-165 | Reads a length-prefixed payload with its line break, or the null bulk string |
| RespCodec.Parser.NextArray | internal/protocol/parser.go:169-196 | Reads the announced number of nested values |
| RespCodec.Parser.NextValue | internal/protocol/parser.go:68-91 | Reads one value of any type, advancing the input exactly past it |
| RespCodec.Parser.NextCommand | internal/protocol/parser.go:42-66 | Reads one command: a nonempty array of bulk strings, anything else being an error |
| Decimal.FormatRoundTrip | internal/commands/counter.go:33 | A formatted integer parses back to itself, and to nothing when it is outside 64 bits |
| Decimal.FormatIsClean | internal/protocol/serializer.go:30-44 | Formatted integers contain no line break, so they are safe in protocol lines |
| Decimal.Itoa | internal/server/handler.go:248-268 | The backwards fill of the 20-byte buffer gives the decimal form of every integer but the smallest, for which it gives a lone minus sign |
| Decimal.FillDigits | internal/server/handler.go:256-263 | The digit loop never leaves the buffer and keeps room for the sign |
| Sweeping.InvariantHolds | internal/storage/memory.go:86-154 | Over every run of commands and sweeps and at every later instant: a key with a live string is in no other type map and has no separate deadline, and every separate deadline belongs to a value |
| Conduct.RequestConduct | internal/storage/memory.go:121-133 | Every request keeps that invariant, changes nothing when it fails, and raises the version of every key whose contents it changes (flushes, an HDEL of the last field and an empty STORE excepted) |
| Conduct.TimePasses | internal/storage/memory.go:110-118 | Time passing keeps the invariant |
| Conduct.SweepConduct | internal/storage/memory.go:86-106 | A sweep keeps the invariant |
| Sweeping.SweepIsInvisible | internal/storage/memory.go:86-106 | A sweep at any instant changes no later read of any key: its type, its string, the hash, list, set or sorted set that typed reads see, or how often SCAN and KEYS list it |
| Sweeping.SweepChangesTTL | internal/storage/memory.go:415-439 | TTL is the exception, exactly when an expired string still shadows a live collection under the same key |
| Sweeping.ShadowedList | internal/storage/memory.go:415-439 | Such keys exist: after a push onto an expired, unswept string, TTL reports a live list as missing until the sweep |
| Sweeping.PushNeedsSweep | internal/storage/memory.go:670-697 | A push onto a key whose deadline has lapsed is visible if and only if the sweep came first |
| Watch.PassedCheckMeansUnchanged | internal/server/handler.go:169-245 | WATCH safety over every interleaving of any clients' open commands with WATCH, UNWATCH, ends of transactions and sweeps that find nothing to remove: if the version check at EXEC passes, every watched key has the contents it had at its latest WATCH |
| Watch.PassedCheckSameValueIff | internal/server/handler.go:238-245 | Versions do not know deadlines: a passed check means that reads of the key see what they saw at its latest WATCH if and only if no deadline of the key has come, or been put off, in between |
| Watch.DeadlineFoolsWatch | internal/server/handler.go:238-245 | SETEX k 10 a, WATCH k, eleven seconds: the check passes and GET answers differently |
| Watch.StepSafeIff | internal/storage/memory.go:121-123 | Exactly the open commands keep what WATCH relies on: for all keys, the version never falls and stays the same only if the contents do, if and only if the command is not a flush of a nonempty or versioned store, not an HDEL that empties a hash, and not a STORE with empty result onto a key that holds something |
| Watch.SweepSafeIff | internal/storage/memory.go:86-106 | The same for a sweep: if and only if it has nothing to remove |
| Watch.FlushFoolsWatch | internal/storage/memory.go:382-392 | SET k a, WATCH k, FLUSHALL, SET k b, served one after another: the check passes and k has changed |
| Watch.HDelFoolsWatch | internal/storage/memory.go:561-583 | HSET k f a, WATCH k, HDEL k f, HSET k f b: the check passes and k has changed |
| Watch.StoreFoolsWatch | internal/storage/memory.go:1180-1197 | SET d v, WATCH d, SINTERSTORE d with an empty operand: the check passes and d is gone |
| Watch.SweepFoolsWatch | internal/storage/memory.go:86-106 | SETEX k 10 a, WATCH k, a sweep after the deadline, SET k b: the check passes and k has changed |
| Watch.OpenRunSafe | internal/storage/memory.go:121-123 | Over every run of open commands a version never falls, and an unchanged version means unchanged contents |
| Watch.OpenStep | internal/storage/memory.go:2111-2115 | The same for one command and one key |
| Watch.SaveVouches | internal/server/handler.go:224-235 | WATCH of any keys, also of keys watched before, saves versions that vouch for the current contents |
| Versioning.VersionsCount | internal/storage/memory.go:121-123 | A version is the number of bumps of its key |
| Versioning.ApplyAllConcat | internal/storage/memory.go:121-123 | The effects of two operations on the versions compose |
| Sessions.Handler.HandleExec | internal/server/handler.go:169-208 | EXEC outside MULTI and EXEC on a dirty watch change nothing; otherwise the reply is the serialized array whose i-th element is the reply to the i-th queued command on the server reached by serving the ones before it in order, starting from the state the check saw; the server ends in the last of those states and the transaction state is cleared |
| Sessions.Handler.Execute | internal/server/handler.go:192-197 | The queued commands run in the order they were queued: state by state, the i-th is dispatched on what the first i left, and its serialized reply is the i-th result |
| Sessions.Handler.Wrap | internal/server/handler.go:199-207 | Count line plus concatenated replies is the serialization of the array |
| Sessions.Handler.HandleMulti | internal/server/handler.go:157-165 | Starts with an empty queue; nested MULTI is an error and keeps the queue; the invariant (no counted errors, nothing queued outside MULTI) holds |
| Sessions.Handler.HandleDiscard | internal/server/handler.go:211-220 | Clears queue and watches, or is an error outside MULTI |
| Sessions.Handler.HandleWatch | internal/server/handler.go:224-235 | Saves the current version of each key, the latest WATCH of a key winning; inside MULTI it changes nothing |
| Watch.SaveAllMeans | internal/server/handler.go:224-235 | Key by key: a key named has the version and contents it has now, a key not named what was saved before |
| Sessions.Handler.HandleUnwatch | internal/server/handler.go:121-126 | Forgets all watches and keeps the queue |
| Sessions.Handler.WatchDirty | internal/server/handler.go:238-245 | True if and only if some watched key has another version now |
| Sessions.Handler.Enqueue | internal/server/handler.go:138-145 | A command inside MULTI is queued, not executed |
| Sessions.Handler.Receive | internal/server/handler.go:88-154 | The command loop: transaction commands do what their handlers do, also on a subscribed connection, EXEC with the replies and states of the queued commands one by one; any other command is refused there without effect, queued inside MULTI and executed with its reply otherwise; nothing is queued outside MULTI and no error is ever counted |
| Delivery.RunIsGood | internal/pubsub/subscriber.go:44-77 | In every interleaving of publishers, acknowledgements, write loops, closes and (un)subscriptions: no inbox exceeds 256, the frames taken are an in-order prefix of the frames accepted, and every sender has counted exactly its own accepted sends, which are targets of its snapshot in order |
| Delivery.NextIsGood | internal/pubsub/broker.go:92-137 | Each single step keeps that invariant, with the done test and the enqueue of a send as separate steps |
| Delivery.NoLaterSnapshot | internal/server/handler.go:412-421 | Once a subscriber has been cleaned up, no later publish has it in its snapshot |
| Delivery.CleanupGone | internal/pubsub/broker.go:154-166 | Cleanup removes a subscriber from every channel and pattern |
| Registries.RegisterHolds | internal/pubsub/broker.go:34-41 | Subscribing adds one name for one subscriber, changes nobody else's, and leaves no empty set |
| Registries.UnregisterHolds | internal/pubsub/broker.go:141-150 | Unsubscribing removes one name for one subscriber, changes nobody else's, and leaves no empty set |
| Registries.UnregisterAllHolds | internal/pubsub/broker.go:154-166 | Unsubscribing from everything leaves a subscriber nowhere, changes nobody else's names, and leaves no empty set |
| PubSub.Subscriber.Send | internal/pubsub/subscriber.go:44-58 | Accepted if and only if the subscriber is open and the inbox has room; accepted frames keep their order, refused ones change nothing |
| PubSub.Subscriber.Drain | internal/server/handler.go:396-406 | After the done signal the write loop gets out everything accepted so far, in order |
| PubSub.Subscriber.Close | internal/pubsub/subscriber.go:75-77 | Sets the done signal and keeps what is in the inbox |
| PubSub.Broker.Subscribe | internal/pubsub/broker.go:34-68 | Registers the subscriber in one table and leaves the other alone |
| PubSub.Broker.Unsubscribe | internal/pubsub/broker.go:44-75 | Removes the subscriber from one name, dropping the name when nobody is left |
| PubSub.Broker.UnsubscribeAll | internal/pubsub/broker.go:52-83 | Removes the subscriber everywhere in one table and reports exactly the names it held |
| PubSub.Broker.Snapshot | internal/pubsub/broker.go:92-116 | As multisets: every subscriber of the channel once, and every pair of a matching pattern and a subscriber of it once |
| PubSub.Broker.Publish | internal/pubsub/broker.go:92-137 | Exactly one send to each subscriber of the channel, the serialized array of message, channel and payload, and exactly one for each matching pattern and subscriber of it, the serialized array of pmessage, that pattern, channel and payload; the result is the number of accepted sends, and everybody received exactly the accepted ones |
| PubSub.DeliveredAre | internal/pubsub/broker.go:118-136 | What a subscriber received are the frames of all accepted sends to it, in the order of the sends, and no others |
| PubSub.SubscribeAcksAre | internal/server/handler.go:286-357 | SUBSCRIBE and PSUBSCRIBE acknowledge each name that was not subscribed to, where it is first given: the array of the word, the name and a total that counts up by one |
| PubSub.UnsubscribeAcksAre | internal/server/handler.go:311-383 | UNSUBSCRIBE and PUNSUBSCRIBE acknowledge each name given up, where it is first given, with totals that count down by one |
| Delivery.PublishAims | internal/pubsub/broker.go:92-117 | The targets of a publish step: the message frame for each subscriber of the channel and for each matching pattern and subscriber the frame of that pattern, each once |
| Delivery.SubsequenceIs | internal/pubsub/broker.go:118-136 | A subsequence, as it is used of targets and acknowledgements, is what is at increasing positions |
| PubSub.SendAll | internal/pubsub/broker.go:118-136 | The counting loop over the sends |
| PubSub.Connection.HandleSubscribe | internal/server/handler.go:286-357 | After SUBSCRIBE or PSUBSCRIBE the connection's sets equal what the broker has registered for it, also for any number of other connections; each new name is acknowledged with the current total |
| PubSub.Connection.HandleUnsubscribe | internal/server/handler.go:311-383 | The same for UNSUBSCRIBE and PUNSUBSCRIBE, with or without names |
| PubSub.Connection.Join | internal/server/handler.go:299-306 | One new subscription: broker, sets and acknowledgement agree |
| PubSub.Connection.Leave | internal/server/handler.go:316-332 | One subscription given up: broker, sets and acknowledgement agree |
| PubSub.Connection.EnsureSubscriber | internal/server/handler.go:278-283 | The first subscription creates a subscriber that nobody else has and that is registered nowhere |
| PubSub.Connection.Cleanup | internal/server/handler.go:412-421 | At the end of a connection its subscriber is registered nowhere and closed, and the other connections still agree with the broker |
| Frames.AckIsResp | internal/pubsub/message.go:41-83 | The four hand-formatted acknowledgements are the serialized arrays they are meant to be |
| Frames.MessageIsResp | internal/pubsub/message.go:14-19 | So is the message frame |
| Frames.PMessageIsResp | internal/pubsub/message.go:28-33 | So is the pattern message frame |
| ZOrder.SortedMembersUnique | internal/storage/memory.go:1350-1362 | Any strictly ascending arrangement of the pairs is the sorted sequence, so every correct sort returns it |
| ZOrder.SortedMembersFacts | internal/storage/memory.go:1350-1362 | The sorted sequence is strictly ascending by score and member and holds exactly the pairs of the map |
| ZOrder.BelowTotal | internal/storage/memory.go:1355-1360 | The comparison is a strict total order on pairs |
| ZOrder.BelowTransitive | internal/storage/memory.go:1355-1360 | The comparison is transitive |
| StoreLoops.SortMembers | internal/storage/memory.go:1350-1362 | Collecting and sorting yields the sorted sequence |
| ZSetTheorems.RankCountsBelow | internal/storage/memory.go:1454-1474 | The position of a member in the sorted sequence is the number of pairs below it |
| ZSetTheorems.RanksAddUp | internal/storage/memory.go:1477-1498 | ZRANK plus ZREVRANK is the number of members minus one |
| ZSetTheorems.PopTwice | internal/storage/memory.go:1756-1810 | Popping a and then b members returns what popping a + b returns, at either end |
| ZSetTheorems.PopSplits | internal/storage/memory.go:1756-1810 | Popped and kept pairs partition the sorted set, and every popped pair is on the popped side of every kept one |
| ZSetTheorems.StoreMeaning | internal/storage/memory.go:1813-1912 | ZUNIONSTORE stores exactly the union and ZINTERSTORE exactly the intersection of the members, each with the least, greatest or total weighted score over the inputs holding it |
| ZSetTheorems.StoreOrder | internal/storage/memory.go:1813-1912 | Both results are unchanged under any simultaneous permutation of keys and weights |
| ZSetTheorems.FoldOrder | internal/storage/memory.go:1897-1912 | Folding with the aggregate does not depend on the order of the scores |
| Combining.ZUnionLoop | internal/storage/memory.go:1813-1838 | The nested loops over keys and members compute that union, or fail on an operand of another type |
| Combining.ZInterLoop | internal/storage/memory.go:1848-1888 | The loops compute that intersection, or fail on an operand of another type |
| Combining.UnionStep | internal/storage/memory.go:1829-1837 | One more input of a union changes each score as one more contribution |
| Combining.InterStep | internal/storage/memory.go:1879-1887 | One more input of an intersection keeps the members it holds, with one more contribution |
| ZRanges.RangeMeaning | internal/storage/memory.go:1562-1606 | ZRANGEBYSCORE without LIMIT holds exactly the pairs within the bounds, ascending |
| ZRanges.Select | internal/storage/memory.go:1576-1601 | The skipping and counting loop with its early exit is drop offset, take count of the pairs in range |
| ZRanges.RangeReversed | internal/storage/memory.go:1609-1655 | ZREVRANGEBYSCORE without LIMIT is ZRANGEBYSCORE reversed |
| ZRanges.CountIsLength | internal/storage/memory.go:1658-1677 | ZCOUNT, which walks the unordered map, is the length of ZRANGEBYSCORE without LIMIT |
| ZRanges.CountScores | internal/storage/memory.go:1668-1676 | The counting loop counts the members within the bounds |
| ZRanges.RevRangeExact | internal/storage/memory.go:1516-1559 | ZREVRANGE and ZRANGE REV count ranks from the top if and only if the range is empty or lies symmetrically, because the slice is taken ascending and reversed afterwards |
| ZRanges.ReverseSlice | internal/storage/memory.go:1545-1550 | The in-place swap loop reverses the slice |
| ZRanges.PopLoop | internal/storage/memory.go:1766-1774 | The pop loops return the end of the sorted sequence and delete exactly those members |
| StoreLoops.AddScores | internal/storage/memory.go:1375-1396 | ZADD's loop with NX, XX, GT, LT and CH gives the new scores and the number that counts as changed |
| Cursors.IterationIsComplete | internal/storage/memory.go:1961-1990 | A complete cursor iteration over an unchanged snapshot, with any counts, returns every matching entry in order, each once if the entries are distinct, and needs at most as many calls as entries; the same loop serves HSCAN, SSCAN and ZSCAN |
| Cursors.IterateFrom | internal/storage/memory.go:1972-1990 | The same from any cursor inside the snapshot |
| Cursors.CallLoop | internal/storage/memory.go:1975-1989 | One call returns the matching entries of its window and the next cursor, zero at the end |
| Cursors.SnapshotIsUnique | internal/storage/memory.go:1928-1958 | The sorted snapshot is determined by the store, so all calls over an unchanged store page through the same sequence |
| Cursors.SnapshotIsDistinct | internal/storage/memory.go:1928-1958 | Its keys are distinct if and only if no key is stored under two types |
| Cursors.Sort | internal/storage/memory.go:1956 | Sorted, and a permutation of its input |
| ListTheorems.LRemExact | internal/storage/memory.go:854-899 | LREM removes min(abs count, occurrences) copies (all for zero) if and only if the count is not the smallest integer or nothing occurs |
| ListTheorems.RemovedFromHead | internal/storage/memory.go:870-878 | A count of zero or more removes the first copies and leaves everything else in place |
| ListTheorems.RemovedFromTail | internal/storage/memory.go:879-888 | A negative count removes the last copies and leaves everything else in place |
| ListTheorems.RemoveLoop | internal/storage/memory.go:864-888 | The two removal loops, with the wrapping negation, compute that list and its removal count |
| ListTheorems.RemoveBackwards | internal/storage/memory.go:879-888 | The backward loop is reversing, removing from the head and reversing back, or nothing when the negation overflowed |
| ListTheorems.ClampedMeans | internal/storage/memory.go:158-184 | A position of the list is in the clamped range of LRANGE and LTRIM exactly if it lies between the two ends, negative ones counted from the tail; likewise for a single index |
| ListTheorems.LMoveConserves | internal/storage/memory.go:927-960 | LMOVE between two keys keeps the combined multiset of their elements |
| ListTheorems.FullRotation | internal/storage/memory.go:927-960 | Moving each of n elements once from the tail to the head of the same list restores the store exactly; for one element it restores the contents but drops the deadline |
| Counters.OverflowTest | internal/commands/counter.go:24-31 | The two comparisons after a wrapping addition fail exactly when the mathematical sum leaves 64 bits |
| Counters.DecrByExact | internal/commands/counter.go:88-97 | DECRBY subtracts its operand or fails correctly if and only if the operand is not the smallest integer |
| Counters.CounterStep | internal/commands/counter.go:14-35 | A counter command stores the exact sum, or fails without changing anything |
| Counters.CounterRunTallies | internal/commands/counter.go:14-97 | After any run of counter commands on a key it counts its start plus the accepted deltas; every reply is the new count for an accepted delta and an error for a dropped one; no other key has changed |
| Counters.TallyAddsAll | internal/commands/counter.go:14-35 | A run in which every sum fits adds up all its deltas |
| Storage.MemoryStore.Set | internal/storage/memory.go:189-195 | Deletes whatever the key held under any type, stores the string without deadline and raises the version |
| Storage.MemoryStore.SetWithTTL | internal/storage/memory.go:198-204 | The same with a deadline |
| Storage.MemoryStore.SetAdv | internal/storage/memory.go:207-242 | Takes the step of `StringStore.SetAdv` on the maps, whose meaning is `StringLaws.SetMeans`: NX and XX look at live strings only; KEEPTTL copies the old deadline even when it has passed; refused sets change nothing |
| Storage.MemoryStore.Get | internal/storage/memory.go:264-272 | The live string, or nothing |
| Storage.MemoryStore.GetEx | internal/storage/memory.go:245-260 | The live string, its deadline removed, moved or left alone, and no version change |
| Storage.MemoryStore.Del | internal/storage/memory.go:275-287 | Key by key, deletes what exists at that moment, counts it and raises its version; expired keys stay |
| Storage.MemoryStore.Flush | internal/storage/memory.go:382-392 | The empty store, with all versions forgotten |
| Storage.MemoryStore.Expire | internal/storage/memory.go:397-411 | Sets the deadline where the type of the key keeps it, without a version change |
| Storage.MemoryStore.Persist | internal/storage/memory.go:442-458 | Removes the deadline of a live key, without a version change |
| Storage.MemoryStore.Rename | internal/storage/memory.go:464-525 | The value of the key's type and its deadline move, the destination loses everything it had, both versions rise |
| Storage.MemoryStore.HSet | internal/storage/memory.go:530-546 | Merges the fields, clears only the string map, counts new fields |
| Storage.MemoryStore.HGet | internal/storage/memory.go:549-558 | The field of an unexpired hash |
| Storage.MemoryStore.HDel | internal/storage/memory.go:561-583 | Removes fields and counts them; an emptied hash goes with its deadline and version |
| Storage.MemoryStore.Push | internal/storage/memory.go:670-697 | Takes the step of `ListStore.Push` on the maps, whose meaning is `ListLaws.PushMeans`: values pushed left end up reversed in front, values pushed right in order behind |
| Storage.MemoryStore.Pop | internal/storage/memory.go:700-749 | Takes up to count elements from an end in list order; an emptied list goes with its deadline |
| Storage.MemoryStore.LSet | internal/storage/memory.go:798-816 | Replaces one element, negative indexes from the tail, or fails |
| Storage.MemoryStore.LInsert | internal/storage/memory.go:819-851 | Inserts beside the first pivot |
| Storage.MemoryStore.LRem | internal/storage/memory.go:854-899 | Stores the list LREM leaves and counts removals; nothing removed, nothing changed |
| Storage.MemoryStore.LTrim | internal/storage/memory.go:902-924 | Keeps the clamped range, deleting the key when it is empty |
| Storage.MemoryStore.LMove | internal/storage/memory.go:927-960 | Pops from one raw list and pushes to another, also when they are the same key |
| Storage.MemoryStore.SAdd | internal/storage/memory.go:977-995 | Union with the new members, counting the new ones |
| Storage.MemoryStore.SRem | internal/storage/memory.go:998-1021 | Difference, counting the removed ones; an emptied set goes with its deadline |
| Storage.MemoryStore.SMove | internal/storage/memory.go:1305-1333 | Moves one member between raw sets, also when they are the same key |
| Storage.MemoryStore.Combine | internal/storage/memory.go:1082-1177 | Returns `SetStore.Combined` of the sets the keys stand for, whose members and errors are those of `SetLaws.CombinedMeans` |
| Storage.MemoryStore.SStore | internal/storage/memory.go:1180-1237 | The combination replaces the destination, also when it is an input; an empty one deletes it silently; from the words of the command, `SetLaws.SStoreMeans` |
| Storage.MemoryStore.ZAdd | internal/storage/memory.go:1365-1399 | Stores ZADD's result, creating the key even when every pair is skipped |
| Storage.MemoryStore.ZRem | internal/storage/memory.go:1402-1425 | Removes members and counts them; an emptied sorted set goes with its deadline |
| Storage.MemoryStore.ZIncrBy | internal/storage/memory.go:1501-1513 | Adds to a score, starting from zero |
| Storage.MemoryStore.ZPop | internal/storage/memory.go:1756-1810 | Removes and returns the end of the sorted order |
| Storage.MemoryStore.ZStore | internal/storage/memory.go:1813-1895 | The weighted combination of the inputs as they were before replaces the destination, also when it is an input |
| Storage.MemoryStore.ZRank | internal/storage/memory.go:1454-1474 | The number of pairs below the member |
| Storage.MemoryStore.ZRevRank | internal/storage/memory.go:1477-1498 | The number of pairs above the member |
| Storage.MemoryStore.ZRangeByScore | internal/storage/memory.go:1562-1655 | Take count of drop offset of the pairs in range, in either direction |
| Storage.MemoryStore.ZCount | internal/storage/memory.go:1658-1677 | The length of the unlimited range |
| Storage.MemoryStore.ZRange | internal/storage/memory.go:1516-1559 | The clamped slice of the sorted sequence, reversed afterwards for REV |
| Storage.MemoryStore.AllKeys | internal/storage/memory.go:1928-1958 | The sorted snapshot, with a key listed once for each map that holds it unexpired |
| Storage.MemoryStore.Scan | internal/storage/memory.go:1961-1990 | One page of the snapshot |
| Storage.MemoryStore.HScan | internal/storage/memory.go:1993-2030 | One page of the sorted fields with their values |
| Storage.MemoryStore.SScan | internal/storage/memory.go:2033-2070 | One page of the sorted members |
| Storage.MemoryStore.ZScan | internal/storage/memory.go:2073-2106 | One page of the members in score order |
| Storage.MemoryStore.DeleteExpired | internal/storage/memory.go:86-106 | Removes exactly what has expired; the versions of the keys it touches start over |
| StoreLoops.MergeFields | internal/storage/memory.go:537-543 | The field loop merges and counts new fields |
| StoreLoops.DropKeys | internal/storage/memory.go:568-574 | The deletion loop removes and counts what is there |
| StoreLoops.AddMembers | internal/storage/memory.go:986-992 | The insertion loop adds and counts what is new |
| StoreLoops.DropMembers | internal/storage/memory.go:1008-1014 | The deletion loop removes and counts what is there |
| StoreLoops.FindPivot | internal/storage/memory.go:830-836 | The first position of the pivot, or minus one |
| Combining.FilterLoop | internal/storage/memory.go:1088-1177 | The nested loops of intersection and difference, with their early exits |
| Combining.UnionLoop | internal/storage/memory.go:1126-1142 | The union loop |
| Handlers.Perform | internal/commands/router.go:193-205 | Every request carried out on the mutable store has exactly the effect, version changes and reply of the model |
| Handlers.PerformString | internal/commands/string.go:15-339 | The string handlers, several of them a read followed by a write, do as one step of the model |
| Handlers.HandleIncrBy | internal/commands/counter.go:14-35 | Get, wrapping sum, overflow test and Set together are one counter step |
| Handlers.PerformKey | internal/commands/expire.go:13-136 | The expiry handlers and DEL, RENAME and the flushes do as one step of the model |
| Handlers.HandleRename | internal/commands/server_cmds.go:81-96 | RENAME onto itself only checks that the key exists |
| Handlers.PerformHash | internal/commands/hash.go:13-181 | The hash handlers; HINCRBY wraps without an overflow test |
| Handlers.PerformList | internal/commands/list.go:13-305 | The list handlers |
| Handlers.PerformSet | internal/commands/set.go:12-250 | The set handlers |
| Handlers.PerformZSet | internal/commands/zset.go:38-588 | The sorted-set handlers |
| Routing.Router.Dispatch | internal/commands/router.go:193-211 | The step of the model on store and versions, and the log grows by the bytes of records the model allows for it: none after an error |
| Routing.DecodeCommand | internal/commands/string.go:23-86 | Decoding with the option loops of SET and GETEX and the field loop of HSET gives the request of the model, or none; the router decodes with it, and the laws of `Wording` say position by position what is read |
| Routing.Router.LogRename | internal/commands/router.go:346-365 | RENAME is logged from what the destination holds afterwards: a string, the fields of a nonempty hash in some order, or nothing, and then the deletion |
| Routing.Router.KeyVersion | internal/commands/router.go:182-184 | The version of the key, zero if unknown |
| Routing.ScanSetOptions | internal/commands/string.go:23-86 | The option loop of SET accepts exactly the option lists of the model, with their flags and time to live |
| Routing.ScanGetExOptions | internal/commands/string.go:265-322 | The option loop of GETEX accepts exactly the option lists of the model; a time already past gives a negative time to live |
| Routing.CollectFields | internal/commands/hash.go:18-21 | The field loop builds the map in which later fields win |
| Routing.HashWords | internal/commands/router.go:353-359 | The words list every field of the hash with its value once |
| Persistence.AOF.Append | internal/persistence/aof.go:70-99 | One record is added at the end of the log as the RESP array of its words |
| Persistence.ApplyCommand | internal/persistence/replay.go:62-406 | One record has the effect the model gives it, or is refused without any |
| Persistence.ReplayFile | internal/persistence/replay.go:26-58 | The replay loop over the parser flushes the store and gets exactly as far as the model says, with the same count and error; without a file it does nothing |
| StringStore.Rename | internal/storage/memory.go:464-525 | Only the two keys are touched |
| StringStore.Sweep | internal/storage/memory.go:86-106 | Works key by key: a key keeps its live string, and its other values exactly when their deadline has not lapsed |
| HashStore.HSet | internal/storage/memory.go:530-546 | Changes only the string and the hash of the key, and reports every change of contents |
| HashStore.HDel | internal/storage/memory.go:561-583 | Keeps the invariant, and reports every change of contents unless the hash is emptied |
| ListStore.Push | internal/storage/memory.go:670-697 | Keeps the invariant and reports its change; fails without changing anything; what it stores is in `ListLaws.PushMeans` |
| ListStore.Pop | internal/storage/memory.go:700-749 | Keeps the invariant, never leaves an empty list, reports its change; fails without changing anything |
| ListStore.NormaliseIndex | internal/storage/memory.go:158-166 | An index from the tail becomes a position, or minus one exactly when it is out of range |
| ListStore.ClampRange | internal/storage/memory.go:170-184 | The clamped range lies inside the list |
| ListStore.LSet | internal/storage/memory.go:798-816 | Keeps the invariant and reports its change; fails without changing anything |
| ListStore.IndexOf | internal/storage/memory.go:830-836 | The first occurrence, or the length if there is none |
| ListStore.LInsert | internal/storage/memory.go:819-851 | Keeps the invariant and reports its change; fails without changing anything |
| ListStore.Removed | internal/storage/memory.go:854-888 | Never longer than the list, and equal to it when nothing is removed |
| ListStore.LRem | internal/storage/memory.go:854-899 | Keeps the invariant, never leaves an empty list, reports its change; fails without changing anything |
| ListStore.LTrim | internal/storage/memory.go:902-924 | Keeps the invariant, never leaves an empty list, reports its change; fails without changing anything |
| SetStore.SAdd | internal/storage/memory.go:977-995 | Keeps the invariant and reports its change; fails without changing anything |
| SetStore.SRem | internal/storage/memory.go:998-1021 | Keeps the invariant and reports its change; fails without changing anything |
| SetStore.Overwrite | internal/storage/memory.go:1187-1196 | Keeps the invariant, fails without changing anything, and reports its change unless the result is empty |
| ZSetStore.ZAdd | internal/storage/memory.go:1365-1399 | Keeps the invariant and reports its change; fails without changing anything |
| ZSetStore.ZRem | internal/storage/memory.go:1402-1425 | Keeps the invariant and reports its change; fails without changing anything |
| ZSetStore.ZIncrBy | internal/storage/memory.go:1501-1513 | Keeps the invariant and reports its change; fails without changing anything |
| ZSetStore.ZPop | internal/storage/memory.go:1756-1810 | Keeps the invariant and reports its change; fails without changing anything |
| ZSetStore.Overwrite | internal/storage/memory.go:1839-1844 | Keeps the invariant, fails without changing anything, and reports its change unless the result is empty |
| Storage.MemoryStore.TypeOf | internal/storage/memory.go:137-154 | The map-by-map lookup gives the type of the slot: a live string first, and no collection after the deadline |
| Storage.MemoryStore.GetSet | internal/storage/memory.go:965-974 | The operand a key stands for: empty if absent, an error on another type |
| Storage.MemoryStore.GetZSet | internal/storage/memory.go:1338-1347 | The operand a key stands for: empty if absent, an error on another type |
| Storage.MemoryStore.BumpVersion | internal/storage/memory.go:121-123 | One bump, and no key changes |
| Storage.MemoryStore.DeleteKey | internal/storage/memory.go:126-133 | Nothing is left under the key in any map, other keys and all versions stay |
| Conduct.StringConduct | internal/commands/string.go:15-339 | String commands keep the invariant, report every change, and change nothing when they fail |
| Conduct.KeyConduct | internal/commands/expire.go:13-136 | So do expiry commands, DEL and RENAME, and a flush keeps the invariant |
| Conduct.HashConduct | internal/commands/hash.go:13-181 | So do hash commands, an HDEL of the last field excepted for reports |
| Conduct.ListConduct | internal/commands/list.go:13-305 | So do list commands |
| Conduct.SetConduct | internal/commands/set.go:12-250 | So do set commands, an empty STORE excepted for reports |
| Conduct.ZSetConduct | internal/commands/zset.go:38-588 | So do sorted-set commands, an empty STORE excepted for reports |
| Durability.UnloggedIsQuiet | internal/commands/router.go:252-277 | A pop, move or removal whose reply keeps it out of the log has changed nothing |
| Durability.TypedKept | internal/commands/router.go:227-234 | Commands logged as typed are restored by their record |
| Durability.RenameKept | internal/commands/router.go:346-365 | A RENAME whose records carry everything is restored by them, and one onto itself needs none |
| LateRestart.SweepMirrors | internal/storage/memory.go:86-106 | A sweep of the live store before the restart keeps the mirror |
| Watch.ServeVouches | internal/server/handler.go:238-245 | An open command of any client keeps what the saved versions vouch for |
| Delivery.StartIsGood | internal/pubsub/broker.go:25-30 | The invariant holds of a new broker |
| Handlers.HandleSet | internal/commands/string.go:15-104 | SET with its options is one step, its reply the old value, OK or null |
| Handlers.SetAll | internal/commands/string.go:202-210 | MSET's loop stores the pairs one after another, later ones winning |
| Handlers.HandleSetNX | internal/commands/string.go:161-170 | Get and conditional Set together are one step |
| Handlers.HandleSetEX | internal/commands/string.go:174-198 | Stores value and deadline |
| Handlers.HandleGetSet | internal/commands/string.go:233-243 | Get and Set together are one step that returns the old value |
| Handlers.HandleGetDel | internal/commands/string.go:247-257 | Get and Del together are one step; a key without a live string stays |
| Handlers.HandleGetEx | internal/commands/string.go:260-329 | GETEX after its options is one step that returns the live string or null |
| Handlers.HandleGet | internal/commands/string.go:109-118 | GET changes nothing and returns the live string or null |
| Handlers.HandleAppend | internal/commands/string.go:331-339 | Get and Set together append, dropping the deadline |
| Handlers.HandleExpireAt | internal/commands/expire.go:86-124 | A time already past deletes the key and still answers one |
| Handlers.HandleHIncrBy | internal/commands/hash.go:158-181 | HGet, wrapping sum and HSet together are one step |
| Wording.AnyCase | internal/commands/router.go:198-199 | Command names are recognised in any case |
| Wording.PairsAre | internal/commands/string.go:206-208 | The pairs of MSET are the words at odd positions with the ones after them, in order |
| Wording.FieldsNamed | internal/commands/hash.go:18-22 | The fields of HSET are the words that come first in a pair |
| Wording.FieldsValued | internal/commands/hash.go:18-22 | The last pair of a field gives its value |
| Wording.ItemsAre | internal/commands/zset.go:70-77 | The pairs of ZADD, score by score and member by member; none if and only if some score does not parse |
| Wording.SetOptionsSay | internal/commands/string.go:23-86 | The options of SET in any order set exactly the flags among them, and the last number counts |
| Wording.SetOptionsAre | internal/commands/string.go:23-86 | Conversely, words that SET accepts are options one after another |
| Wording.GetExOptionsSay | internal/commands/string.go:268-320 | The same for GETEX |
| Wording.GetExOptionsAre | internal/commands/string.go:268-320 | Conversely for GETEX |
| Wording.AddFlagsAre | internal/commands/zset.go:43-60 | The flags of ZADD are the words in front that are flag words, up to the first that is not; each flag is set if and only if its word is among them |
| Wording.StoreOptionsSay | internal/commands/zset.go:552-576 | A key has the weight the last WEIGHTS that reaches it gives, or one, and the last AGGREGATE counts: the smallest, the largest, or for any other word the sum |
| Wording.StoreOptionsAre | internal/commands/zset.go:552-576 | Conversely, words that ZUNIONSTORE and ZINTERSTORE accept after the keys are such options, only the last of which may have too few weights |
| StringLaws.GetAnswers | internal/commands/string.go:109-118 | GET answers the string of the key up to its deadline, that instant included, null otherwise, and changes nothing |
| StringLaws.SetMeans | internal/commands/string.go:15-104 | SET with any options: NX stores if and only if GET answered null, XX if and only if it answered a value; a refused SET leaves store and versions as they are; a stored one puts exactly the value under the key, with the deadline EX, PX, EXAT or PXAT gives, the old one with KEEPTTL, none otherwise; GET returns the former answer |
| StringLaws.SetErrs | internal/commands/string.go:15-104 | Everything else is an error that changes nothing |
| StringLaws.SetNXMeans | internal/commands/string.go:161-170 | Stores and answers one if and only if GET answered null |
| StringLaws.SetEXMeans | internal/commands/string.go:174-198 | SETEX and PSETEX: the value with a deadline so many seconds or milliseconds away; counts that are not positive are errors |
| StringLaws.GetSetMeans | internal/commands/string.go:233-243 | The new value without deadline, and the former answer of GET |
| StringLaws.GetDelMeans | internal/commands/string.go:247-257 | The answer of GET, and the key is gone if there was a string |
| StringLaws.AppendMeans | internal/commands/string.go:331-339 | The former text with the new one behind it, without deadline, and its length |
| StringLaws.GetExMeans | internal/commands/string.go:260-326 | Answers what GET answers, raises no version, and changes nothing but the deadline: PERSIST takes it away, else the last number moves it |
| StringLaws.GetExErrs | internal/commands/string.go:260-326 | Any other words are an error that changes nothing |
| StringLaws.MSetLast | internal/commands/string.go:202-210 | For every odd position whose key is not given again, the key holds the word after it and no deadline |
| StringLaws.MSetKeeps | internal/commands/string.go:202-210 | A key at no odd position is left as it is |
| StringLaws.MSetBumps | internal/commands/string.go:202-210 | Every pair raises the version of its key, in order |
| KeyLaws.DelMeans | internal/storage/memory.go:275-287 | Every key named that is there is gone and told once, all others stay, and the answer is how many they were, repetitions not counted |
| KeyLaws.ExpireMeans | internal/commands/expire.go:13-41 | EXPIRE and PEXPIRE set the deadline of a key that is there, with its string or beside its collection, answer one and raise no version; a missing key answers zero; negative times are errors |
| KeyLaws.ExpireAtMeans | internal/commands/expire.go:86-124 | EXPIREAT and PEXPIREAT set the very deadline; a time that is not in the future takes the key away and answers one even when there is none |
| KeyLaws.PersistMeans | internal/commands/expire.go:128-136 | Answers one if and only if there was a deadline, which is gone then |
| KeyLaws.ExpireThenTTL | internal/storage/memory.go:415-439 | After EXPIRE or PEXPIRE, TTL answers the time given, or minus two for a missing key |
| KeyLaws.PersistThenTTL | internal/storage/memory.go:415-439 | After PERSIST, TTL answers minus one, or minus two for a missing key |
| KeyLaws.RenameMeans | internal/commands/server_cmds.go:81-96 | What the key shows is under the new name with its deadline and nothing else is; anything hidden behind it stays, without deadline; both versions are raised |
| KeyLaws.FlushMeans | internal/commands/server_cmds.go:100-116 | An empty store and no versions |
| HashLaws.HSetMeans | internal/commands/hash.go:13-24 | The hash has its fields and the ones named, those not named unchanged; the answer is how many are new; a string under the key is gone, nothing else changes |
| HashLaws.HSetLast | internal/commands/hash.go:13-24 | The last pair of a field gives its value |
| HashLaws.HDelMeans | internal/storage/memory.go:561-583 | Exactly the fields named go, and the answer counts them; a hash left without fields goes with its deadline and its version |
| HashLaws.HIncrByMeans | internal/commands/hash.go:158-181 | The wrapping sum of the number in the field, or zero, and the increment is stored and answered; a field that is no number is an error that changes nothing |
| ListLaws.PushMeans | internal/commands/list.go:13-65 | LPUSH, RPUSH, LPUSHX, RPUSHX, element by element: pushed left the values are in front with the last first, pushed right behind in order, and the old elements keep their order; the answer is the length |
| ListLaws.PopMeans | internal/commands/list.go:68-133 | So many elements from one end in the order of the list, and the rest stays; without a count one element alone; a list left empty goes with its deadline |
| ListLaws.PushThenPop | internal/storage/memory.go:670-749 | LPOP of as many as LPUSH pushed answers them last first, RPOP after RPUSH in order, and the list is the one there was |
| ListLaws.PushOneByOne | internal/storage/memory.go:670-697 | Pushing several values is pushing some and then the others |
| ListLaws.LSetMeans | internal/commands/list.go:188-203 | The element at the index is replaced, negative ones counting from the end; an index outside the list is an error |
| ListLaws.LInsertMeans | internal/commands/list.go:206-224 | The value is next to the first element equal to the pivot, in front of it or behind; minus one without such an element, zero without a list |
| ListLaws.LRemMeans | internal/commands/list.go:227-240 | The list is what `ListTheorems.RemovedFromHead` and `RemovedFromTail` describe, and the answer counts the copies removed |
| ListLaws.LTrimMeans | internal/commands/list.go:243-259 | Exactly the elements between the two indices stay, negative ones counting from the end |
| ListLaws.LMoveMeans | internal/commands/list.go:262-307 | The element at one end of the source, whose end the word names, is answered and put at the named end of the destination, also of the same list; RPOPLPUSH goes from right to left |
| SetLaws.CombinedMeans | internal/storage/memory.go:1082-1177 | Of sets: the members of some operand, of all, or of the first and no other. An operand of another type is an error for the union always, for the others if and only if it is the first or some member of the first passes all operands before it |
| SetLaws.SStoreMeans | internal/commands/set.go:143-176 | From the words of SUNIONSTORE, SINTERSTORE and SDIFFSTORE: the destination holds exactly those members and nothing else, the answer is their number; an error changes nothing |
| SetLaws.SAddMeans | internal/commands/set.go:12-21 | The members named are added, and the answer counts the new ones |
| SetLaws.SRemMeans | internal/commands/set.go:24-33 | The members named go, and the answer counts those there were; a set left empty goes with its deadline |
| SetLaws.SMoveMeans | internal/commands/set.go:241-253 | The member leaves the source and is in the destination, or nothing changes and the answer is zero |
| ZOrder.LexMeans | internal/storage/memory.go:1349-1362 | The tie-break is dictionary order: at the first difference the smaller character, or the end, comes first |
| ZSetLaws.ZAddMeans | internal/commands/zset.go:38-84 | One score and member after any flags: NX lets it in if and only if the member is new, XX if and only if it is not, GT and LT if the score is greater or less than the one there; the score is stored and the answer is one for a new member, or with CH for another score |
| ZSetLaws.ZAddSplits | internal/commands/zset.go:70-84 | Several pairs are the first ones and then the others, and the answers add up |
| ZSetLaws.ZRemMeans | internal/commands/zset.go:87-96 | The members named go, and the answer counts those there were |
| ZSetLaws.ZIncrByMeans | internal/commands/zset.go:156-169 | The sum of the score, or zero, and the increment is stored and answered |
| ZSetLaws.ZPopMeans | internal/commands/zset.go:475-520 | The lowest or highest pairs by score and then member go, each answered in that order with its score; every pair left is beyond them |
| ZSetLaws.ZStoreMeans | internal/commands/zset.go:534-586 | From the words of ZUNIONSTORE and ZINTERSTORE: the destination holds the members of some key, or of all, each with the sum, least or greatest of its scores times the weights of the keys that have it; a key of another type is an error that changes nothing |
| ZSetLaws.ZStoreErrs | internal/commands/zset.go:534-577 | Any other words are an error that changes nothing |
| ReplayTheorems.NegativePopPanics | internal/persistence/replay.go:171-193 | A record that pops a negative number ends the process if and only if its key holds elements of the right type; otherwise it changes nothing |
| RespTheorems.WireSamples | internal/protocol/serializer.go:12-38 | Simple strings, errors and the two nulls, byte by byte; the other kinds are in `Frames` |

## Left out

- PubSub.Connection.HandleSubscribe: is one step at the level of a command; that the write loop may take frames between two acknowledgements is in Delivery only, so the acknowledgements are stated as a subsequence of those sent, because a full inbox drops them.
- PubSub.Connection.HandleUnsubscribe: the same.
- PubSub.Subscriber.Send: tests the done signal and enqueues in one step; the two steps and what may happen between them are in Delivery.NextIsGood.
- PubSub.Broker.Publish: takes its snapshot and sends in one step; other operations between them are in Delivery.NextIsGood.
- Routing.Router.Dispatch: answers an error to SPOP, INCRBYFLOAT, HINCRBYFLOAT and all reads but GET; and where a ZUNIONSTORE or ZINTERSTORE with one of the three largest numbers of keys slices out of range and ends the process, of which LogLimits.NumkeysWrap says exactly when, and that nothing was changed or logged by then.
- Durability.DispatchConduct: the same.
- Lifecycle.LiveThrough: asks that no command is SPOP, INCRBYFLOAT or HINCRBYFLOAT (Durability.Unmodelled), as do all results on runs and restarts; the choice of SPOP is random and its record pops another one, and the others are a matter of rounding.
- Persistence.ApplyCommand: refuses the record of an SPOP, and answers an error to a STORE record with such a number of keys, which no server writes.
- RespCodec.Parser.NextBulk: the source allocates the announced length before it reads, so a length near the largest integer ends the process there; here it is an unexpected end of input.
- RespCodec.Parser.NextArray: the same for the announced number of elements.
- Sessions.Handler.Receive: SUBSCRIBE, UNSUBSCRIBE, PSUBSCRIBE and PUNSUBSCRIBE go to the methods of PubSub.Connection instead, PUBLISH is not dispatched, and reads other than GET are answered as by Routing.Router.Dispatch.
- LateCollections.JoinMirrors: is one way, for keys that have not missed a deadline; what becomes of a move or a STORE that reads a key past its deadline depends on all of its operands.
- Files, buffering, fsync policies and disk errors: the log is its bytes. Appending after a torn tail is not modelled; the file keeps the damaged record.
- A router without a log.
- Rounding, NaN and infinities of 64-bit floats: scores are exact.
- The texts of error replies: every error is the same value. The reads that have properties of their own are methods of the store.
- Glob matching: a predicate given from outside.
- ZCARD on an absent key, which dereferences nil, and lexicographic ranges.
- Upper-casing of command names beyond ASCII.
- The 64-bit wrap of versions, and the wrap of instants inside the time library.
- Mutexes: every method of the store and the broker is one step. Handlers that read and then write are modelled as one step too, and EXEC is not claimed to be atomic across clients.
- Sockets, signals, configuration, logging, and the commands that only report on the server.
