# chirc, verified model

A Dafny model of the chirc IRC server and of the two libraries it is built on: the intrusive
hash table `uthash` and the dynamic strings `sds`. Code that works by changing things in place
is modelled in place (classes, arrays, relinked nodes, loops) and proved against functions on
values; the properties of those functions are lemmas.

The project has four parts.

**The hash table** (`Bits`, `StableSort`, `HashItem`, `HashList`, `HashSort`, `HashBuckets`,
`HashTable`, `HashFsck`, `OrderedTable`, `HashRun`). One heap structure threaded twice: a doubly
linked application-order list and doubly linked bucket chains over the same items. The abstract
state of a table is `Items`, the items in application order, and `Index`, a plain map from keys to
items. `Valid()` says that both threads describe exactly these items, with every link, count, hash
value, the tail and the power-of-two bucket count right. The hash function is an arbitrary
function of the key, and each item carries data the table never changes, which a comparison may
read. Counts and statistics are 32-bit words as in the original.

**Strings** (`SdsBuffer`, `SdsRun`, `SdsGrowth`, `SdsNumber`, `SdsFormat`, `SdsSplit`, `SdsQuote`, `SdsArgs`). A string is
a header of one of five widths, a length, a capacity and a byte array with a terminator; header
fields keep only their low bits. On it: growing and shrinking, appending, the formatter, number
printing, splitting and joining, quoting and its scanner. `SdsArgs` is the language that scanner reads,
as a grammar.

**Wire input** (`Message`, `Service`). Bytes arriving in arbitrary chunks are framed into lines ended
by CR LF, and lines are parsed into messages in place.

**The chat server** (`ChatState`, `ChatInvariant`, `ChatReference`, `ChatRefinement`,
`ChatProvenance`, `ChatDelivery`, `ChatAnswers`, `ChatFailures`, `ChatKeys`, `ChatLoops`, `ChatObjects`, `ChatContext`,
`ChatHandlers`, `ChatSession`, `ChatServer`).
`ChatState` states each handler as a function on a value keyed like the server's tables: users by
nick, members by nick, connections by socket. `ChatObjects`, `ChatContext` and `ChatHandlers` are the
records, tables and handlers themselves, updated in place; each handler is proved to do to them what
its function does to the state, and `Serve` carries this over whole runs. `ChatReference` is a second
server whose channels hold user identities and where a nick is only a label; `ChatRefinement` proves
that on every run the two agree, outboxes included. `ChatDelivery` and `ChatAnswers` say in plain terms who
hears what of each command, and what is answered to a refused one. `OrderedTable` is what a hash table is to the
chat code; `HashRun` proves that the intrusive table is one. `ChatSession` joins the wire to the
server: received bytes are framed, parsed and carried out until the stream ends or a command fails.
`ChatServer` does so for all clients at once, with a receive buffer each; an event is one byte taken up
by one client's thread, so that any chunks and any interleaving of the threads are covered.

One handler call is one atomic step. A send appends to the receiver's outbox and succeeds.

## Assumptions on a run

The chat code needs these of its clients; `Legal` states them. `ChatFailures` gives, for each, a run
that is legal up to its last step and there crashes the code or breaks the invariant.

- A client leaves its channels before it disconnects: neither QUIT nor `free_data` removes
  memberships (`MemberLeaves`).
- A disconnecting client holds a nick: `delete_user` deletes its record from the user table
  unconditionally, and the null links of a record that was never filed make that free the whole
  table (`Delete`, `DeleteUnfiled`, `NamelessLeaves`), or follow a null head when it is empty
  (`EmptyTableCrash`).
  `DisconnectExact` says that these two conditions are exactly what a disconnect needs.
- An unregistered client gets at most one nick: a second NICK enters the same record twice
  (`TwoNicks`, `ReenteringExact`). What that does to the table itself is `AppendAgain`: no list starts
  at its head any more.
- USER with fewer than four parameters comes from a client with a nick, and a member's PART with a
  trailing parameter has a second one: the code formats a null string otherwise (`UserWithoutNick`,
  `PartTrailing`). `CrashesExact` says that there is no other request on which it does. Each numeric
  reply of the model names its receiver, so its handler reads the nick the code formats.
- Parameters hold no zero byte: some look-ups and comparisons stop at one and others do not. For
  nicks, `AddKeyExact` and `RenameKeyExact` say exactly when two users get the same one, and
  `SameNickTwice` is an input on which they do.
- Sockets of connected clients are distinct.

A handler that fails (NICK, or JOIN of a registered client, with an empty first parameter) leaves
the state as it was; the server then closes that client, which is a Disconnect step of its own.

## Where the code does not do what it is for

- The operator count LUSERS reports is not the number of operators. `OperatorCount` gives the
  difference on every run: one for each accepted OPER of a client that is an operator already and
  one for each operator that disconnects; the count is right exactly when there was no such step.
  `TwoOpersOneOperator` is a run of one client where LUSERS says two.
- Parameters are stored by word position but counted by number, so behind a run of blanks a counted
  slot stays empty. `SlotsFilledExact` says exactly when every counted slot is filled, and
  `BlankLeavesHole` is a line where one is not.
- The multiplier of a bucket is computed through a 32-bit product. `LoopMultExact` says that it is right
  if and only if the product tested for the bucket's last item fits 32 bits, and never too small otherwise;
  `FirstWrapped` gives the chain length at which it first goes wrong for each ideal length that divides 2^32
  (4227858434 for the ideal length 2^26), and `MultipliersExact` shows that it is right on every bucket of a
  table of up to 4227858432 items.
- Splitting does not always undo joining. `JoinThenSplit` says exactly when it does, for every separator:
  each token ends where the separator behind it is first met, the last holds none, and the list is not
  `[""]`, whose join is empty and splits to no token. `StraddledSeparator` is a list of tokens that do
  not contain the separator and still do not come back.

## Model

| member | source | states |
|---|---|---|
| HashTable.Table.Find | lib/uthash.h:744-763 | the result is exactly what the map from keys to items would answer, null included |
| HashTable.Table.Count | lib/uthash.h:1065-1066 | the number of entries of the map, which is the length of the list |
| HashTable.Table.Add | lib/uthash.h:397-421 | a fresh key: the item is last in application order and in the map under its key, nothing else changes, both threads stay sound; the buckets double exactly when the item makes its chain too long and doubling is not latched off, and then statistics and latch are exact |
| HashTable.Table.AddInOrder | lib/uthash.h:351-388 | the item goes before the first item that compares greater, or last; the map gains it; both threads stay sound; doubling as for Add |
| HashTable.Table.AppendAgain | lib/uthash.h:279-285 | appending an item the list already has leaves links that spell no list from the head, wherever the item was |
| HashTable.Table.Delete | lib/uthash.h:451-478 | the list and the map are what they were without the item, both threads stay sound, the last deletion frees the table; deleting an item that was never added frees it too, with every item in it |
| HashTable.Table.Sort | lib/uthash.h:889-971 | the list becomes its stable sort by relinking, head, tail and back links right, the bucket chains and the map untouched |
| HashTable.Table.ExpandBuckets | lib/uthash.h:832-882 | twice the buckets, the same items; every old chain is split between its two new ones, none lost and none duplicated; the non-ideal total and the no-expansion latch exact, every multiplier the outcome of the 32-bit test |
| HashTable.Table.AddToTable | lib/uthash.h:766-785 | the item is filed in its chain; the buckets double exactly when the chain reaches its limit and doubling is not latched off, and otherwise the bucket array, statistics and latch stay |
| HashTable.Table.MultipliersExact | lib/uthash.h:855-860 | after an expansion a bucket has the multiplier MultFor if and only if the product tested for its last item fits 32 bits, which holds for every bucket of a table of up to 4227858432 items |
| HashBuckets.LoopMultExact | lib/uthash.h:855-860 | for every chain and ideal length of 32 bits the loop's multiplier is at least MultFor, and equal to it if and only if the last product fits 32 bits |
| HashBuckets.FirstWrapped | lib/uthash.h:855-860 | for an ideal length from 3 to 2^30 that divides 2^32 the multiplier is wrong for a chain of 2^32 - ideal + 2 items and right for one less |
| HashBuckets.Doubled | lib/uthash.h:838-869 | the doubled array indexes the same items, the ideal length is the ceiling of items over buckets, the non-ideal total is exact and every multiplier the outcome of the 32-bit test |
| HashBuckets.IdealIsCeiling | lib/uthash.h:845-847 | the shift-and-mask expression is the ceiling of the quotient for every item count and every power of two |
| HashBuckets.MultStep | lib/uthash.h:855-860 | counting items one at a time with the loop's test gives each bucket the multiplier 0 when count <= ideal and min(count - ideal, ceil(count / ideal)) otherwise |
| HashBuckets.CountItem | lib/uthash.h:855-860 | after each counted item the non-ideal total is the sum of the excesses over all buckets, and every multiplier that of the 32-bit test over its bucket's items |
| HashBuckets.ChainSplits | lib/uthash.h:849-868 | the two new chains an old chain feeds hold its items between them, each once |
| HashBuckets.BucketSplits | lib/uthash.h:853-854 | an item of old bucket b is in new bucket b or b plus the old bucket count |
| HashBuckets.BucketIsRemainder | lib/uthash.h:431-434 | the bucket of an item is the remainder of its hash value by the bucket count |
| HashBuckets.Push | lib/uthash.h:766-775 | the item becomes the first of its chain, the other chains stay |
| HashBuckets.Remove | lib/uthash.h:788-801 | the item leaves its chain, links and count follow, the other chains stay |
| Bits.AndMask | lib/uthash.h:431-434 | masking with a power of two minus one is the remainder |
| StableSort.SortSorted | lib/uthash.h:885-971 | the specified order is sorted, for any total preorder |
| StableSort.SortContents | lib/uthash.h:885-971 | the specified order is a permutation of the original |
| StableSort.SortStable | lib/uthash.h:885-971 | items that compare equal keep their original relative order |
| StableSort.PassDoublesRuns | lib/uthash.h:899-967 | a pass turns sorted runs of k items into sorted runs of 2k items |
| StableSort.InsertIsAppendThenSort | lib/uthash.h:287-294 | on a sorted list, in-order insertion is appending followed by the stable sort |
| HashSort.MergeRuns | lib/uthash.h:915-956 | two neighbouring runs are relinked into their merge, the first run winning ties, without losing an item |
| HashSort.PassInPlace | lib/uthash.h:899-961 | one pass relinks the list into the merge pass of its order; it reports at most one merge exactly when two run lengths cover the list |
| HashSort.SortInPlace | lib/uthash.h:889-971 | the loop over doubled 32-bit run lengths ends with the list in its stable order |
| HashFsck.Fsck | lib/uthash.h:517-564 | on any table whose forward links can be walked, the check passes if and only if every back link, every chain count and both totals are right |
| HashFsck.FsckPasses | lib/uthash.h:517-564 | in a valid state they all are |
| HashRun.Replay | lib/uthash.h:397-478 | over every run of add, delete and find, in which deleted items may be added again: each find answers as a plain map would, the list is the keys in insertion order with deletions removed, the count is the map's size, and the integrity check passes after every operation |
| HashRun.RenameIsPossible | src/channel.c:127-129 | after any run an item can be deleted and added under another key, and the table then stands for the map with the key replaced |
| HashRun.DeleteUnfiled | src/context.c:226-236 | deleting a record with null links that is not in the table leaves a table that stands for the empty map |
| SdsBuffer.Sds.MakeRoomFor | lib/sds/sds.c:213-257 | content unchanged, at least addlen bytes free when addlen > 0, the capacity policy exact, len <= alloc <= the header's maximum across header changes |
| SdsBuffer.Sds.RemoveFreeSpace | lib/sds/sds.c:265-301 | content unchanged, no free byte, a changed header is the smaller one the length needs |
| SdsBuffer.Sds.CatLen | lib/sds/sds.c:413-423 | content is the old content followed by the new bytes, terminated, every write inside the block |
| SdsBuffer.Sds.CpyLen | lib/sds/sds.c:445-455 | content is exactly the given bytes |
| SdsBuffer.Sds.Range | lib/sds/sds.c:767-794 | content is the slice with both ends included, negative indices counted from the end, all index cases |
| SdsBuffer.NegativeIndex | lib/sds/sds.c:772-779 | at either end the index -i means the i-th byte from the end, and the first byte when i is more than the length |
| SdsBuffer.KeptBytes | lib/sds/sds.c:780-793 | between two ends inside the string every byte is kept, both ends included |
| SdsBuffer.BeyondTheString | lib/sds/sds.c:780-789 | an end beyond the string is cut to its last byte, a start beyond it or behind the end keeps nothing |
| SdsBuffer.LastBytes | lib/sds/sds.c:748-765 | from -i to -1 the last i bytes are kept |
| SdsBuffer.GrowTypeIsSmallest | lib/sds/sds.c:232-237 | a grown string has the smallest header but type 5 that can hold its capacity |
| SdsBuffer.Spare | lib/sds/sds.c:226-230 | growing to a length leaves as many bytes to spare, up to one megabyte |
| SdsRun.Replay | lib/sds/sds.c:213-301 | over every run of growing, shrinking, appending, replacing and cutting: len <= alloc <= the header's maximum, everything inside the block and terminated, the content what the operations make of it, room there when asked for |
| SdsGrowth.AmortisedGrowth | lib/sds/sds.c:213-257 | below the preallocation limit, all reallocations of a run of appends together copy at most twice the final length |
| SdsGrowth.SteadyGrowth | lib/sds/sds.c:226-230 | from the limit up, k reallocations take more than k - 1 megabytes of appended bytes, and never more than one megabyte is to spare |
| SdsGrowth.CatAll | lib/sds/sds.c:413-423 | a run of appends from the empty string yields the concatenation, within that copying bound |
| SdsNumber.SignedReadsBack | lib/sds/sds.c:471-531 | the printed form of any integer reads back to it |
| SdsNumber.DecimalDigits | lib/sds/sds.c:504-531 | a printed number has digits only and no leading zero |
| SdsNumber.NumbersFit | lib/sds/sds.c:470-475 | every 64-bit number, the least one included, prints in fewer than 21 bytes |
| SdsNumber.Ll2Str | lib/sds/sds.c:471-501 | the buffer holds the decimal form of the signed value and a terminator, all writes inside 21 bytes |
| SdsNumber.Ull2Str | lib/sds/sds.c:504-531 | the same for unsigned values |
| SdsFormat.CatFmt | lib/sds/sds.c:626-719 | the string grows by exactly the expansion of the format, position always equal to length, every write inside the capacity made for it |
| SdsFormat.TextExpands | lib/sds/sds.c:707-710 | a format without a conversion expands to itself |
| SdsFormat.ExpandAppend | lib/sds/sds.c:639-712 | one format behind another expands to the one expansion behind the other, each with its own arguments |
| SdsFormat.TextConversions | lib/sds/sds.c:656-667 | "%s" prints a text up to its first zero byte, "%S" prints any text |
| SdsFormat.NumberConversions | lib/sds/sds.c:667-700 | "%i", "%I", "%u" and "%U" print decimal digits that read back to the number, over the whole range of their type |
| SdsFormat.OtherConversions | lib/sds/sds.c:701-704 | "%%" prints "%", and so any other character behind "%" prints itself |
| SdsSplit.SplitLen | lib/sds/sds.c:852-900 | the slots array always has room and holds the tokens of the input; no result for an empty separator |
| SdsSplit.SplitThenJoin | lib/sds/sds.c:852-900 | joining the tokens by the separator restores the input, for any separator length |
| SdsSplit.TokensWithoutSeparator | lib/sds/sds.c:852-900 | no token contains the separator |
| SdsSplit.JoinThenSplit | lib/sds/sds.c:1176-1199 | for every list and separator: splitting the join returns the list if and only if each token ends where the separator behind it is first met, the last token holds none, and the list is not the single empty token |
| SdsSplit.OneByteSeparable | lib/sds/sds.c:877 | for a separator of one byte that condition says that no token holds the byte |
| SdsSplit.StraddledSeparator | lib/sds/sds.c:852-900 | the tokens "a-" and "b" do not contain "--" and do not come back from their join by it |
| SdsSplit.JoinSds | lib/sds/sds.c:1189-1199 | the result is the join of the strings by the separator |
| SdsQuote.CatRepr | lib/sds/sds.c:917-951 | the string grows by the quoted form of the bytes |
| SdsQuote.PrintedAsIs | lib/sds/sds.c:941-943 | printable characters other than quote and backslash are printed as they are |
| SdsQuote.AllPrintable | lib/sds/sds.c:917-951 | whatever the bytes, the printed form has printable characters only |
| SdsQuote.SplitArgs | lib/sds/sds.c:1028-1148 | the scanner returns the arguments of the line, or nothing on an unbalanced quote |
| SdsArgs.SplitArgsExact | lib/sds/sds.c:1009-1148 | a line has these arguments if and only if it is a writing of them: words apart by blanks, each of bare bytes and then perhaps one double-quoted part, with named, hexadecimal and other escapes, or one single-quoted part |
| SdsQuote.SplitArgsUndoesRepr | lib/sds/sds.c:1020-1021 | quoting any byte strings, separating them by any blanks and splitting gives the strings back |
| Message.MessageFromString | src/message.c:11-48 | command, longlast, the parameter count and every slot of the parameter array, words stored by position and the trailing parameter by count; every index in bounds |
| Message.SlotsFilledExact | src/message.c:33-41 | every counted slot is filled if and only if no parameter comes behind an empty word |
| Message.BlankLeavesHole | src/message.c:33-37 | a line with two blanks in a row counts one parameter and leaves its slot empty |
| Message.SlotsSay | src/message.c:33-41 | then the slots are the non-empty words in order and the trailing parameter |
| Message.ParseUndoesBody | src/message.c:22-45 | parsing a rendered well-formed message (RFC 2812, section 2.3.1) returns its parts |
| Service.Client.OnByte | src/single_service.c:50-76 | one byte: LF right behind CR ends a line and empties the buffer, anything else is stored inside the buffer |
| Service.ReceiveMessages | src/single_service.c:26-76 | whatever the chunks, the messages handed over are those of the whole stream, in order |
| Service.TakeAppend | src/single_service.c:26-76 | cutting the stream elsewhere changes nothing |
| Service.FramingIsSplit | src/single_service.c:52-75 | the lines and the pending bytes of any stream are the pieces between its CR LF pairs, a lone CR or LF being a byte like any other |
| Service.FramedAsSent | src/single_service.c:52-75 | bodies without CR LF, each ended by one, come out byte for byte |
| Service.WireRoundTrip | src/single_service.c:26-76 | well-formed messages of at most 510 characters (RFC 2812, section 2.3), rendered and cut into chunks anywhere, are accepted and parsed back in order |
| Service.WireDelivers | src/single_service.c:53-59 | the messages handed over for such a stream have the command, parameters and longlast that were sent, in order |
| ChatInvariant.TakeInv | src/context.c:165-211 | every legal step keeps: user-table keys are current nicks, distinct per user; members are registered users; registered exactly with both names, connection state in step, welcomed once |
| ChatInvariant.ReachableInv | src/channel.c:55-132 | every reachable state satisfies this |
| ChatInvariant.DisconnectExact | src/single_service.c:80-86 | a client can be dropped and leaves a sound state if and only if it holds a nick and is on no channel |
| ChatFailures.NamelessLeaves | src/context.c:226-236 | a legal run after which the disconnect of a client without a nick loses the nick of another client |
| ChatFailures.EmptyTableCrash | src/context.c:226-236 | a legal run after which the disconnect of a client without a nick deletes from an empty table, whose head is null |
| ChatFailures.MemberLeaves | src/single_service.c:80-86 | a legal run after which the disconnect of a channel member breaks the invariant |
| ChatFailures.TwoNicks | src/context.c:180-181 | a legal run after which a second NICK before registration breaks the invariant |
| ChatFailures.CrashesExact | src/handler.c:723-734 | a request crashes if and only if a null string is among those its replies are formatted from |
| ChatFailures.UserWithoutNick | src/handler.c:723-734 | a legal run after which a reply to USER formats a null nick |
| ChatFailures.PartTrailing | src/handler.c:576-578 | a legal run after which a reply to PART formats a parameter that was never stored |
| ChatKeys.AddKeyExact | src/context.c:165-185 | a first nick, looked up as a C string and filed whole, gives two users one key if and only if it is in use and its C string is not |
| ChatKeys.RenameKeyExact | src/context.c:187-211 | the same for a change of nick, which may keep the nick |
| ChatKeys.SameNickTwice | src/context.c:173-181 | two clients get one and the same nick with a zero byte |
| ChatInvariant.ReenteringExact | src/context.c:180-181 | after a NICK the invariant holds if and only if it did not enter an unregistered client's record again |
| ChatRefinement.RefRename | src/context.c:187-211 | renaming a user through every channel and telling each affected channel is, by identity, a change of label and one notice per shared channel |
| ChatRefinement.RefTake | src/handler.c:80-721 | one step of the nick-keyed server is one step of the identity-keyed one |
| ChatRefinement.Refines | src/context.c:335-363 | after every legal run both servers have the same memberships, operator flags, records and outboxes |
| ChatProvenance.Provenance | src/handler.c:671-721 | over every run: a member's flag is what its latest create, join or accepted mode event in the channel's current incarnation left; an operator is a client that presented the password since it came; every accepted flag change was authorised by the events before it |
| ChatProvenance.ModeIsAuthorised | src/handler.c:683-715 | a MODE is accepted, and its target told of it, if and only if the channel, mode and target are valid and the sender is an operator of the channel or of the server |
| ChatDelivery.MessageDelivery | src/handler.c:238-253 | a message to a channel, whose name starts with "#", adds one copy to the outbox of each member but the sender and changes nothing else |
| ChatDelivery.DirectDelivery | src/handler.c:213-235 | a message to a name that does not start with "#" reaches the client that holds this nick, once and nobody else; without one, only the sender hears that there is none |
| ChatAnswers.JoinDelivery | src/handler.c:504-539 | each member and the new one hears of a JOIN once, the new one then gets the names; it is on the channel and nobody else came or went |
| ChatAnswers.PartDelivery | src/handler.c:571-603 | each member and the leaving one hears of a PART once, with its farewell; it is off the channel, which is gone if nobody is left |
| ChatAnswers.ModeDelivery | src/handler.c:704-715 | each member hears of an accepted MODE once; one flag is set and nothing else changes |
| ChatAnswers.Registration | src/handler.c:130-140 | the second of its two names registers a client: it is welcomed and told the counts, and nobody else hears anything |
| ChatAnswers.NotRegisteredYet | src/handler.c:736-748 | before that, any other command is answered so and does nothing |
| ChatAnswers.NamesRefused | src/handler.c:80-157 | NICK without a nick or with one that a client holds, and USER too late or with too few parameters, are answered so and do nothing |
| ChatAnswers.TooFewParams | src/handler.c:723-734 | the number of parameters each command needs, and the answer without them |
| ChatAnswers.NotAMember | src/handler.c:556-574 | what a client is told of a channel that is not there or that it is not on |
| ChatAnswers.ModeRefused | src/handler.c:683-720 | the reasons a MODE is refused for, in order |
| ChatAnswers.OperAnswered | src/handler.c:656-668 | the server password makes an operator, another is refused |
| ChatDelivery.RenameDelivery | src/handler.c:115-130 | a rename adds to each client as many notices as it shares channels with the renamed user, the user itself included |
| ChatDelivery.StepAdvances | src/context.c:94-121 | no step takes a name, registration, operator status or sent reply from a client, nor moves its connection state back, nor takes it from unknown to registered at once |
| ChatDelivery.LusersRecount | src/handler.c:435-487 | the reported counts equal a direct recount of the user records, the operator count apart |
| ChatDelivery.OperatorCount | src/handler.c:652-664 | on every run the operator count exceeds the number of operators by the number of miscounting steps |
| ChatFailures.TwoOpersOneOperator | src/handler.c:652-664 | a legal run with one operator and a count of two |
| ChatObjects.Channel.Join | src/channel.c:55-84 | return code and member table in all cases |
| ChatObjects.Channel.Leave | src/channel.c:86-111 | return code and member table, the last member included |
| ChatObjects.Channel.UpdateMemberNick | src/channel.c:113-132 | the member is filed under the new nick with its flag unchanged |
| ChatObjects.Channel.UpdateMemberMode | src/channel.c:208-240 | return code and flag in all cases |
| ChatObjects.Channel.MemberNicks | src/channel.c:149-175 | the array holds the member nicks in table order |
| ChatContext.Context.AddUserNick | src/context.c:165-185 | return code, user table with the order of its keys, and record in all cases |
| ChatContext.Context.UpdateNickOnChannel | src/context.c:335-363 | every channel is renamed and the array lists exactly the affected ones, in order |
| ChatContext.Context.UpdateUserNick | src/context.c:187-211 | return code; on success user table, record and every channel carry the new nick |
| ChatContext.Context.TryGetChannel | src/context.c:263-283 | the channel of that name, created empty when absent, and whether it was |
| ChatContext.Context.GetChannelsUserOn | src/context.c:285-308 | the array lists exactly the channels with this member, in order |
| ChatContext.Context.ModifyConnectionState | src/context.c:94-121 | return code; a registered connection stays registered |
| ChatContext.Context.CountConnectionState | src/context.c:139-163 | the three counts equal the numbers of connections in each state |
| ChatContext.Context.NotifyAllChannelMembers | src/handler.c:779-801 | exactly one copy to each member but the skipped one |
| ChatContext.Context.FreeData | src/single_service.c:80-86 | record and connection leave their tables; without a nick the whole user table goes |
| ChatLoops.SendEachIsNotify | src/handler.c:779-801 | sending to the members one after the other reaches each client at most once |
| ChatLoops.NotifyEachIsRename | src/handler.c:115-130 | telling the affected channels one after the other gives each client one notice per shared channel |
| ChatLoops.TallyIsCount | src/context.c:150-160 | one walk over the table counts every connection once |
| ChatHandlers.HandlerNICK | src/handler.c:80-143 | the tables take the NICK step; it fails exactly on an empty nick |
| ChatHandlers.HandlerUSER | src/handler.c:147-183 | the tables take the USER step, its replies naming the nick of the client |
| ChatHandlers.HandlerJOIN | src/handler.c:491-540 | the tables take the JOIN step; it fails exactly for a registered user with an empty name |
| ChatHandlers.HandlerPART | src/handler.c:542-608 | the tables take the PART step, the second parameter quoted whenever there is a trailing one; an emptied channel is deleted |
| ChatHandlers.HandlerMODE | src/handler.c:671-721 | the tables take the MODE step |
| ChatHandlers.HandlerOPER | src/handler.c:644-669 | the tables take the OPER step |
| ChatHandlers.HandlerPRIVMSG | src/handler.c:188-254 | the tables take the PRIVMSG step |
| ChatHandlers.HandlerLUSERS | src/handler.c:435-487 | the tables take the LUSERS step |
| ChatHandlers.ProcessCmd | src/command.c:36-50 | one command is one step of the state, the invariant is kept, and failure is exact |
| ChatHandlers.Serve | src/single_service.c:17-86 | after any legal run of connects, commands and disconnects the tables stand for the state the run leads to |
| ChatSession.OnCommand | src/single_service.c:53-66 | one line is parsed and carried out; a failing command closes the client |
| ChatSession.ServiceSingleClient | src/single_service.c:17-86 | however the bytes are cut into chunks, the tables end as the commands of the stream leave them, up to the first that fails, and the client is gone |
| ChatSession.AskedIsSent | src/command.c:17-50 | a stream of well-formed messages that write requests, by command name, parameters and trailing parameter, cut anywhere, asks for exactly these requests, in order |
| ChatSession.CommandsOnly | src/command.c:17-50 | a well-formed message is taken for a command of the model if and only if it writes one of its requests |
| ChatSession.SentIsCarried | src/single_service.c:53-66 | the session of a client that sends such a stream carries out these requests |
| ChatSession.EndsSession | src/single_service.c:60-66 | a request ends the session if and only if it is a NICK, or a registered client's JOIN, with an empty name |
| ChatServer.ServeAll | src/single_service.c:26-76 | from an empty server: whatever bytes all clients send and however their threads take turns, the tables stand for the state that a legal run of steps leads to |
| ChatServer.OwnCommands | src/single_service.c:17-86 | in that run every connected client did exactly what the lines of its own stream ask for, in order |
| ChatServer.OwnMessages | src/single_service.c:17-86 | a client whose bytes write requests did exactly these, whatever the others sent in between |

## Left out

- ServiceSingleClient: a stream with an unknown or unparsable line or an overlong one; other clients acting in
  between, which `ServeAll` covers.
- ServeAll: the same kinds of lines; an event is the handling of one byte, with the whole command that it
  completes, and steps of different threads inside one handler are not interleaved.
- Table.Add: a table that already holds 2^32 - 1 items, all its 32-bit item count can say. AddInOrder and
  AddToTable are bounded in the same way.
- Table.ExpandBuckets: the bucket count as a 32-bit word; the array length stands for it, so its wrap at 2^31
  buckets is not modelled.
- Replay: a caller looks a key up before it adds or deletes, as the chat code does; adding a present
  key or deleting an absent item is not modelled.
- MessageFromString: a line that starts with a colon, whose command the original reads from an unset token, and
  a word or trailing parameter behind the fifteenth slot, which it writes past the array.
- ReceiveMessages: streams with a line longer than the 512-byte buffer, which the original writes past, and
  lines outside `MessageFromString`; an empty line, for which the original reads a null command.
- CatFmt: a format ending in a lone '%', which the original reads past, and arguments whose type does not match
  their conversion.
- HandlerNICK: a second NICK of an unregistered client, which corrupts the user table.
- ReenteringExact: the state after such a NICK has the record under two keys; that the linked table is no list any
  more is proved apart from it, as `AppendAgain`.
- HandlerUSER: the full name, which no modelled reply uses; its precondition is that no null nick is formatted.
- HandlerPART: its precondition is that no null parameter is formatted. Its early return while holding the
  channel lock is a matter of locking.
- EmptyTableCrash: the null head itself; what is proved of the linked table is that `Delete` needs a head.
- Channel members are entries of a table value with their flag, not heap records of their own.
- The chat tables are `OrderedTable` values; that the intrusive table is one is proved in `HashRun`, for
  string keys.
- Sockets, threads, mutexes, process start-up, option parsing, logging and the send loop.
- The wording of replies, the user and host name in the prefix of a message, and NOTICE, QUIT, WHOIS, LIST, PING,
  PONG and unknown commands.
- Allocation failure, raw pointer arithmetic, header packing, the printf family of `sds`.
- uthash build options, selection into a second table, and the concrete hash functions.
- `message_to_string`, which formats buffers onto themselves; rendering in the round trip is the inverse
  defined by the grammar.
- Requests with a zero byte in a parameter, but for what nicks become of them.
