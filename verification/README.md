# irssi-icq in Dafny

A model of the parts of the irssi ICQ plugin, and of the gaim core it carries, that have state or arithmetic of their
own, with proofs of what they promise.

- **Buddy list** (`BlistModel.dfy` to `BlistRuns.dfy`, `BuddyList.dfy`). `BuddyList` is the tree of groups, contacts,
  chats and buddies with the pointers of the C: `prev`, `next`, `parent`, `child` and `root`, and the hash, the cached
  counts, priority buddies, presence and timers. A ghost value of type `World` says what the pointers mean: the
  children of each node in order, and the cached data. `Valid()` says that pointers and value agree and that the
  value is in order: each node in one list, group names distinct, the hash holding exactly the buddies of the tree,
  sizes equal to recounts. `PrioritiesOK`, `OnlineOK` and `TimersOK` say that the rest of the cached data is right.
  Each method has the whole new value in its contract, says where the moved node stands in the lists of children
  (`BlistWhere.dfy`), and exactly when each of the three stays right; `BlistRuns.dfy` has calls after which they are
  not.
  `BlistCounts.dfy` says what the cached counts are the numbers of.
- **Hash table** (`HashTable.dfy`). Open addressing with descending probes, doubled at half load: a map from names to
  entries. `HashOf` and `KeyEq` are the loops over the characters.
- **FLAP and OSCAR** (`Flap.dfy`, `Oscar.dfy`). The read loop over a buffer of 2024 bytes, refined to a parser of the
  whole stream; the encoders that write lengths back into a byte buffer, and the decoders that undo them.
- **MD5** (`Md5.dfy`, `Md5Known.dfy`). The streaming form with its two count words and 64-byte buffer, the unrolled
  compression, and the definition of RFC 1321 they equal, with the laws of its parts and two published digests.
- **DNS children** (`DnsPool.dfy`). Idle children, a queue, children that die and callbacks that submit lookups.
  `Valid()` says that each accepted lookup is in one place, that children are counted and few, that nothing waits while
  a child is idle, and that the queue is first in, first out.
- **Connections** (`Connections.dfy`). The recursion of disconnecting an account and its connection. `Valid()` says that
  `connections` holds who is not Disconnected and `connecting` who is Connecting, without repeats, and that sign-ons
  and sign-offs told to the buddy list alternate for each account.
- **Preferences** (`PrefsModel.dfy`, `Prefs.dfy`, `PrefsFile.dfy`). The tree with `parent`, `sibling` and `first_child`,
  its hash of names, the markup handlers with their stack, and the walk that writes the tree.
- **HTML** (`Html.dfy`, `HtmlDocs.dfy`, `HtmlLaws.dfy`). The loop of html_to_xhtml and its tag stack over tokens,
  documents that close all they open, and which texts are tags, character by character.
- **Base64 and message splitting** (`Base64.dfy`, `MessageSplit.dfy`).

`Wrappers.dfy` has the option type. What C gets from outside (accounts connecting, timers firing, bytes read, whether
an allocation, a fork or a write succeeds, what a child answers, the events of the markup parser) is a parameter or a
separate call. `normalize` is an arbitrary function.

Where the comments of `blist.h` and the code disagree, the model follows the code: a chat added without a node goes to
the head of its group, not to its end (blist.h:329-331, blist.c:594-606); a buddy added with only a group goes into a
new contact at the end of the group, not in front (blist.h:374-376, blist.c:639-650).

Some things that one might expect of the code do not hold of it, and the contracts say when they do:

- Moving, merging or removing buddies that are signing off leaves online counts wrong (`PlacedOnline`, `MergeContact`,
  `RemovedKeeps`, `RemoveContact`, `WalkOnline`; runs in `CountLost`, `TimerLost`).
- Removing a contact's priority buddy leaves it the priority buddy (`PriorityWithout`; a run in `PriorityLost`).
- A contact that goes with its last buddy stays counted in its group's totalsize (`RemovedTotal`).
- Removing a contact that has buddies reads it after it has been freed (`RemoveContact`).
- Signing off with timers pending leaves them pending (`SignedTimers`; a run in `TimerLost`).
- When children die, lookups can wait with no child to serve them (`HostResolved`; a run in `Stranded`).
- A stream out of step is not read the same way however it is cut (`CutIffInSync`).
- Lengths of 65536 and more are cut, and what is read back is not what was written (`ReadTlvBack`, `DecodeFlapBack`,
  `MsgTextBack`).
- Base64 text with characters outside the alphabet is read as if the letter before them stood there (`StrayRead`).
- A connection whose plugin is missing stays its account's connection for good (`AccountConnect`, `Disconnect`).

## Model

| member | source | states |
|---|---|---|
| BlistGroups.NobodyOK | irssi-icq/src/gaimglue/blist.c:150-169 | the empty list has a tree in order and nothing cached is wrong: the start of every run |
| BuddyLists.BuddyList.constructor | irssi-icq/src/gaimglue/blist.c:150-169 | a new list is empty, in order, with no account connected and nothing cached wrong |
| BuddyLists.BuddyList.Link | irssi-icq/src/gaimglue/blist.c:696-711 | splicing a node into a sibling list at its place keeps prev, next, child and parent of every node the ones of an ordered tree with just that node more |
| BuddyLists.BuddyList.Unlink | irssi-icq/src/gaimglue/blist.c:671-676 | splicing a node out leaves all other nodes in their lists and order |
| BuddyLists.BuddyList.ComputePriority | irssi-icq/src/gaimglue/blist.c:113-148 | the scan finds the first connected buddy of maximal rank, or none if none is connected |
| BlistModel.DisplacesByRank | irssi-icq/src/gaimglue/blist.c:123-143 | the chain of comparisons replaces the buddy in hand exactly by one of higher rank: offline, then away and idle, available and idle, away, available |
| BlistModel.PriorityStep | irssi-icq/src/gaimglue/blist.c:113-148 | one turn of the scan keeps "first connected buddy of maximal rank" for one more buddy |
| BlistModel.RankIs | irssi-icq/src/gaimglue/blist.c:127-139 | the ranks by presence, idle time and the lowest status bit |
| BlistModel.PriorityIs | irssi-icq/src/gaimglue/blist.c:113-143 | the priority buddy ranks above every connected buddy before it and no lower than any behind it, and there is none exactly without connected buddies |
| BuddyLists.BuddyList.AddBuddy | irssi-icq/src/gaimglue/blist.c:613-740 | a buddy given a buddy stands right after it, one given a contact first in it, and one given neither alone in a new contact at the end of the group, or of the group "Buddies", found or made and put last; the contact it leaves goes if it is empty, and every other list stays; tree, index, sizes and priority buddies stay right, online counts exactly if the buddy was settled or stays in its contact, timers exactly if its own timer agrees with its presence |
| BlistGroups.BuddyAddedKeeps | irssi-icq/src/gaimglue/blist.c:613-740 | the same about the list before and after, for every target |
| BlistWhere.StandsThere | irssi-icq/src/gaimglue/blist.c:627-713 | for every target, where the buddy stands in the lists of children, and that no other list changes |
| BlistWhere.LeavesBehind | irssi-icq/src/gaimglue/blist.c:671-692 | a buddy that leaves its contact leaves it as it was without the buddy, or, if it was the last, the group without the contact |
| BlistWhere.DefaultAtTheEnd | irssi-icq/src/gaimglue/blist.c:640-645 | the default group is the one of that name, or a new and empty one, at the end of the list of groups, whose order stays |
| BlistMoves.PlacedKeeps | irssi-icq/src/gaimglue/blist.c:654-740 | putting a buddy into a contact keeps tree, index and sizes, keeps priority buddies, and keeps online counts and timers exactly under those conditions |
| BlistMoves.PlacedOnline | irssi-icq/src/gaimglue/blist.c:654-725 | online counts survive a move exactly if the buddy is not signing off (and is Offline when its account is not connected), or stays in its contact |
| BlistMoves.PlacedShort | irssi-icq/src/gaimglue/blist.c:654-725 | each signing-off buddy that enters a contact leaves its cached online count one further below a recount |
| BuddyLists.BuddyList.AddContact | irssi-icq/src/gaimglue/blist.c:796-894 | a contact with all its buddies stands right after node, if that is a contact or chat, or first in group or in the default group; the order of the others stays, the index is re-keyed and everything cached stays right; a contact put after itself changes nothing |
| BlistContacts.ContactPlacedKeeps | irssi-icq/src/gaimglue/blist.c:796-894 | moving a contact keeps tree, index and sizes, and whatever was right of priority buddies, online counts and timers |
| BlistWhere.ContactStands | irssi-icq/src/gaimglue/blist.c:809-878 | where the contact stands, and that no other list changes |
| BuddyLists.BuddyList.AddChat | irssi-icq/src/gaimglue/blist.c:535-611 | a chat stands right after node, or first in group or in the default group, and is counted there and no longer where it was; the order of the others stays |
| BlistWhere.ChatStands | irssi-icq/src/gaimglue/blist.c:546-606 | where the chat stands, and that no other list changes |
| BuddyLists.BuddyList.AddGroup | irssi-icq/src/gaimglue/blist.c:916-975 | a group stands right after node, if that is a group, or first, with all it holds; the order of the others stays |
| BuddyLists.BuddyList.FindGroup | irssi-icq/src/gaimglue/blist.c:1260-1273 | the group of that name, or none if no listed group has it |
| BuddyLists.BuddyList.MergeContact | irssi-icq/src/gaimglue/blist.c:896-914 | all buddies of the source end up in the target in their order and the source is gone; online counts stay right exactly if all of them were settled |
| BlistMerge.MergeNoClash | irssi-icq/src/gaimglue/blist.c:896-914 | if no buddy of the source clashes with one of the target's group, none does at any later turn of the loop |
| BlistMerge.MergedShort | irssi-icq/src/gaimglue/blist.c:896-914 | each turn of the loop leaves the target's online count short by one more exactly if it moved a buddy signing off |
| BlistMerge.SettledCount | irssi-icq/src/gaimglue/blist.c:896-914 | all buddies of the source are settled exactly if none of them is counted as signing off |
| BuddyLists.BuddyList.RenameGroup | irssi-icq/src/gaimglue/blist.c:383-433 | a name in use merges the group into the one of that name: its contacts and chats go to the end in their old order and the group is gone; a new name changes only the name; nothing cached goes wrong |
| BlistMerge.RenamedKeeps | irssi-icq/src/gaimglue/blist.c:383-433 | a name no group has keeps tree, index, distinct group names and everything cached |
| BuddyLists.BuddyList.RemoveBuddy | irssi-icq/src/gaimglue/blist.c:1004-1055 | the buddy and its key go, and its contact too if it is empty; priority buddies stay right exactly if the contact went or had another priority buddy, online counts exactly if the buddy was not signing off |
| BlistPresence.RemovedKeeps | irssi-icq/src/gaimglue/blist.c:1004-1055 | the same about the list before and after |
| BlistPresence.PriorityWithout | irssi-icq/src/gaimglue/blist.c:1004-1055 | a contact that loses a buddy keeps a right priority buddy exactly if that was another one |
| BlistPresence.RemovedTotal | irssi-icq/src/gaimglue/blist.c:1019-1034 | a group's totalsize stays the number of its children exactly if the removed buddy was not the last of its contact |
| BlistCounts.CountsAre | irssi-icq/src/gaimglue/blist.c:560-605 | the cached sizes are the numbers of buddies and chats of connected accounts and of contacts that have one, and the online counts those of buddies that are not Offline, of contacts that have one, and of such chats |
| BuddyLists.BuddyList.RemoveContact | irssi-icq/src/gaimglue/blist.c:977-1002 | the contact and its buddies go; freed says whether the loop reads a contact that is freed, which it does exactly if there were buddies; online counts stay right exactly if none of them was signing off |
| BlistRemoval.DrainedOnline | irssi-icq/src/gaimglue/blist.c:986-989 | after the last turn of that loop the online counts are right exactly if no buddy of the contact was signing off |
| BuddyLists.BuddyList.RemoveChat | irssi-icq/src/gaimglue/blist.c:1057-1083 | a chat goes and is no longer counted; nothing else changes |
| BuddyLists.BuddyList.RemoveGroup | irssi-icq/src/gaimglue/blist.c:1085-1133 | an empty group goes; one with children stays as it is |
| BlistRuns.PriorityLost | irssi-icq/src/gaimglue/blist.c:1004-1055 | a run of calls from the empty list after which a contact's priority buddy is a buddy that was removed |
| BlistRuns.CountLost | irssi-icq/src/gaimglue/blist.c:613-740 | a run of calls from the empty list after which moving a buddy that is signing off has made an online count wrong |
| BlistRuns.TimerLost | irssi-icq/src/gaimglue/blist.c:1406-1460 | a run of calls from the empty list after which an account signing off has left an online count and a timer wrong |
| BuddyLists.BuddyList.UpdateStatus | irssi-icq/src/gaimglue/blist.c:203-223 | only the status changes, and the priority buddy is chosen anew: everything cached stays right |
| BuddyLists.BuddyList.UpdateIdle | irssi-icq/src/gaimglue/blist.c:288-298 | only the idle time changes, and everything cached stays right |
| BuddyLists.BuddyList.UpdatePresence | irssi-icq/src/gaimglue/blist.c:255-285 | a buddy that appears signs on and one that disappears signs off, with a new timer; priority buddies and timers stay right, online counts exactly if the account is connected or the buddy is reported absent |
| BlistPresence.PresenceKeeps | irssi-icq/src/gaimglue/blist.c:255-285 | the same about the list before and after, once the priority buddy is chosen anew |
| BlistPresence.PresenceIs | irssi-icq/src/gaimglue/blist.c:259-279 | the step of the automaton: SigningOn for who appears, SigningOff for who disappears, with a timer, and nothing for others |
| BuddyLists.BuddyList.PresenceTimeout | irssi-icq/src/gaimglue/blist.c:225-253 | a buddy that was signing on is Online, one signing off Offline and no longer counted, and everything cached stays right |
| BlistPresence.TimeoutKeeps | irssi-icq/src/gaimglue/blist.c:225-253 | the timeout keeps everything though it chooses no priority buddy: it changes no rank |
| BuddyLists.BuddyList.AddAccount | irssi-icq/src/gaimglue/blist.c:1359-1404 | signing on counts every buddy and chat of the account where it belongs and chooses priority buddies anew: everything cached stays right |
| BuddyLists.BuddyList.RemoveAccount | irssi-icq/src/gaimglue/blist.c:1406-1460 | signing off makes the buddies of the account Offline, not idle and without status, and uncounts them and its chats; online counts stay right exactly if no buddy of the account was signing off, timers exactly if none had a timer pending |
| BlistAccounts.WalkInv | irssi-icq/src/gaimglue/blist.c:1359-1460 | the walk over groups, contacts and buddies keeps tree, sizes and index for the accounts connected after it |
| BlistAccounts.WalkPriorities | irssi-icq/src/gaimglue/blist.c:1359-1460 | after the walk every priority buddy is right for the accounts connected then |
| BlistAccounts.WalkOnline | irssi-icq/src/gaimglue/blist.c:1359-1460 | after the walk the online counts are right exactly if the account signed on or had no buddy signing off |
| BlistAccounts.SignedTimers | irssi-icq/src/gaimglue/blist.c:1406-1460 | timers stay right exactly if the account signs on or had no timer pending |
| BuddyLists.BuddyList.FindBuddy | irssi-icq/src/gaimglue/blist.c:1193-1215 | the buddy that a scan of the groups in their order meets first, or none if no group has a match |
| BuddyLists.BuddyList.FindBuddyInGroup | irssi-icq/src/gaimglue/blist.c:1217-1233 | the match in that group, or none if there is none |
| BuddyLists.BuddyList.FindBuddies | irssi-icq/src/gaimglue/blist.c:1235-1258 | exactly the buddies that match in some group, in the order of their groups |
| BlistFinders.LookupIs | irssi-icq/src/gaimglue/blist.c:1193-1233 | the index holds under (normalised name, account, group) exactly the buddy of the tree that sits in that group with that name and account |
| BlistFinders.FoundInOrder | irssi-icq/src/gaimglue/blist.c:1235-1258 | the matches come in the order of their groups, at most one for a group |
| HashTables.HashTable.Lookup | irssi-icq/src/protocols/jabber/hashtable.c:52-106 | the table is a map: a name that is there gives its own entry, a new one is added if it is to be created and the allocations succeed, and otherwise nothing changes; growth keeps every entry |
| HashTables.Find | irssi-icq/src/protocols/jabber/hashtable.c:65-72 | the probe ends at the entry of the name, or at a free slot if the map has none |
| HashTables.Rehash | irssi-icq/src/protocols/jabber/hashtable.c:83-91 | moving the entries to a larger table keeps the map and every probe path |
| HashTables.MaskIsRemainder | irssi-icq/src/protocols/jabber/hashtable.c:65-72 | for a size that is a power of two the mask is the remainder, so it reaches every slot |
| HashTables.PathDown | irssi-icq/src/protocols/jabber/hashtable.c:65-69 | a slot is passed on the way from a home to a slot exactly if it is less far below, round the end |
| HashTables.HashSample | irssi-icq/src/protocols/jabber/hashtable.c:44-51 | the hash of ab: 33 times its first character, and its second |
| HashTables.HashTableIter.Next | irssi-icq/src/protocols/jabber/hashtable.c:127-141 | the entries in the order of their slots, then nothing |
| HashTables.EntriesOnce | irssi-icq/src/protocols/jabber/hashtable.c:127-141 | those are all the entries of the map, each exactly once |
| Flap.Connection.ParseIncoming | irssi-icq/src/core/icq-protocol.c:370-408 | one read: the buffer and the packets handed on are those of parsing what was pending and what came in at once |
| Flap.Waits | irssi-icq/src/core/icq-protocol.c:106-128 | less than a header, or than what the header says, is kept |
| Flap.EndsAll | irssi-icq/src/core/icq-protocol.c:106-128 | a header that does not begin with 0x2A ends everything: nothing is handed on and nothing kept |
| Flap.HandsOn | irssi-icq/src/core/icq-protocol.c:106-128 | otherwise the channel and the bytes behind the header are handed on, and what follows them is parsed next |
| Flap.ChunkingIrrelevant | irssi-icq/src/core/icq-protocol.c:370-408 | if the whole stream is in step, every way of cutting it into reads gives the same packets and the same rest |
| Flap.CutIffInSync | irssi-icq/src/core/icq-protocol.c:106-128 | a stream is in step exactly if it may be cut anywhere without a difference, whatever follows |
| Flap.RoomLeft | irssi-icq/src/core/icq-protocol.c:370-408 | what is left of a well-formed stream is the beginning of one frame and shorter than the buffer |
| Flap.WellFormedStream | irssi-icq/src/core/icq-protocol.c:370-408 | after each read of a well-formed stream the packets so far are those of the bytes so far, and the buffer has room |
| Oscar.ReadTlvBack | irssi-icq/src/core/icq-protocol.c:72-91 | an item that was written is read back with all that follows it, exactly if its length fits 16 bits |
| Oscar.ReadAllBack | irssi-icq/src/core/icq-protocol.c:72-91 | items written one after the other are read back as the same list, to the last byte |
| Oscar.ScanTlv | irssi-icq/src/core/icq-protocol.c:92-104 | the first item of that type, or none |
| Oscar.ScanFirst | irssi-icq/src/core/icq-protocol.c:92-104 | the scan stops at the first item of its type and passes every other |
| Oscar.TlvThere | irssi-icq/src/core/icq-protocol.c:82-90 | an item is there exactly if its four bytes and as many behind them as they say are |
| Oscar.SnacThere | irssi-icq/src/core/icq-protocol.c:140-152 | a SNAC is there exactly if its ten bytes are |
| Oscar.FrameBytes | irssi-icq/src/core/icq-protocol.c:130-138 | the bytes of a frame: 0x2A, channel, sequence number, length, payload, high-order bytes first |
| Oscar.SnacBytes | irssi-icq/src/core/icq-protocol.c:154-164 | the bytes before the body of a SNAC: type, no flags, sequence number |
| Oscar.MessageSnac | irssi-icq/src/core/icq-protocol.c:704-720 | a message is of family 4 and type 6 |
| Oscar.MessageBytes | irssi-icq/src/core/icq-protocol.c:171-193 | the bytes of a message's body: zeros, channel 1, the UIN behind its length, TLV 2 with the capabilities and the text behind four zeros |
| Oscar.LoginBytes | irssi-icq/src/core/icq-protocol.c:197-219 | the bytes of a login's items, with the eight that are always the same |
| Oscar.DecodeFlapBack | irssi-icq/src/core/icq-protocol.c:106-138 | a frame gives channel and payload back and is consumed whole, exactly if the payload fits 16 bits |
| Oscar.DecodeSnacBack | irssi-icq/src/core/icq-protocol.c:140-169 | a SNAC gives its type and its body back |
| Oscar.MsgTextBack | irssi-icq/src/core/icq-protocol.c:171-195 | scanning a message's body for TLV 2, and that for TLV 0x0101, gives four zero bytes and the text, exactly if the outer length fits 16 bits |
| Oscar.ReadMessageBack | irssi-icq/src/core/icq-protocol.c:171-195 | the body gives UIN and text back, exactly if the outer length fits |
| Oscar.MessageBack | irssi-icq/src/core/icq-protocol.c:704-720 | a whole message packet with anything behind it gives its type, UIN and text, and is consumed to its last byte |
| Oscar.LoginBack | irssi-icq/src/core/icq-protocol.c:197-231 | a login or reconnect packet gives the items it was made of, and is consumed to its last byte |
| Oscar.Encoder.EncodeMsg | irssi-icq/src/core/icq-protocol.c:171-195 | the nested, back-patched lengths make the bytes of the body that is read back above, and nothing else in the buffer changes |
| Oscar.Encoder.EncodeMessage | irssi-icq/src/core/icq-protocol.c:704-720 | the bytes made are the message packet with the next sequence numbers |
| Oscar.Encoder.EncodeLogin | irssi-icq/src/core/icq-protocol.c:197-220 | the bytes made are the login packet with its eleven items, and nothing else in the buffer changes |
| Oscar.Encoder.EncodeReconnect | irssi-icq/src/core/icq-protocol.c:222-231 | the bytes made are the packet with the cookie |
| Md5.SetsAre | irssi-icq/src/gaimglue/md5.c:176-205 | four SETs with the roles of a, b, c, d rotated are four steps of section 3.4 of RFC 1321 |
| Md5Known.FBits | irssi-icq/src/gaimglue/md5.c:213 | F takes y where x is set and z elsewhere, for any mask of bits |
| Md5Known.GBits | irssi-icq/src/gaimglue/md5.c:239 | G takes x where z is set and y elsewhere |
| Md5Known.HBits | irssi-icq/src/gaimglue/md5.c:265 | H takes z where x and y agree and its opposite where they differ |
| Md5Known.IBits | irssi-icq/src/gaimglue/md5.c:291 | I takes y where z is set and x is not, and its opposite elsewhere |
| Md5Known.RotatedBit | irssi-icq/src/gaimglue/md5.c:208 | rotation by n sends bit k to bit k + n |
| Md5Known.RotatedRound | irssi-icq/src/gaimglue/md5.c:208 | bits for which that is too high go round to k + n - 32 |
| Md5Known.WordBytes | irssi-icq/src/gaimglue/md5.c:390-391 | the bytes of a word sum up to it, weighted by the powers of 256 |
| Md5Known.NumberBytes | irssi-icq/src/gaimglue/md5.c:384-385 | so do the bytes of a length |
| Md5.Unrolled | irssi-icq/src/gaimglue/md5.c:160-320 | the 64 unrolled SETs are the 64 indexed steps of section 3.4 of RFC 1321, on every state and block |
| Md5.Md5State.Process | irssi-icq/src/gaimglue/md5.c:160-320 | the state after a block is the compression of state and block, with the words read least byte first |
| Md5.CountMore | irssi-icq/src/gaimglue/md5.c:333-350 | the two words with shift by 29 and carry count 8 times the length modulo 2^64 |
| Md5.Md5State.Append | irssi-icq/src/gaimglue/md5.c:333-370 | after any appends the state is the fold of the compression over the whole blocks of all data so far, the buffer holds the tail and the count its length, however the data was cut |
| Md5.Md5State.Finish | irssi-icq/src/gaimglue/md5.c:371-392 | the digest is that of the data padded as sections 3.1 and 3.2 of RFC 1321 say, however it was appended |
| Md5Known.DigestEmpty | irssi-icq/src/gaimglue/md5.c:371-392 | the digest of no bytes is the one section A.5 of RFC 1321 publishes |
| Md5Known.DigestAbc | irssi-icq/src/gaimglue/md5.c:371-392 | the digest of abc is the one section A.5 of RFC 1321 publishes |
| DnsPools.Pool.Submit | irssi-icq/src/gaimglue/proxy.c:480-526 | the lookup goes to the first idle child whose pipe takes it, and those before it are gone; if none takes it all are gone, and it goes to the end of the queue if two children are left, else to a new child, and is refused only if none could be made |
| DnsPools.GivenTo | irssi-icq/src/gaimglue/proxy.c:489-502 | the first idle child whose pipe takes the request has the lookup, and those before it are gone |
| DnsPools.GivenToNone | irssi-icq/src/gaimglue/proxy.c:504-520 | if none takes it all are gone, and the lookup waits, has a new child, or is refused |
| DnsPools.Pool.Release | irssi-icq/src/gaimglue/proxy.c:335-370 | the child gets the first of the queue, or is idle; if it does not take it the lookup stays first and the child is gone |
| DnsPools.Pool.HostResolved | irssi-icq/src/gaimglue/proxy.c:372-438 | the callback is made once, each lookup it submits is treated as such, and then the child takes the first that waits, becomes idle, or is gone; lookups still have children to wait for exactly if none waits after the callback or the child answered and takes the next |
| DnsPools.PartitionServed | irssi-icq/src/gaimglue/proxy.c:335-370 | handing the first of the queue to a child keeps every accepted lookup in exactly one place: queued, held by one child, or called back once |
| DnsPools.Stranded | irssi-icq/src/gaimglue/proxy.c:372-438 | a run after which a lookup waits with no child to take it while a later one is already held |
| Connections.Core.SetState | irssi-icq/src/gaimglue/connection.c:287-319 | connecting gains or loses the connection, and a sign-on is told to the buddy list exactly on becoming connected |
| Connections.Core.Connect | irssi-icq/src/gaimglue/connection.c:149-210 | without a plugin or when not Disconnected nothing happens; without a password the connection is destroyed; otherwise it is in both lists, Connecting |
| Connections.Core.AccountConnect | irssi-icq/src/gaimglue/account.c:195-213 | an account gets at most one connection, and sign-ons and sign-offs stay alternating |
| Connections.Core.Disconnect | irssi-icq/src/gaimglue/connection.c:213-262 | the recursion through account and destruction ends, and the connection is gone from both lists and its account, sign-off told exactly if it was connected |
| Connections.Core.Destroy | irssi-icq/src/gaimglue/connection.c:60-91 | the same for destroying, and a Disconnected connection leaves both lists as they are |
| Connections.Core.AccountDisconnect | irssi-icq/src/gaimglue/account.c:215-230 | refused if the account has no connection that is up, and otherwise the connection is gone |
| Connections.Core.DisconnectAll | irssi-icq/src/gaimglue/connection.c:486-496 | the loop ends with both lists empty |
| Connections.WithoutIs | irssi-icq/src/gaimglue/connection.c:287-319 | taking out a member of a list without repeats takes out that one and no other |
| Connections.Said | irssi-icq/src/gaimglue/connection.c:287-304 | one more event keeps sign-ons and sign-offs of every account alternating exactly if it is the one that is due |
| Prefs.WalkIs | irssi-icq/src/gaimglue/prefs.c:184-208 | walking the sibling lists from the root leads to the node at a path exactly if there is one |
| Prefs.Store.FoundByWalking | irssi-icq/src/gaimglue/prefs.c:184-193 | the hash finds for the name of a path exactly the node that walking the tree leads to |
| Prefs.NamesDiffer | irssi-icq/src/gaimglue/prefs.c:232-269 | the children of a node have different names |
| Prefs.TreeAdded | irssi-icq/src/gaimglue/prefs.c:232-269 | a node added at the end of its parent's children leaves a tree with one path more |
| Prefs.IndexAdded | irssi-icq/src/gaimglue/prefs.c:232-269 | the hash with the new name agrees with that tree: no other path has that name |
| Prefs.Store.AddPref | irssi-icq/src/gaimglue/prefs.c:232-312 | the node and value are added exactly if there is a parent and nothing at that path, and otherwise nothing changes |
| Prefs.Store.SetPref | irssi-icq/src/gaimglue/prefs.c:395-482 | a value of its type takes the place of the old one, one of another type does nothing, and a missing preference is added exactly if there is one above it |
| PrefsModel.SetAtIs | irssi-icq/src/gaimglue/prefs.c:395-482 | the four cases: own type, other type, missing below something, missing below nothing |
| Prefs.Store.StartElement | irssi-icq/src/gaimglue/prefs.c:766-848 | the element's preference is set at the path the stack names, and the stack names that path from then on |
| Prefs.Store.StartItem | irssi-icq/src/gaimglue/prefs.c:766-848 | an item is added to the end of the list at the path the stack names |
| Prefs.Store.EndElement | irssi-icq/src/gaimglue/prefs.c:850-864 | the stack names the path above again |
| PrefsModel.SplitFull | irssi-icq/src/gaimglue/prefs.c:125-159 | a canonical name splits into the name of its parent and its last component |
| PrefsModel.FullInjective | irssi-icq/src/gaimglue/prefs.c:125-159 | different canonical paths have different names |
| PrefsModel.EmitReplay | irssi-icq/src/gaimglue/prefs.c:659-856 | the events of a tree put its values at their paths and leave the stack as it was |
| PrefsModel.WrittenAndRead | irssi-icq/src/gaimglue/prefs.c:659-856 | after the events of the root's tree all its values are held, no preference has been added or changed type, and everything elsewhere is untouched |
| PrefsModel.MissingAdded | irssi-icq/src/gaimglue/prefs.c:816-846 | a missing preference is added by its element exactly if it has a value and there is one above it |
| PrefsModel.EmitSample | irssi-icq/src/gaimglue/prefs.c:659-719 | children are written before items, between the start and the end of their preference |
| PrefsFile.WritePref | irssi-icq/src/gaimglue/prefs.c:659-719 | the walk over children and siblings emits the events of exactly the tree that is in the store |
| PrefsFile.Load | irssi-icq/src/gaimglue/prefs.c:766-856 | handling events one by one brings the store where replaying them brings its settings |
| PrefsFile.TreesShaped | irssi-icq/src/gaimglue/prefs.c:659-719 | the tree in a store has the shape that any store with the same preferences and types asks for |
| PrefsFile.TreesDistinct | irssi-icq/src/gaimglue/prefs.c:659-719 | siblings of the tree in a store have different names |
| PrefsFile.EmitReadable | irssi-icq/src/gaimglue/prefs.c:659-856 | items come only inside lists, and names are components, all along the events that are written |
| PrefsFile.Restored | irssi-icq/src/gaimglue/prefs.c:659-856 | what is written of a store's tree, read where the preferences have the same types, gives exactly its settings |
| PrefsFile.SaveAndLoad | irssi-icq/src/gaimglue/prefs.c:659-856 | writing one store and loading that into another of the same shape makes their settings equal |
| Html.HtmlToXhtml | irssi-icq/src/gaimglue/html.c:421-640 | at the end of the loop the markup is nested, what is open in it is what is on the tag stack, and the plain output is its text |
| Html.StepNested | irssi-icq/src/gaimglue/html.c:427-640 | at every turn what is emitted keeps the markup nested, and its open elements, innermost first, are the tag stack |
| Html.StepText | irssi-icq/src/gaimglue/html.c:427-640 | at every turn the plain output stays the text of the markup |
| Html.ConvertedGood | irssi-icq/src/gaimglue/html.c:421-640 | both hold over all turns, from any point of the input on |
| Html.ClosingsNested | irssi-icq/src/gaimglue/html.c:427-455 | closing down to a tag of the stack closes exactly the elements above it and that one |
| Html.CloseTag | irssi-icq/src/gaimglue/html.c:427-455 | the loops that look for the innermost matching tag and pop down to it do what the step says; a closing tag that matches nothing is escaped |
| HtmlLaws.ClosesDownTo | irssi-icq/src/gaimglue/html.c:427-449 | the innermost open tag whose name the text spells, in any case and followed by '>', is closed with all inside it |
| HtmlLaws.ClosesNothing | irssi-icq/src/gaimglue/html.c:450-456 | if no open tag has that name the '<' is escaped |
| HtmlLaws.Nesting | irssi-icq/src/gaimglue/html.c:442-449 | an element is closed by its own name only |
| HtmlLaws.PlainText | irssi-icq/src/gaimglue/html.c:453-454 | the text of each kind of token |
| HtmlLaws.OnlyTags | irssi-icq/src/gaimglue/html.c:457-634 | nothing but a tag of a known name, in any case and ended by a blank, '/' or '>', is taken for one, and it makes the element of that name; what is not, and begins no comment, is escaped |
| HtmlLaws.Comment | irssi-icq/src/gaimglue/html.c:623-634 | a comment is opened exactly if it is closed somewhere behind |
| HtmlLaws.StartsIff | irssi-icq/src/gaimglue/html.c:354-402 | a comparison without regard to case holds exactly if every letter is the one given or its capital, and every other character the one given |
| HtmlDocs.OpenLocal | irssi-icq/src/gaimglue/html.c:456-640 | a tag has the same effect wherever it stands and whatever is open |
| HtmlDocs.DocConverted | irssi-icq/src/gaimglue/html.c:421-640 | text and elements that close all they open, of any allowed or span-mapped name, in any case and with attributes, become the same document and leave the tag stack as it was, wherever they stand |
| HtmlDocs.DocBalanced | irssi-icq/src/gaimglue/html.c:421-640 | a whole input that closes all it opens gives the same document, balanced, its text as plain output, and an empty tag stack |
| HtmlDocs.AllowedTags | irssi-icq/src/gaimglue/html.c:354-419 | each allowed name, in any case, bare or with quiet attributes, opens its element, and with a slash is an empty one |
| HtmlLaws.AllowedTag | irssi-icq/src/gaimglue/html.c:354-419 | the same with the element each name makes written out |
| HtmlLaws.TableIs | irssi-icq/src/gaimglue/html.c:458-481 | the table has those rows and no others |
| HtmlLaws.NotATag | irssi-icq/src/gaimglue/html.c:372-399 | a tag with a '<' before its '>', or without a '>', is escaped |
| HtmlLaws.QuotedQuiet | irssi-icq/src/gaimglue/html.c:358-381 | between quotes of one kind attributes may have anything but that quote |
| HtmlLaws.PlainQuiet | irssi-icq/src/gaimglue/html.c:358-381 | attributes without quotes and angle brackets are quiet |
| HtmlDocs.BreakTag | irssi-icq/src/gaimglue/html.c:488-497 | breaks and rules in any case and each of their three forms need no closing |
| HtmlDocs.SpanTag | irssi-icq/src/gaimglue/html.c:498-533 | the names that stand for a style open a span, in any case |
| HtmlDocs.FontTag | irssi-icq/src/gaimglue/html.c:534-587 | font tags with any attributes without '>' open a span |
| HtmlDocs.BodyTag | irssi-icq/src/gaimglue/html.c:588-616 | body tags open a span if they have a background colour, and otherwise are allowed tags |
| HtmlLaws.BgcolorIff | irssi-icq/src/gaimglue/html.c:594-618 | a body tag has a background colour exactly if bgcolor= comes, in any case, before its '>' |
| HtmlLaws.Sample | irssi-icq/src/gaimglue/html.c:421-640 | the whole output for an input with capitals, a name that changes and a break |
| Base64.ToBase64 | irssi-icq/src/gaimglue/util.c:318-351 | the loop over groups of three gives the encoding, with its one or two pads |
| Base64.LetterIs | irssi-icq/src/gaimglue/util.c:318-351 | the letters are those of Table 1 of RFC 4648 |
| Base64.Vectors | irssi-icq/src/gaimglue/util.c:318-351 | test vectors of section 10 of RFC 4648, one for each number of pads |
| Base64.EncodedIsBase64 | irssi-icq/src/gaimglue/util.c:318-351 | the encoding spells, digit by digit, the number the bytes spell, filled with zero bits and padded, as section 4 of RFC 4648 says |
| Base64.FromBase64 | irssi-icq/src/gaimglue/util.c:354-417 | the loop reads the text letter by letter as the reader does |
| Base64.PaddingEnds | irssi-icq/src/gaimglue/util.c:354-417 | nothing behind the first pad is read |
| Base64.StrayRead | irssi-icq/src/gaimglue/util.c:354-417 | a character that is no letter, break or pad is read as the letter before it |
| Base64.LineBreaksIgnored | irssi-icq/src/gaimglue/util.c:354-417 | text and the text without its line breaks are read alike, from any state the reader can be in |
| Base64.LineBreakInserted | irssi-icq/src/gaimglue/util.c:354-417 | a carriage return or line feed put in anywhere changes nothing |
| Base64.RoundTrip | irssi-icq/src/gaimglue/util.c:318-417 | every byte sequence comes back from its encoding, whatever line breaks that is cut up with |
| MessageSplit.Split | irssi-icq/src/gaimglue/util.c:578-626 | a message shorter than the limit is one piece; every piece begins where the one before ended, runs to the end if that is nearer than the limit, and is otherwise cut at the last blank outside tags within the limit, which is dropped, or at the limit if there is none |
| MessageSplit.NextOK | irssi-icq/src/gaimglue/util.c:594-625 | one turn of the loop makes the right piece |
| MessageSplit.PlaceIs | irssi-icq/src/gaimglue/util.c:602-612 | a place to cut is a blank before which no '<' of the piece has been left without its '>' |
| MessageSplit.PiecesKeep | irssi-icq/src/gaimglue/util.c:578-626 | the pieces in order, with the one blank of each soft cut, are the message; every piece is within the limit, and no soft cut is inside a tag opened in its piece |
| MessageSplit.CutLate | irssi-icq/src/gaimglue/util.c:578-626 | a cut is at the last place the limit allows, and forced only if there is none |
| MessageSplit.InTagIff | irssi-icq/src/gaimglue/util.c:594-606 | the flag says whether a '<' before has no '>' after it |
| MessageSplit.ProgressIff | irssi-icq/src/gaimglue/util.c:578-626 | a turn of the loop takes something exactly if the limit is not zero |

## Left out

Buddy list:

- AddBuddy: a node that is no buddy, given together with the contact of which the buddy is already the first: if it is
  the only one the contact is freed before the buddy is put into it (blist.c:691-692, 705-711). Nor does it, or any
  other method, put two buddies with the same key into one group, which the reader of the saved list keeps from
  happening (blist.c:2053).
- AddContact: a contact with a buddy whose key another buddy has in the group.
- MergeContact: a source with a buddy whose key another buddy has in the target's group.
- RenameGroup: a group with a buddy whose key another buddy has in the group of the new name.
- AddGroup: a group that is not listed but has the name of a listed one; gaim_group_new gives the listed one instead.
- RemoveContact: what happens after the loop has read the freed contact; the model ends there and says so in `freed`.
- gaim_blist_rename_buddy, which changes a buddy's name without changing its key.
- The time between Connecting and Connected: an account signs on or off in one step. AddAccount and RemoveAccount share
  one walk, which is told which of the two it is.
- A list without a user interface, for which gaim_blist_add_account and gaim_blist_remove_account do nothing.
- Server calls, signals, user interface, saving and loading, aliases, icons, privacy lists; arguments that are NULL
  where the code returns at once.

The rest:

- Lookup: overflow of the table's size; the number of entries has no bound here.
- Flap.Connection: what is done with a payload, errors of the socket, and the sequence numbers of what comes in.
- Oscar: encode_passwd, whose result is a parameter; what a server wraps around a message before it is received
  (extract_user_info), so that `ReadMessage` reads the body as it was sent; the zero bytes decode_msg writes into the
  buffer; sequence numbers are cut to 16 and 32 bits when written.
- Append: a negative count, for which md5_append returns at once, and counts for which `offset + nbytes` overflows an
  int; `nbytes << 3` is taken modulo 2^32.
- DnsPools: pipes, host names and addresses; a child is known by its number. The variant for systems without fork.
- Connections: what a plugin does when it logs in or closes, the delayed disconnection after an error, registration of
  new accounts.
- Prefs: removing and renaming preferences, callbacks, names that are not canonical, items outside a list, and the
  escaping of markup; what is read and written is a sequence of element events.
- HtmlToXhtml: the loop after the main one that names the tags left open; the text of attributes and styles; input in
  which a font tag, or a body tag with a background colour, has no '>' (`Terminated`): the code then computes with a
  null pointer.
- ToBase64: the size of the allocation.
- Split: limits below one; with a limit of zero the loop makes no progress (`ProgressIff`).
- Other files: conversations, file transfer, logs, requests, signals, plugins, servers and the jabber protocol but for
  its hash table.
