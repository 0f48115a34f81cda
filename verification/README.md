# Concrete: a verified model of the core libraries

This project models the parts of the Concrete server libraries that are easiest to get wrong and proves what they are for.

* **The cuckoo hash table** (`round`, `cuckoo`, `cache`, `cache_runs`). A table with six hash functions, a bounded
  displacement loop, an overflow list (the basket), records that are dead but still in place, and a rehash that collects
  them. `Cache` is a class whose methods change slots, basket, list and counters in place; it refines a finite map for any
  six hash functions. Lookup stops at the first free slot; the layout invariant says why this misses nothing. The field
  that holds a cached hash in a slot record and the next link in a basket record is one union, `Ptr`.
* **The sort of its entry list** (`merge_sort`, `entries`, `sort_keys`). The bottom-up merge sort that relinks the list in
  place, proved equal to a sort on sequences that permutes, sorts and is stable for total preorders, descending being the
  exact reverse; and for which keys the comparator that comes with the library is a total preorder.
* **The hash function** (`lookup3*`). Three loops for three alignments that compute one function of the bytes; the mixing
  in it loses nothing.
* **Byte strings** (`search`, `numerals`, `base58*`, `base64*`, `sha1*`). Tuned Boyer-Moore search, base 58 both ways as
  big-number arithmetic, base 64 with line breaks against RFC 4648, and streaming SHA-1 against FIPS 180-4, whose constants
  and functions are in turn told by roots, digits and bits (`sha1_meaning`).
* **The two-lock queue** (`queue*`), as interleaved reads and writes of shared pointers over a memory in which nodes are
  allocated, freed and reused; every history is linearizable to a deque, and every call can end.
* **Reply delivery** (`delivery`, `reply`, `responder*`, `clock_witness`). One attempt to send, as objects that shorten in
  place; then whole runs of the responder with concurrent queueing, any pattern of partial writes, put-back and rotation,
  and in which order the replies of a socket appear on the wire.
* **Socket ids and socket locks** (`id_ring`, `socket_ids*`, `socket_locks*`). The id counter, the array and the ring of
  free ids as interleaved steps; acquire, release and close under the array lock and the lock of each socket. The locks do
  not keep a destroyed socket from being used: two runs show it, and a discipline on the calls is proved to prevent it, and
  to be exactly what prevents it where no thread acquires or closes while it keeps a socket. A thread may keep several
  sockets and make any call meanwhile, as `socket_queue_poll` does; that can deadlock, as the documentation of
  `socket_acquire` warns, and it is proved which calls can and that without them no run is stuck.

Machine words are naturals below 2^32 with explicit wrap-around, and the bit operators of C are recursive functions on
naturals (`bits`). Where the source has a protocol between threads, the model is a state machine over its shared reads and
writes; a step on memory that is not allocated, or an index outside its array, is a crash. No run of the queue reaches
one. Runs of the socket ids and of the socket locks can, and it is proved exactly which steps do and which care of the
callers keeps them away. The eighty calls of the SHA-1 round macro are written as methods of five and twenty calls.

Assumptions: allocation succeeds; stored values and queued pointers are not NULL; single reads and writes of shared
pointers and counters are atomic; locks and condition variables behave as POSIX says, with spurious wake-ups allowed.

Where code and documentation differ the code is followed: `string_b64s` computes room for one group too many when the
length is a multiple of three and reports that length, so its result carries NULs behind the text; `string_deb64s` always
returns whole groups of three bytes.

## Model

| member | source | states |
|---|---|---|
| Rounding.RoundUpIsLeastPower | lib/m_hashtable.c:475-478 | the bit smearing gives the least power of two that is not below the size, for every size up to 2^32 |
| Cuckoo.MetBeforeFreeSlot | lib/m_hashtable.c:639-643 | a record that is seated in a slot is met before the first free slot of its key: a search that stops there misses nothing |
| Cuckoo.NotSeatedMeansOrphan | lib/m_hashtable.c:639-657 | a live record that is in none of its six slots is in the basket |
| Cuckoo.SwapKeepsLayout | lib/m_hashtable.c:431-433 | exchanging the record in hand with the occupant of one of its own slots keeps every live record in one place, with all its earlier slots occupied |
| Cuckoo.SwapKeepsOnce | lib/m_hashtable.c:431-433 | the exchange neither loses nor duplicates a record, whichever two they are |
| Cuckoo.FillKeepsLayout | lib/m_hashtable.c:405-410 | seating the record in hand in its first free slot keeps the layout and leaves nothing in hand |
| Cuckoo.EvictKeepsLayout | lib/m_hashtable.c:435-436 | displacing a dead record ends the displacement: nothing live is lost |
| Cuckoo.StrandKeepsLayout | lib/m_hashtable.c:450-451 | a record whose six slots are all occupied may go to the basket |
| Cuckoo.NewKeepsLayout | lib/m_hashtable.c:402-420 | a key that is new to the table may enter with its record in hand |
| Cuckoo.RemoveOrphan | lib/m_hashtable.c:806-812 | taking a dead record out of the basket keeps the layout of the others |
| Cache.SameKeyIffLive | lib/m_hashtable.c:413-416 | comparing the key together with its length finds exactly the live record of a key, never a dead one |
| Cache.Cache.ProbeSlots | lib/m_hashtable.c:402-420 | the first loop of a push: it ends at a free slot, at the live record of the key (for an empty key at a dead record), or with the six occupied slots of the key |
| Cache.Cache.SearchBasket | lib/m_hashtable.c:422-428 | the basket is searched for the live record of the key (for an empty key for a dead record), through links that share their field with the cached hashes |
| Cache.Cache.Settle | lib/m_hashtable.c:405-410 | a record put into a free slot of its own is seated and counted |
| Cache.Cache.Evict | lib/m_hashtable.c:435-436 | the displacement that meets a dead record |
| Cache.Cache.Kick | lib/m_hashtable.c:431-448 | one round of displacement: the record in hand takes a slot, the former occupant is settled, dropped because it is dead, or carried on |
| Cache.Cache.Displace | lib/m_hashtable.c:430-453 | after at most twelve rounds every live record is in a slot of its own or in the basket: the live records are the old ones and the new one |
| Cache.Cache.Strand | lib/m_hashtable.c:450-453 | the record in hand becomes the head of the basket, its cached hash giving way to the link |
| Cache.Cache.Push | lib/m_hashtable.c:385-459 | a record is stored, or the key is found and its value returned or replaced; the map, the layout, the count and the cached hashes agree afterwards; a record with an empty key leaves the map as it is |
| Cache.Cache.ClearBasket | lib/m_hashtable.c:480-484 | every basket link is cleared, so that none is taken for a cached hash during the rehash |
| Cache.Cache.KeepLive | lib/m_hashtable.c:500-502 | a live record is pushed again and linked to the new list |
| Cache.Cache.DropDead | lib/m_hashtable.c:498 | dropping a dead record changes neither the live ones nor the map |
| Cache.Cache.Rehash | lib/m_hashtable.c:486-503 | the new table holds exactly the live records, and the list holds no dead one |
| Cache.Cache.Resize | lib/m_hashtable.c:464-506 | below the load nothing happens; else the number of slots grows to a power of two, the map is the same, and exactly the live records stay in the list |
| Cache.Cache.constructor | lib/m_hashtable.c:513-557 | a new cache is the empty map, with four slots |
| Cache.Cache.Find | lib/m_hashtable.c:622-663 | lookup in the map, through the callback if there is one |
| Cache.Cache.Enter | lib/m_hashtable.c:588-594 | a new record enters the table and the list, or the key was there and its value is returned |
| Cache.Cache.Add | lib/m_hashtable.c:569-618 | push updates the map and returns the old value, add inserts only if the key is absent, an empty key hands the value back; of a key of 65536 bytes or more only what the 16-bit length shows is stored; when it shows 0 the map stays as it is, and a push may hand out the value of a dead record |
| Cache.Cache.Bury | lib/m_hashtable.c:794-795 | a length of zero takes exactly this key out of the map and keeps the invariant |
| Cache.Cache.Bypass | lib/m_hashtable.c:807-808 | a record is unlinked from the basket; the others stay in their order |
| Cache.Cache.Unlink | lib/m_hashtable.c:806-810 | the dead record leaves the basket and the map does not change |
| Cache.Cache.TakeFromSlots | lib/m_hashtable.c:786-799 | a live record of the key in one of its six slots is returned and made dead; otherwise nothing changes |
| Cache.Cache.TakeFromBasket | lib/m_hashtable.c:801-818 | a live record of the key in the basket is returned, made dead and unlinked; otherwise the key is not in the cache |
| Cache.Cache.Pop | lib/m_hashtable.c:774-829 | the value of the key is returned, none if it is not there; the key is not in the cache afterwards, and every other key is there with its value exactly as before |
| Cache.Cache.Foreach | lib/m_hashtable.c:674-698 | exactly the keys whose callback does not return -1 stay, with their values |
| Cache.Cache.Sort | lib/m_hashtable.c:702-762 | for every comparator and order the list becomes the merge sort of itself by the choices that the comparator makes, the map and every lookup stay; a bad order changes nothing |
| CacheRuns.Execute | lib/m_hashtable.c:569-829 | each of the five operations, for every key, answers as the finite map does and leaves the map that it would leave; only what a push returns for a key whose 16-bit length shows as 0 is not the answer of a map |
| CacheRuns.Run | lib/m_hashtable.c:569-829 | any sequence of operations gets the answers of a finite map, for any six hash functions and all keys; long keys are stored under their cut form |
| CacheRuns.FoundAfterPush | lib/m_hashtable.c:81-84 | what was pushed under a key is found under it exactly when the key has less than 65536 bytes; otherwise nothing is |
| CacheRuns.NothingFoundAfterPush | lib/m_hashtable.c:584-586 | a key whose length is a positive multiple of 65536 becomes a record of length 0: no search takes that record for its own, and a search for that key takes no record whatever for its own |
| CacheRuns.StepKeepsShort | lib/m_hashtable.c:81-84 | no operation lets a key of more than 65535 bytes into the map |
| CacheRuns.PoppedStaysAway | lib/m_hashtable.c:774-829 | in every run a popped key is not found, and not popped again, until something is stored under it |
| CacheRuns.PushedStays | lib/m_hashtable.c:569-618 | in every run a push returns the old value, and every search finds the new one until it is pushed over, popped or given up by a callback, whatever is added |
| CacheRuns.AddedStays | lib/m_hashtable.c:569-618 | in every run an add hands its value back when the key is there, and every search then finds what was there before, or else the value added |
| CacheRuns.GivenUpStaysAway | lib/m_hashtable.c:674-698 | in every run a key for which the callback of a traversal returns -1 is not found until something is stored under it |
| Entries.Emit | lib/m_hashtable.c:748-749 | a node is appended to the sorted part: to its tail, or as its head |
| Entries.Choose | lib/m_hashtable.c:732-746 | which of the two runs gives the next node |
| Entries.Weave | lib/m_hashtable.c:730-753 | merging two runs by relinking produces their merge, and the rest of the list is untouched |
| Entries.Split | lib/m_hashtable.c:725-728 | cutting off up to `size` nodes |
| Entries.MergePass | lib/m_hashtable.c:719-756 | one pass over the list relinks it into the merges of neighbouring runs |
| Entries.SortList | lib/m_hashtable.c:717-758 | the passes end, and the list of nodes is the bottom-up merge sort of what it was |
| Entries.SortMeaning | lib/m_hashtable.c:738-743 | the choice made with the comparator and the order is the one the sort is about |
| Entries.Chosen | lib/m_hashtable.c:734-741 | every comparator and order make some choice between any two records of the list |
| Entries.SortedByCallback | lib/m_hashtable.c:702-762 | if the callback is a total preorder on the records, the sorted list is a permutation in which the callback finds no record greater than a later one, or with the other order none less |
| SortKeys.PreorderIffUnforked | lib/m_hashtable.c:766-770 | the comparison of keys up to the shorter length is a total preorder on the records of a list exactly when no key is the beginning of two others that differ before one of them ends |
| SortKeys.ForkedStaysUnsorted | lib/m_hashtable.c:766-770 | the input for which it fails: "aab", "aa", "a", "aaa" are left in this order by the sort, although the first key is greater than the last |
| SortKeys.DeadRecordForks | lib/m_hashtable.c:766-770 | with a dead record in the list, which compares as the empty key, it is one only when no two keys differ before one of them ends |
| MergeSort.SortPermutes | lib/m_hashtable.c:717-758 | the sort permutes the list, for any comparator |
| MergeSort.SortSorts | lib/m_hashtable.c:717-758 | a comparator that agrees with a transitive order gives a list sorted by it |
| MergeSort.SortIsStable | lib/m_hashtable.c:738-743 | for a total preorder the ascending result is sorted and keeps equal elements in their order |
| MergeSort.DescendingIsReverse | lib/m_hashtable.c:738-743 | the descending result is exactly the reverse of the ascending one |
| Lookup3.Block32 | lib/m_hashtable.c:132-138 | twelve bytes read as three words are absorbed and mixed |
| Lookup3.Last32 | lib/m_hashtable.c:168-184 | the masked last words are the zero-padded last bytes |
| Lookup3.Hash32 | lib/m_hashtable.c:129-189 | the loop over aligned words returns the hash of the key, whatever stands behind its last byte |
| Lookup3.Hash16 | lib/m_hashtable.c:191-233 | the loop over half words returns the same hash |
| Lookup3.Hash8 | lib/m_hashtable.c:235-272 | the loop over bytes returns the same hash |
| Lookup3.HashAnywhere | lib/m_hashtable.c:127-272 | the hash depends on the bytes of the key and the seed only, not on its alignment |
| Lookup3Mixing.MixIsTheMacro | lib/m_hashtable.c:102-110 | the table of rotations that drives the mixing of a block gives the twelve assignments of the macro |
| Lookup3Mixing.FinalIsTheMacro | lib/m_hashtable.c:112-121 | so does the table for the last block |
| Lookup3Mixing.MixIsInjective | lib/m_hashtable.c:102-110 | mixing loses nothing: it takes different states to different states |
| Lookup3Mixing.FinalLosesNothing | lib/m_hashtable.c:112-121 | the last mixing loses nothing before one of its three registers is picked |
| Lookup3Mixing.EmptyKey | lib/m_hashtable.c:124-167 | the hash of the empty key is the start value, without any mixing |
| Lookup3Mixing.ShortKey | lib/m_hashtable.c:124-168 | a key of one to twelve bytes is added to the start value as three words and finished off |
| Lookup3Mixing.WordIsLittleEndian | lib/m_hashtable.c:129-168 | a word of the key is the number of its four bytes, the first the lowest, with zeros behind the end |
| Search.SearchString.Compile | lib/m_string.c:1650-1676 | the table holds for every byte the distance of its last occurrence from the end; only needles of 1 to 255 bytes are taken |
| Search.ShiftIsSafe | lib/m_string.c:1709-1713 | no smaller shift than the one in the table can make the needle fit |
| Search.SkipIsSafe | lib/m_string.c:1707-1717 | the shift after a failed comparison skips no occurrence |
| Search.Find | lib/m_string.c:1706-1719 | from 255 bytes on the search returns the leftmost occurrence at or behind the offset, or -1 exactly when there is none, and ends |
| Base58.AlphabetIs | lib/m_string.c:46-65 | the alphabet ascends and has the digits and letters but 0, I, O and l; the table for decoding knows exactly these, by their seven low bits |
| Base58.DigitsSuffice | lib/m_string.c:2396 | n * 138 / 100 + 1 digits hold every number of n bytes |
| Base58.SizeGuard | lib/m_string.c:2396-2401 | the guard on the 32-bit size passes exactly when the size is not below the length and fits |
| Base58.CarryDigit | lib/m_string.c:2409-2413 | one digit of the multiplication by 256, with its carry |
| Base58.MulAdd | lib/m_string.c:2409-2414 | a byte is added to 256 times the value of the digits; the index stays in the buffer and `high` marks the zeros in front |
| Base58.FillDigits | lib/m_string.c:2408-2414 | the digits get the value of the whole input |
| Base58.DropZeros | lib/m_string.c:2416-2424 | leading zero digits are dropped, the value stays |
| Base58.Encode | lib/m_string.c:2377-2432 | succeeds exactly when the size guard passes; the result is as many 1s as there are leading zero bytes and then the shortest base-58 numeral of the value |
| Base58Decode.MaskedCarry | lib/m_string.c:2483-2485 | the mask of six bits loses nothing of the carry |
| Base58Decode.CarryWord | lib/m_string.c:2483-2485 | one word of the multiplication by 58 |
| Base58Decode.MulAddWords | lib/m_string.c:2482-2489 | the words get 58 times their value plus a digit, and a carry comes out exactly when they cannot hold it |
| Base58Decode.ReadWords | lib/m_string.c:2479-2490 | reading succeeds exactly for alphabet characters whose value fits in one word less than there are groups of four characters; the first and the last word stay zero |
| Base58Decode.UnpackWord | lib/m_string.c:2501-2505 | a word is rewritten as four bytes without touching the words not read yet |
| Base58Decode.Unpack | lib/m_string.c:2492-2506 | the rewrite in place gives the bytes of the same value, as many as there were characters; for one to three characters the jump into the loop adds the four bytes of the last word, which are zeros like the others |
| Base58Decode.Decode | lib/m_string.c:2445-2528 | succeeds exactly on what is accepted; the result is as many zero bytes as leading 1s and then the shortest form of the value; the second exit to the error path is never taken |
| Base58RoundTrip.DecodeOfEncode | lib/m_string.c:2377-2528 | decoding an accepted encoding gives the input back |
| Base58RoundTrip.EncodeOfDecode | lib/m_string.c:2377-2528 | encoding what an ASCII text was decoded to gives the text back |
| Base58RoundTrip.LongIsAccepted | lib/m_string.c:2462-2490 | from 13 characters on exactly the alphabet strings are accepted |
| Base58RoundTrip.EncodingIsAccepted | lib/m_string.c:2462-2490 | an encoding is accepted exactly when it has 13 characters or more or its value fits in one word less than it has groups of four |
| Base58RoundTrip.ShortIsRefused | lib/m_string.c:2477-2490 | the encoding of the one byte 1 is refused: the property fails below 13 characters |
| Base58RoundTrip.ThereAndBack | lib/m_string.c:2377-2528 | both operations, one after the other |
| Base64.AlphabetIs | lib/m_string.c:70-90 | the alphabet is that of table 1 of RFC 4648; the table for decoding knows exactly these characters, by their seven low bits |
| Base64.BreaksCount | lib/m_string.c:2588-2592 | the number of line breaks is the number of full lines |
| Base64.RoomEnough | lib/m_string.c:2563-2593 | the buffer has room for every group and break |
| Base64.EncodeGroup | lib/m_string.c:2578-2594 | one round of the loop; neither panic exit is taken |
| Base64.EncodeGroups | lib/m_string.c:2578-2594 | all groups but the last, with their line breaks |
| Base64.EmitLast | lib/m_string.c:2596-2611 | the last one to three bytes, with padding for the missing ones |
| Base64.Encode | lib/m_string.c:2541-2634 | fails exactly on empty input or a bad line size; else the groups, the last group, a final break if there are lines, and NULs up to the length |
| Base64Standard.EncodingIsStandard | lib/m_string.c:2578-2616 | without its line breaks the text is the encoding of section 4 of RFC 4648, for every line size |
| Base64Standard.UnbrokenEncoding | lib/m_string.c:2578-2616 | with line size 0 the first 4 * ceil(n / 3) characters are the standard encoding |
| Base64Decode.BytesBack | lib/m_string.c:2679-2681 | the shifts and masks of the decoder undo those of the encoder |
| Base64Decode.TrimEnd | lib/m_string.c:2673-2674 | the last digit is found, or index 0 |
| Base64Decode.DecodeGroups | lib/m_string.c:2676-2684 | whole groups are converted and other characters between them dropped; the buffer is never overrun |
| Base64Decode.SkipNoise | lib/m_string.c:2687 | what is no digit in front of the rest is skipped |
| Base64Decode.EmitRest | lib/m_string.c:2690-2697 | the rest gives three bytes, zero where digits are missing |
| Base64Decode.Decode | lib/m_string.c:2647-2706 | the decoder on every text, also with characters that are no digits |
| Base64RoundTrip.GroupConsumed | lib/m_string.c:2676-2687 | each group is consumed with its line break, by the loop or by the skipping behind it |
| Base64RoundTrip.RoundTrip | lib/m_string.c:2562-2701 | decoding an encoding gives the input padded with zeros to a multiple of three, whatever the line size |
| Base64RoundTrip.ThereAndBack | lib/m_string.c:2562-2701 | both operations, one after the other |
| Sha1Round.FormsAreStandard | lib/m_string.c:2841-2844 | the three forms of the logical functions are Ch, Parity and Maj of section 4.1.1 of FIPS 180-4 |
| Sha1Round.ScheduleFollows | lib/m_string.c:2846-2848 | the order in which the four words are combined does not matter |
| Sha1Round.NextWord | lib/m_string.c:2846-2848 | the ring of sixteen words gives the next word of the 80-word schedule and still holds the sixteen latest |
| Sha1Round.R | lib/m_string.c:2850-2854 | one round: the fifth variable gets the sum of the rotated first one, the function of the next three, itself, the constant and the word, modulo 2^32, and the second one is rotated by 30 |
| Sha1Round.RoundAt | lib/m_string.c:2836-2935 | with the function and the constant that the source passes in it, this is the round of section 6.1.2 of FIPS 180-4 |
| Sha1Meaning.ConstantIsRoot | lib/m_string.c:2837-2840 | the four constants are the whole parts of 2^30 times the roots of 2, 3, 5 and 10 |
| Sha1Meaning.StartCounts | lib/m_string.c:2794-2800 | the bytes of the initial hash value count up, down and down again |
| Sha1Meaning.LogicBits | lib/m_string.c:2841-2844 | in every bit the functions of the rounds choose, add, take the majority and add |
| Sha1Meaning.RotIsCyclic | lib/m_string.c:2789 | the rotation multiplies by a power of two, and what overflows comes in at the low end |
| Sha1Round.FiveRounds | lib/m_string.c:2856-2860 | five rounds in rotated roles are five rounds of the standard |
| Sha1.LoadWords | lib/m_string.c:2825-2834 | the bytes of a block as words, the first byte most significant |
| Sha1Meaning.WordsAreBigEndian | lib/m_string.c:2825-2834 | a word of the block is the number of its four bytes, the first the most significant |
| Sha1.AllRounds | lib/m_string.c:2856-2935 | the eighty rounds |
| Sha1.Context.constructor | lib/m_string.c:2794-2803 | the initial hash value and nothing absorbed |
| Sha1.Context.Transform | lib/m_string.c:2807-2943 | a block changes the hash value as section 6.1.2 says |
| Sha1.Context.Flush | lib/m_string.c:2951-2956 | a full buffer becomes a block |
| Sha1.Context.Fill | lib/m_string.c:2961-2962 | bytes are buffered until the input ends or the buffer is full |
| Sha1.Context.Blocks | lib/m_string.c:2969-2975 | whole blocks are taken straight from the input |
| Sha1.Context.Write | lib/m_string.c:2947-2979 | what was absorbed grows by the input, however it is cut |
| Sha1.CutsDoNotMatter | lib/m_string.c:2947-2979 | contexts that have absorbed the same bytes are in the same state |
| Sha1.ByteLength | lib/m_string.c:2996-3005 | the product by 64 over two words and the count; the carry between them never occurs |
| Sha1.BitLength | lib/m_string.c:2996-3011 | the two words of the length are exactly eight times the bytes counted |
| Sha1.CountExact | lib/m_string.c:2996-3011 | the length field is right exactly for messages below 2^38 bytes |
| Sha1.Context.Pad | lib/m_string.c:3013-3025 | one bit, and the fewest zeros that leave room for the length |
| Sha1.Context.StoreLength | lib/m_string.c:3027-3035 | the length, the most significant byte first |
| Sha1.Context.LastBlock | lib/m_string.c:3027-3036 | the last block enters the hash value |
| Sha1.Context.Final | lib/m_string.c:2983-3057 | the digest of all bytes absorbed, padded with the length counted |
| Sha1.PaddingIsStandard | lib/m_string.c:3013-3054 | below 2^38 bytes this is SHA-1 with the padding of section 5.1.1 |
| Sha1Meaning.PaddingMeans | lib/m_string.c:3013-3036 | the padded message is the message, a one bit, zeros and the length in bits, in as few blocks as possible |
| Sha1Meaning.BlockMeans | lib/m_string.c:2937-2942 | what eighty rounds make of the hash value is added to it word by word |
| Sha1Meaning.DigestMeans | lib/m_string.c:3038-3054 | the digest is the five words, the most significant byte of each first |
| Sha1Standard.GapIsSmallest | lib/m_string.c:3013-3025 | no smaller number of zeros leaves room for exactly the length in the last block |
| Sha1.ToHex | lib/m_string.c:3081-3085 | each byte of the digest as two hexadecimal digits, the high half first |
| Sha1.HexDigits | lib/m_string.c:3081-3085 | the hexadecimal digits are 0 to 9 and a to f |
| Sha1.Sum | lib/m_string.c:3061-3098 | no sum for the empty string, the hexadecimal SHA-1 of every other string below 2^38 bytes |
| QueueSafety.LinkStep | lib/m_queue.c:144 | linking the new node behind the tail is the moment at which an add takes effect |
| QueueSafety.SwingStep | lib/m_queue.c:145 | moving the tail keeps the invariant, also when the old tail was freed meanwhile |
| QueueSafety.TailIsLast | lib/m_queue.c:144 | the tail that an add dereferences is the last node and is allocated |
| QueueSafety.StoreStep | lib/m_queue.c:252 | writing data into the dummy at the head is invisible to the other threads |
| QueueSafety.PushHeadStep | lib/m_queue.c:254 | moving the head to the new dummy is the moment at which a push takes effect |
| QueueSafety.GetHeadStep | lib/m_queue.c:224 | moving the head is the moment at which a get takes effect, with the first element |
| QueueSafety.FreeStep | lib/m_queue.c:224 | the freed node is known to nobody else but perhaps the tail pointer |
| QueueRuns.GetReadsNull | lib/m_queue.c:221-224 | a get that finds no next node takes effect when it reads the link |
| QueueRuns.EmptyReads | lib/m_queue.c:164 | the emptiness test takes effect when it reads the link |
| QueueRuns.StepKeeps | lib/m_queue.c:124-261 | any step of any thread keeps the invariant, and none uses a node that is not allocated |
| QueueRuns.QueueIsLinearizable | lib/m_queue.c:124-261 | every interleaving of add, push, get and empty is linearizable to a deque, without use of freed memory, and the list in memory is that deque |
| QueueRuns.ElementsConserved | lib/m_queue.c:124-261 | what was put in is what came out and what is still in: nothing lost, duplicated or invented |
| QueueRuns.FirstInFirstOut | lib/m_queue.c:141-149 | without pushes elements leave in the order in which they were added |
| QueueMeaning.EmptyAnswers | lib/m_queue.c:156-171 | a test answers that the queue is empty exactly when all that was put in has come out |
| QueueMeaning.GetAnswers | lib/m_queue.c:208-231 | a get answers NULL exactly then, and otherwise hands out something that was put in and has not come out |
| QueueMeaning.PutAnswers | lib/m_queue.c:124-261 | adds and pushes report success |
| QueueMeaning.LastPushedFirst | lib/m_queue.c:233-261 | what was pushed last is handed out first, whatever was added meanwhile |
| QueueMeaning.CallBegins | lib/m_queue.c:124-261 | a thread in no call can begin any call, and the history has just this call |
| QueueMeaning.CallsCanEnd | lib/m_queue.c:124-261 | from every reachable state all calls can be brought to their end without a new one |
| QueueWitness.TailMayDangle | lib/m_queue.c:144-145 | a run in which the tail points to a freed node between the two writes of an add |
| Delivery.AttemptKeeps | lib/m_server.c:259-327 | whatever the system answers, bytes sent and bytes left are together those left before; 0 only for a complete reply; nothing is sent for a delayed or foreign one |
| ResponderMeaning.RemainingIs | lib/m_server.c:281-326 | the bytes of a reply are its header, the range of its file and its footer, in this order |
| ResponderMeaning.AttemptMoves | lib/m_server.c:275-326 | an attempt at a reply that need not wait sends at least what the system takes of the first part that is left, and sends nothing and reports a full or a broken connection when the system answers so for it |
| ResponderMeaning.AttemptCompletes | lib/m_server.c:275-327 | if the system takes everything, all is sent and 0 returned |
| ReplyObjects.Task.SetHeader | lib/m_server.c:146-158 | a header is set or appended to |
| ReplyObjects.Task.SetFile | lib/m_server.c:182-200 | a file range is set, but not on an out-of-band reply |
| ReplyObjects.Task.SetFooter | lib/m_server.c:163-176 | a footer is set or appended to |
| ReplyObjects.Task.SetDelay | lib/m_server.c:206-225 | a delay of 1 to 3600 seconds from now |
| ReplyObjects.Task.SendFooter | lib/m_server.c:310-326 | the footer is written and shortened by what went out |
| ReplyObjects.Task.SendFile | lib/m_server.c:300-308 | the range is written and moved on; the file is closed at its end |
| ReplyObjects.Task.SendTop | lib/m_server.c:281-297 | the header is written, out of band if asked for, and shortened by what went out |
| ReplyObjects.Task.Send | lib/m_server.c:259-327 | the object does what the attempt on values does, and puts its bytes on the wire |
| ResponderRuns.QueueKeeps | lib/m_server.c:230-255 | queueing a reply between any two steps of the responder keeps the invariant |
| ResponderMeaning.QueuedAreGiven | lib/m_server.c:230-255 | exactly the replies given are queued, in order and with all their bytes |
| ResponderRuns.TryKeeps | lib/m_server.c:605-627 | an attempt puts bytes of one reply on the wire and touches no other |
| ResponderRuns.RotateKeeps | lib/m_server.c:612-615 | a delayed reply goes to the end without losing or doubling any |
| ResponderRuns.FinishKeeps | lib/m_server.c:629-646 | a complete reply leaves with all its bytes on the wire |
| ResponderOrder.EachByteOnce | lib/m_server.c:259-327 | under any clock the bytes of each reply on the wire are a beginning of it: each once and in order |
| ResponderOrder.RepliesAreNotInterleaved | lib/m_server.c:603-647 | if no reply that has begun waits again, the wire holds the completed replies one after the other and a beginning of at most one more |
| ResponderClock.MonotonicIsSteady | lib/m_server.c:275-279 | under a clock that does not go back from one attempt to the next no reply that has begun waits again |
| ResponderClock.SteadyIffNoneIsPassed | lib/m_server.c:605-627 | the condition is exact: no reply that has begun waits again if and only if no reply that is queued right after an attempt ever comes before one that has begun |
| ClockWitness.ClockMustNotGoBack | lib/m_server.c:275-279 | a run in which the clock goes back and another reply is sent behind the first byte of a delayed one |
| ResponderOrder.AcknowledgedIsSent | lib/m_server.c:629-636 | a reply is acknowledged only when all its bytes are on the wire |
| ResponderMeaning.AcksAreExact | lib/m_server.c:629-636 | what is acknowledged is exactly the completed replies that asked for it and whose notification the plugin took, in their order and once each |
| ResponderMeaning.EveryRequestIsAcknowledged | lib/m_server.c:629-636 | when the plugin takes every notification, a completed reply is acknowledged if and only if it was queued with that request |
| ResponderOrder.NothingAfterTheEnd | lib/m_server.c:638-643 | behind a reply that ends the connection nothing is sent, completed or acknowledged, however the run goes on, and the socket stays closed |
| ResponderDelivery.PromptRepliesKeepTheirOrder | lib/m_server.c:603-647 | replies without a delay leave the queue in the order in which they were queued; the delivered replies are those of this socket among the ones that left; so its replies without a delay are delivered in the order in which they were queued, none passed over |
| ResponderDelivery.WireFollowsTheQueue | lib/m_server.c:603-647 | if no reply that has begun waits again, the wire shows whole replies of this socket and a beginning of at most one more, and those without a delay among them are the first such replies that were queued for it, in that order |
| ResponderDelivery.WithoutDelaysOneStream | lib/m_server.c:603-647 | when no reply has a delay, the bytes on the wire are a beginning of the replies queued for the socket, one after the other |
| ResponderMeaning.EverythingGetsThrough | lib/m_server.c:603-647 | from every reachable state in which the socket is not closed, the responder can come to rest with every reply for the socket delivered, unless one of them asks for the end of the connection |
| ResponderMeaning.DelayedYields | lib/m_server.c:612-615 | a delayed reply goes to the end of the queue, and the responder stops if there was no other when it looked |
| IdRing.Ring.constructor | lib/m_socket.c:1302-1352 | an empty ring of zeros |
| IdRing.Ring.Add | lib/m_socket.c:1374-1395 | an id is appended and the zero written behind it hits a free slot; without room the zero hits the oldest id and the ring appears empty |
| IdRing.Ring.Get | lib/m_socket.c:1398-1418 | the oldest id, or zero exactly when there is none |
| IdRing.LazyWrap | lib/m_socket.c:1409 | a head index at the end stands for index 0 |
| SocketIdsSafety.TakeNew | lib/m_socket.c:411-418 | a new id is held by one thread and is nowhere else |
| SocketIdsSafety.TakeFree | lib/m_socket.c:1411-1412 | a free id moves from the ring to one thread |
| SocketIdsSafety.StoreStep | lib/m_socket.c:428-432 | the id moves from the thread to the array |
| SocketIdsSafety.BeginRemove | lib/m_socket.c:452-460 | a socket leaves the array only if it is the one registered under the id in its flags, whatever the flags of a new socket hold, and the id goes with the thread |
| SocketIdsSafety.PutStep | lib/m_socket.c:1385-1386 | the id moves from the thread to the ring |
| SocketIdsSafety.Pigeonhole | lib/m_socket.c:1338 | the ring has more slots than there are ids |
| SocketIdsRuns.StepKeeps | lib/m_socket.c:401-474 | any step of any thread keeps the invariant of the ids; an index leaves its array exactly when a socket is removed while its flags hold a number that is none, and a socket that is gone is written exactly when its registration comes to set the flags after that |
| SocketIdsRuns.IdsArePartitioned | lib/m_socket.c:401-474 | in every run the ids issued are the disjoint union of registered, free and in-flight ones; free ids wait in the order in which they were freed |
| SocketIdsOpen.StepKeepsSocks | lib/m_socket.c:428-474 | as long as no socket is removed while it is being opened, any step of any thread keeps what the flags of open sockets say, and no step uses an index out of range or writes to a socket that is gone |
| SocketIdsRuns.OpenSocketsCarryTheirIds | lib/m_socket.c:428-474 | in every run in which no socket is removed between its store in the array and the store of its id in its flags, every index is in its array, open sockets carry the id under which the array holds them, and no two share one |
| SocketIdsAstray.NeverAstrayIffCareful | lib/m_socket.c:428-456 | no contents of the memory of new sockets make an index leave its array, or a registration write to a socket that is gone, at any point of a run, if and only if no socket is removed before the call that opens it has stored its id |
| SocketIdsAstray.EarlyRemovalStrays | lib/m_socket.c:428-456 | the input for which it fails: a socket is found in the array and removed by another thread before its flags are set, and the array is indexed by what its memory happened to hold |
| SocketIdsAstray.EarlyRemovalDangles | lib/m_socket.c:428-436 | the other input for which it fails: the memory happens to hold the right id, the early removal succeeds, and the registration sets the flags of a socket that is gone |
| SocketIdsRuns.FailsOnlyWithoutFreeIds | lib/m_socket.c:420-426 | a registration fails only when every id is registered or in flight |
| SocketIdsMeaning.RemovalRemoves | lib/m_socket.c:452-460 | in every run with careful removals, removing an open socket takes exactly this socket out of the array, and its id stays with the thread |
| SocketIdsMeaning.RemovedIsGone | lib/m_socket.c:446-474 | such a removal can be brought to its end with all other calls: the socket is gone, and its id is in the ring or in use by another one |
| SocketIdsMeaning.RegisteredUntilRemoved | lib/m_socket.c:428-460 | a socket in the array stays there under its id until it is removed |
| SocketIdsMeaning.AwayUntilRegistered | lib/m_socket.c:428-460 | a socket that is neither in the array nor on its way there stays so until it is registered |
| SocketIdsMeaning.RegistrationRegisters | lib/m_socket.c:401-438 | a registration while no other call is under way puts the socket into the array under an id that no socket had, and into its flags, and changes nothing else there; it fails exactly when every id is given away and none is free |
| SocketIdsMeaning.AllCallsEnd | lib/m_socket.c:401-474 | from every state that careful removals lead to, all calls can be brought to their end without a new one; the sockets are then exactly those in the array, and every id issued is there or in the ring and never both |
| SocketLocksSafety.WriterIsAlone | lib/m_socket.c:452-460 | while a socket is taken out of the array no other thread holds a pointer found there |
| SocketLocksSafety.RemoveStep | lib/m_socket.c:452-460 | exactly one closer takes a socket out of the array |
| SocketLocksSafety.BrokenIsDeserted | lib/m_socket.c:1255-1276 | a socket about to be destroyed is owned, awaited, held in its mutex and closed by nobody else; what others may still have to do with it is the read of its id by a closer and the signal of a releaser |
| SocketLocksRuns.AcqCheckKeeps | lib/m_socket.c:487-495 | an acquirer that finds the lock taken leaves the mutex and waits; otherwise the lock is free and becomes taken, and it is never found broken |
| SocketLocksRuns.CloseCheckKeeps | lib/m_socket.c:1250-1253 | a closer that finds the lock taken leaves the mutex and waits for the owner; otherwise the lock is free and becomes taken, and it is never found broken |
| SocketLocksRuns.StepKeeps | lib/m_socket.c:452-656 | any step of any thread keeps the invariant or uses a destroyed socket, and it does that exactly in two places: a closer that reads the id and a releaser that signals after its unlock |
| SocketLocksRuns.LocksAreSafe | lib/m_socket.c:1242-1279 | as far as a run does not use a destroyed socket, a socket has at most one owner, every socket taken out of the array is destroyed by exactly one closer, and then nobody owns it or waits for it |
| SocketLocksRuns.BrokenStaysBroken | lib/m_socket.c:647-656 | a broken lock stays broken until the socket is gone, and no thread has it |
| SocketLocksMeaning.AcquireSucceeds | lib/m_socket.c:531-545 | when no other call is under way, the acquisition of a registered socket that nobody has gives it to the thread and changes nothing else |
| SocketLocksMeaning.AcquireFails | lib/m_socket.c:531-545 | the acquisition of an id that is not in the array ends and changes nothing |
| SocketLocksMeaning.ReleaseFrees | lib/m_socket.c:502-514 | a release makes the socket free and changes nothing else |
| SocketLocksMeaning.CloseDestroys | lib/m_socket.c:1242-1279 | the close of a registered socket that nobody has takes it out of the array and out of memory and changes nothing else |
| SocketLocksMeaning.OpenRegisters | lib/m_socket.c:428-432 | a new socket is in the array, free, under the id given |
| SocketLocksOrder.OrderStep | lib/m_socket.c:452-460 | where no call is nested, what a thread keeps while it closes a socket left the array before that socket: closers that wait for one another never form a circle |
| SocketLocksProgress.NoDeadlock | lib/m_socket.c:483-514 | as long as no thread begins an acquisition or a close while it keeps a socket that others can find, all calls can be brought to their end from every state, unless a destroyed socket is used before |
| SocketLocksEndings.AllCallsCanEnd | lib/m_socket.c:483-514 | for callers that also keep the discipline below no destroyed socket is used: all calls can be brought to their end |
| SocketLocksEndings.FirstNestedCanHang | lib/m_socket.c:1504-1532 | the converse, for callers that keep that discipline up to and including the call: behind the first close, or acquisition that finds its socket, made by a thread that keeps a socket which others can find, others can act so that the call never ends, whatever happens then, and no destroyed socket is used on the way |
| SocketLocksDeadlock.NestedHangs | lib/m_socket.c:1504-1532 | the same in any state that calls without nesting lead to, and without the discipline: the call can be made to hang, or the calls that are already pending, going on without any new acquisition or close, use a destroyed socket |
| SocketLocksDeadlock.NestedCallHangs | lib/m_server.c:518 | that for whole runs: the first call that breaks the condition can be made to hang, or pending calls alone use a destroyed socket |
| SocketLocksWitness.AcquiringTwiceHangs | lib/m_socket.h:346-347 | the run that the documentation warns of: a thread acquires the id of the socket that it keeps, and its call never ends |
| SocketLocksWitness.PollerHangs | lib/m_socket.c:1504-1532 | the poller keeps one socket and closes another while a third party waits for the first: the close never ends |
| SocketLocksDiscipline.DisciplineSuffices | lib/m_socket.c:452-466 | if every socket is closed once, when nobody acquires, owns or releases it, and none is acquired while its closing has begun, no destroyed socket is used, however the pending calls go on |
| SocketLocksNecessity.HarmlessIffDisciplined | lib/m_socket.c:1242-1279 | a run in which every call is allowed by that discipline when it is made is free of uses of a destroyed socket, however its pending calls go on at any point; and where every acquisition and close is called by a thread that keeps no socket, the discipline is also necessary for that |
| SocketLocksWitness.LoserReadsDestroyed | lib/m_socket.c:452-466 | a run in which two threads close the same socket and the one that lost reads the id of the destroyed socket |
| SocketLocksWitness.SignalAfterDestroy | lib/m_socket.c:502-514 | a run in which a socket is destroyed between the unlock of a releaser and its signal |
| SocketLocksWitness.HangingIsHarmless | lib/m_socket.c:1242-1253 | the condition on what callers keep is needed: a thread closes the socket that it keeps and waits for itself for ever, a second close of it is not allowed by the discipline, and yet no destroyed socket is ever used |

## Left out

- CacheRuns.Run: tables that reach 2^31 slots or records, where the 32-bit mask and the growth ratio no longer fit; `Cache.Cache.Small` says so. What a push returns for a key whose length is a positive multiple of 65536 is left open there; `Cache.Cache.Add` says that it is nothing or the value of a dead record.
- The seeds, the lock and the memory accounting of the cache (`cache_footprint`, `cache_free`), and the callback of `cache_findexec` having effects.
- The 256 segments of `hashtable_*`: each call goes to the one cache that an arbitrary function of the key selects.
- The branches of `_hash` for big-endian hosts and for memory debuggers.
- `string_compile_find` below 255 bytes, where a mismatch advances by the length of the needle less one, so that only occurrences found are real.
- Base64.Encode: encodings of 2^31 characters or more, for which the 32-bit size of the source wraps around.
- Sha1.Sum: from 2^38 bytes on the length field no longer holds the length; `CountExact` says so, and the digest is then that of the padding with the length counted.
- Condition variables and timed waits of the queue (`queue_wait`), `queue_free`, and running out of memory in `queue_add` and `queue_push`.
- Delivery over UDP and SSL, reconnection of client sockets (`socket_persist` returning 0), and `SOCKET_ECLOSE` or 0 from the file-send fallback, which the responder takes for a complete reply. Headers, footers and file ranges are not empty, and a write takes at least one byte, has no room, or fails.
- ReplyObjects.Task.SetFile: the source does not check that the range lies in the file; the model requires it, as reading behind the end is the system's matter.
- The test of `server_send_reply` whether the socket exists: a reply queued on a closed socket is never sent.
- Termination of the responder while only delayed replies are queued: it spins.
- SocketIdsRuns.IdsArePartitioned: the unlocked test of the id counter and the hooks are steps without effect; a removal that reads the flags of a socket which is already gone is no crash here, as the sockets and their ends are the matter of `SocketLocksRuns.StepKeeps`.
- SocketLocksRuns.LocksAreSafe: addresses of sockets are not reused, and the flags of a socket are written before it enters the array. `_server_receive` and `server_open_managed_socket` call `socket_lock` on a new socket without the read lock of the array (lib/m_server.c:509, 1473); such a waiter is not covered.
- SocketLocksProgress.NoDeadlock: that every fair run comes to an end is not claimed, only that every run can. The read-write lock admits a reader while a closer waits for it, as POSIX allows; a lock that prefers writers can block more.
- SocketLocksEndings.FirstNestedCanHang: an acquisition of an id under which nothing can be found, or whose socket is just being taken out, is not covered: it ends without waiting unless a socket is opened under that id first.
- `socket_queue_poll`, `socket_queue_empty`, `socket_queue_wait` and everything that asks the system.
- `lib/m_trie.c`, `lib/m_http.c`, JSON, the tokenizer and replacement of strings, configuration, plugins, databases, file systems and ports.
