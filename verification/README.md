# acqua: verified models of its stateful cores

acqua is a header-only C++ library of network and stream components. This project models ten of its
components in Dafny and proves what they do over whole inputs and whole runs: a streaming JSON
parser, the admission protocol of its TCP servers, the base64 and format=flowed stream filters, an
LRU cache, a timer that multiplexes deadlines, the Internet checksum, address arithmetic, a line
splitter and an insertion-ordered multimap.

`dafny verify dfyconfig.toml` checks everything.

| files | component |
|---|---|
| `Common` | what several components share |
| `JsonModel`, `JsonObjects`, `JsonGrammar`, `JsonAccepts`, `JsonLanguage`, `JsonRoundTrip`, `JsonRfc` | the push-down JSON parser as a value and as linked objects; its grammar; every text of the grammar is read; nothing else is; values survive rendering; how it relates to RFC 8259 |
| `Server`, `ServerThreads`, `ServerAtomic`, `ServerDeafness` | handlers as atomic steps; single atomic operations of many threads; one thread is the former; when many lose a family |
| `Streams`, `Base64Spec`, `Base64Filter` | sources and sinks; base64 as a function; the two encoder paths and the decoder |
| `LruSpec`, `LruMap` | the cache as a list of pairs; recency list and hash table over shared nodes |
| `Flowed`, `BeatTimer`, `Checksum`, `ByteArith`, `LineSplitter`, `Multimap` | one component each |

## What the results say

**JSON.** `JsonLanguage.Language` fixes the language exactly: a text completes a fresh parser with
its last character and leaves the tree `t` if and only if it is the text of a syntax tree of
`JsonGrammar` that denotes `t`. The grammar never mentions the parser. One direction builds runs by
induction over syntax trees; the other shows that every reachable parser state is the state of a
partial syntax tree whose text is what was read. The program itself, objects that update their
fields and own a child parser through a pointer, refines that machine (`JsonObjects`).

Where the language departs from RFC 8259 the code is followed. It refuses blanks in an empty array,
characters outside printable ASCII in strings, and numbers beyond its `long` and `int` fields, the
least `long` included because the magnitude is read first. It accepts a NUL before a value, a plus
sign, leading zeros, literals in any case, `\U` for `\u`, and no digits after a sign, a point or the sign of an exponent.
It drops surrogates, so a string is read to the text the RFC means exactly when none of its escapes
is one (`JsonRfc.StringMeaningIff`). A text of the RFC is read if and only if its
numbers fit the fields, its strings are written in printable ASCII and no empty array has blanks in
it, at any depth; every other one ends in an error (`JsonRfc.RfcReadIff`). `Overflow` stands for a
signed overflow, which C++ leaves undefined.

**Servers.** With handlers that run as atomic steps, one family's count stays within the limit, and
two families can neither be lost for ever if and only if the count was at most `max_count - 2` when
the second one started (`Server.SafeIff`); started together this means `max_count >= 3`, although the
setter accepts 2. With single atomic operations one thread does just what those steps say
(`ServerAtomic.OneThreadIsAtomic`). With any interleaving of more threads the count is still
conserved and never underflows, but both results depend on the number of threads that run handlers.
One family stays within its limit in every run if and only if that is at most one thread or the limit
is one (`ServerThreads.OneFamilyBoundIff`), and it is never lost for ever if and only if there are at
most as many threads as the limit or the limit is one (`ServerDeafness.NeverDeadIff`). Two families
started together stay within one of the limit if and only if one thread runs the handlers
(`ServerThreads.TogetherBoundIff`).

**Base64.** Both encoder paths are proved equal to one reference text, except that the pull path of
the unpadded alphabet with CRLF writes a second CR exactly when one byte is left over. A size that
leaves no room for a group makes the pull path return line breaks for ever and the push path write
lines of one group with one more break in front.

**Format=flowed.** The encoder writes every line of a text in rows of `size` characters, with a blank
and a break after each row but the last (`Flowed.EncodeIsRows`). Decoding undoes encoding if and only if the text has no CR, no blank before a
newline other than a blank that a soft break happens to precede, and no NUL that is read ahead: right
after a blank, or right after a newline written as CR, with no soft break between the two.

**Timer.** Every registered entry is delivered exactly once or still queued in every run. A cancel
from outside or by the callback of a successful wait can lose the queue for ever exactly when it is
issued while nothing is armed and no aborted wait is outstanding; the callbacks of a drain may cancel
at any time. A registration can lead to a delivery before its time exactly when it is made between an
expiry and its handler and there, without a cancel request, does not stand behind another entry or,
with a request, is the only entry and not due.

**Addresses.** `add` with a negative operand subtracts and then adds the negative operand again, so
it moves twice as far; it is right if and only if the operand is not negative or a whole turn.

## Model

| member | source | states |
|---|---|---|
| `JsonModel.AtMostTwoDispatches` | include/acqua/iostreams/json_parser.ipp:481-491 | at any nesting depth a character handed back once is not handed back again, so the inner loop of `write` ends |
| `JsonModel.Dispatch` | include/acqua/iostreams/json_parser.ipp:487-489 | the inner loop leaves a character unconsumed only when the outermost parser has completed |
| `JsonModel.FeedConcat` | include/acqua/iostreams/json_parser.ipp:481-491 | cutting the input into two `write` calls changes neither state, count nor failure |
| `JsonObjects.ParseString` | include/acqua/iostreams/json_parser.ipp:192-271 | the branches of the string parser refine the step on strings, whose escapes `JsonRoundTrip.EscapeIff` and `EscapeTable` fix |
| `JsonObjects.ParserImpl.ParseNum` | include/acqua/iostreams/json_parser.ipp:121-184 | the number parser, updating its fields, refines the step on numbers, overflow included |
| `JsonObjects.ParserImpl.PassOn` | include/acqua/iostreams/json_parser.ipp:309-310 | a character for the child in progress changes the chain from there down and shows in the tree above it |
| `JsonObjects.ParserImpl.ParseArr` | include/acqua/iostreams/json_parser.ipp:307-326 | the array parser, which opens and drops child objects, refines the step on arrays |
| `JsonObjects.ParserImpl.ParseObj` | include/acqua/iostreams/json_parser.ipp:348-381 | the object parser refines the step on objects |
| `JsonObjects.ParserImpl.Parse1` | include/acqua/iostreams/json_parser.ipp:417-420 | on a chain of linked objects of any depth, in place, the call has the effect of one step of the value model, and touches and adds only objects of the chain |
| `JsonObjects.JsonParser.ParseChar` | include/acqua/iostreams/json_parser.ipp:488-488 | the inner loop ends after at most two calls and has the effect of one dispatch |
| `JsonObjects.JsonParser.Write` | include/acqua/iostreams/json_parser.ipp:481-491 | the two nested loops over the linked objects refine `Feed`: same state, count of characters, end-of-file after completion and thrown error |
| `JsonAccepts.EatString` | include/acqua/iostreams/json_parser.ipp:188-296 | every well-formed string, with all escapes and `\u` forms, is read and denotes its UTF-8 text (for the meaning of each escape see `JsonRoundTrip.EscapeIff`) |
| `JsonAccepts.EatLiteral` | include/acqua/iostreams/json_parser.ipp:64-106 | every spelling of a literal is read and ends only on the character after it |
| `JsonAccepts.EatNumber` | include/acqua/iostreams/json_parser.ipp:109-185 | every numeral within the integer fields is read to its exact mantissa, scale and exponent |
| `JsonAccepts.EatItems` | include/acqua/iostreams/json_parser.ipp:299-327 | the items of an array are read one after another, each into its own child, in order |
| `JsonAccepts.EatMembers` | include/acqua/iostreams/json_parser.ipp:330-382 | the members of an object are read with their names, each into its own child, in order |
| `JsonAccepts.EatValue` | include/acqua/iostreams/json_parser.ipp:25-470 | by induction over syntax trees of any depth: a fresh parser eats the text and ends with the denoted tree |
| `JsonAccepts.EatsIsFeed` | include/acqua/iostreams/json_parser.ipp:481-491 | a character-by-character run is what `write` does, and the parser is in progress at every proper prefix |
| `JsonAccepts.ReadsGrammar` | include/acqua/iostreams/json_parser.ipp:25-491 | every text of the grammar followed by a terminator completes exactly once, at its end, with the denoted tree |
| `JsonLanguage.Follow` | include/acqua/iostreams/json_parser.ipp:402-420 | one step from the state of a partial syntax tree leads to a longer partial tree or a finished value with the right text |
| `JsonLanguage.EveryRun` | include/acqua/iostreams/json_parser.ipp:481-491 | every state reached by any input is the state of a partial syntax tree of exactly that input, or a finished value |
| `JsonLanguage.Language` | include/acqua/iostreams/json_parser.ipp:25-491 | a text completes the parser with a tree if and only if the grammar gives that text that tree |
| `JsonRoundTrip.RenderDenotes` | include/acqua/iostreams/json_parser.ipp:299-470 | the compact rendering of a value is in the grammar and denotes the tree of the value |
| `JsonRoundTrip.RoundTrip` | include/acqua/iostreams/json_parser.ipp:25-491 | for every value of any depth, feeding the compact rendering and a blank builds exactly that tree, completing only at the end |
| `JsonRoundTrip.EmptyArrayBlanks` | include/acqua/iostreams/json_parser.ipp:311-316 | an empty array is accepted if and only if nothing stands between its brackets |
| `JsonRoundTrip.IntegerRange` | include/acqua/iostreams/json_parser.ipp:135-142 | an integer is read back exactly when its magnitude fits `long`, so the least `long` overflows |
| `JsonRoundTrip.EscapeIff` | include/acqua/iostreams/json_parser.ipp:225-258 | four characters after `\u` are read as the unit `u` if and only if each is the upper-case or lower-case digit of its place in `u` |
| `JsonRoundTrip.EscapeRead` | include/acqua/iostreams/json_parser.ipp:192-288 | so a string with that escape is read to the UTF-8 text of exactly that unit |
| `JsonRoundTrip.EscapeTable` | include/acqua/iostreams/json_parser.ipp:197-221 | the eight short escapes and the codes they stand for |
| `JsonRoundTrip.LiteralCases` | include/acqua/iostreams/json_parser.ipp:64-106 | exactly the spellings of the three literals in upper case, lower case or both are literals |
| `JsonRfc.RfcReadIff` | include/acqua/iostreams/json_parser.ipp:25-491 | a text of RFC 8259 with blanks around it is read, and to the tree it denotes, if and only if its numbers stay within the fields, its strings are written in printable ASCII and none of its empty arrays has blanks; every other one ends in an error |
| `JsonRfc.RfcFails` | include/acqua/iostreams/json_parser.ipp:25-491 | by induction over values of any depth: the error of an inner value is the error of the whole text |
| `JsonRfc.FractionFails` | include/acqua/iostreams/json_parser.ipp:149-153 | fraction digits beyond the fields overflow at some digit |
| `JsonRfc.ExponentFails` | include/acqua/iostreams/json_parser.ipp:174-177 | so do exponent digits |
| `JsonRfc.StringFails` | include/acqua/iostreams/json_parser.ipp:265-270 | a string with a character outside printable ASCII is refused at the first such character |
| `JsonRfc.RfcRead` | include/acqua/iostreams/json_parser.ipp:25-491 | every such text with blanks around it is read to the tree it denotes |
| `JsonRfc.StringMeaningIff` | include/acqua/iostreams/json_parser.ipp:273-288 | a string is read to the text the RFC means, surrogate pairs combined, if and only if none of its escapes is a surrogate |
| `JsonRfc.BytesDecode` | include/acqua/iostreams/json_parser.ipp:273-288 | the bytes written for a code point are the shortest sequence of section 3 of RFC 3629 that decodes to it |
| `Server.InternetServer.SetMaxCount` | include/acqua/asio/internet_server.hpp:72-78 | limits below two are refused and change nothing |
| `Server.InternetServer.Incr` | include/acqua/asio/detail/simple_server_base.hpp:157-166 | counts and sets the waiting flag at the limit, or refuses while waiting |
| `Server.InternetServer.Decl` | include/acqua/asio/detail/simple_server_base.hpp:169-174 | uncounts, and takes the waiting flag exactly when below the limit |
| `Server.InternetServer.Accept` | include/acqua/asio/detail/simple_server_base.hpp:202-210 | the whole effect of `async_accept` on the shared state |
| `Server.InternetServer.Accepted` | include/acqua/asio/detail/simple_server_base.hpp:190-200 | the whole effect of an accepted connection, which `ServerAtomic.HandlerIsRun` derives from the single operations |
| `Server.InternetServer.Disconnect` | include/acqua/asio/detail/simple_server_base.hpp:176-188 | the whole effect of a connector's end |
| `Server.InternetServer.StartBoth` | include/acqua/asio/internet_server.hpp:139-157 | both families are started before any handler runs |
| `Server.DeafForever` | include/acqua/asio/detail/simple_server_base.hpp:157-210 | a family that waits without a connector never accepts again, whatever happens |
| `Server.SingleStart` | include/acqua/asio/simple_server.hpp:68-74 | a single-family server starts within its invariant for every limit of at least one |
| `Server.SingleRun` | include/acqua/asio/detail/simple_server_base.hpp:157-210 | with atomic handlers, every reachable state of one family waits exactly at the limit, never exceeds it and has a connector |
| `Server.BothStep` | include/acqua/asio/detail/simple_server_base.hpp:157-210 | each handler keeps the invariant of two families that share a count |
| `Server.BothRun` | include/acqua/asio/detail/simple_server_base.hpp:157-210 | with atomic handlers, in every reachable state each family has a connector, a family that does not wait has a pending accept, and the count is at most one above the limit |
| `Server.BothStart` | include/acqua/asio/internet_server.hpp:139-157 | started together with a limit of at least three, both families are within that invariant |
| `Server.TogetherRun` | include/acqua/asio/internet_server.hpp:139-157 | with atomic handlers, so from `start` on every run keeps it, and neither family is ever deaf |
| `Server.Recovers` | include/acqua/asio/detail/simple_server_base.hpp:169-188 | a family without a pending accept gets one back after at most two of its connectors end |
| `Server.SecondIsLost` | include/acqua/asio/detail/simple_server_base.hpp:111-122 | started with fewer than two places left, the second family can go deaf |
| `Server.SafeIff` | include/acqua/asio/detail/simple_server_base.hpp:157-210 | with atomic handlers, no run loses a family if and only if two places were left when the second one started |
| `Server.SafeTogetherIff` | include/acqua/asio/internet_server.hpp:139-157 | with atomic handlers, started together, no run loses a family if and only if the limit is at least three |
| `Server.FillsUp` | include/acqua/asio/detail/simple_server_base.hpp:157-210 | from any state one family can fill the whole count |
| `Server.LateStartIsLost` | include/acqua/asio/internet_server.hpp:139-157 | for every limit, some run before the second family starts lets that family be lost |
| `ServerThreads.ConservedRun` | include/acqua/asio/detail/simple_server_base.hpp:157-188 | under any interleaving of atomic operations by any threads the count is the pending, live and held connectors plus what threads owe |
| `ServerThreads.NoUnderflow` | include/acqua/asio/detail/simple_server_base.hpp:161-173 | from the start, whenever a thread is about to decrement, the count is positive |
| `ServerThreads.StaleDecl` | include/acqua/asio/detail/simple_server_base.hpp:169-174 | from the start, with two threads and any limit of at least two, a run with a stale `decl` takes one family above its limit |
| `ServerThreads.OneFamilyBoundIff` | include/acqua/asio/detail/simple_server_base.hpp:157-210 | one family stays within the limit in every run if and only if at most one thread runs the handlers or the limit is one |
| `ServerThreads.StartsTogether` | include/acqua/asio/internet_server.hpp:139-157 | for every limit the setter accepts, `start` reaches the state the next two rows begin with |
| `ServerThreads.StaleTogether` | include/acqua/asio/detail/simple_server_base.hpp:157-174 | from there two threads take the shared count two above the limit |
| `ServerThreads.TogetherBoundIff` | include/acqua/asio/detail/simple_server_base.hpp:157-210 | two families started together stay within one of the limit in every run if and only if one thread runs the handlers |
| `ServerAtomic.FinishAsk` | include/acqua/asio/detail/simple_server_base.hpp:157-210 | left to itself, the operations of `async_accept` count once, raise the flag at the limit and post one accept, or do nothing while waiting |
| `ServerAtomic.HandlerStep` | include/acqua/asio/detail/simple_server_base.hpp:111-210 | left to itself, a start, an accepted connection or the end of a connector does to its family what its atomic step in `Server` does |
| `ServerAtomic.HandlerIsRun` | include/acqua/asio/detail/simple_server_base.hpp:111-210 | every atomic step of `Server` is an uninterrupted run of the thread model, with nothing left over |
| `ServerAtomic.OneThreadRun` | include/acqua/asio/detail/simple_server_base.hpp:111-210 | every run of one thread, cut anywhere, is a run of the handlers it began in their order, with the end of the last one still to come |
| `ServerAtomic.OneThreadIsAtomic` | include/acqua/asio/detail/simple_server_base.hpp:111-210 | from the start, whenever the only thread is idle, the state is that of those handlers run atomically |
| `ServerDeafness.DeadForever` | include/acqua/asio/detail/simple_server_base.hpp:157-210 | a family with no accept posted, no connector and no thread at work for it stays so in every run |
| `ServerDeafness.CaredRun` | include/acqua/asio/detail/simple_server_base.hpp:157-210 | with no more threads than the limit something always tends to a running family: a posted accept, a connector under a raised flag or a thread on its way to post |
| `ServerDeafness.GoesDead` | include/acqua/asio/detail/simple_server_base.hpp:157-174 | with more threads than a limit of at least two, a run from the start ends with the flag raised and nothing left |
| `ServerDeafness.NeverDeadIff` | include/acqua/asio/detail/simple_server_base.hpp:157-210 | no run of one family ever loses it if and only if there are at most as many threads as the limit or the limit is one |
| `Base64Spec.Dec` | include/acqua/iostreams/base64_filter.hpp:30-33 | the value of an alphabet character, and 64 exactly for every other one |
| `Base64Spec.DecEnc` | include/acqua/iostreams/base64_filter.hpp:20-57 | `dec` inverts `enc` on both alphabets |
| `Base64Spec.EncIsTable` | include/acqua/iostreams/base64_filter.hpp:20-57 | `enc` is the table of either alphabet, character by character |
| `Base64Spec.StreamIsPayload` | include/acqua/iostreams/base64_filter.hpp:119-156 | characters computed one at a time from a byte and its predecessor are the groups of section 4 of RFC 4648 |
| `Base64Spec.FromIsWire` | include/acqua/iostreams/base64_filter.hpp:164-233 | breaking lines while writing gives the payload cut into lines with a break after each |
| `Base64Spec.PayloadLength` | include/acqua/iostreams/base64_filter.hpp:74-94 | a padded payload has four characters for every group of three bytes begun |
| `Base64Spec.LineLengths` | include/acqua/iostreams/base64_filter.hpp:74-94 | lines lose nothing, are never longer than the limit and end between groups |
| `Base64Spec.LinesFull` | include/acqua/iostreams/base64_filter.hpp:74-94 | with either alphabet every line but the last has exactly the length of the limit |
| `Base64Spec.DecodeStream` | include/acqua/iostreams/base64_filter.hpp:282-300 | decoding the characters of a byte string returns it, whatever value came before |
| `Base64Spec.DecodedGroup` | include/acqua/iostreams/base64_filter.hpp:282-300 | any four values are decoded to three bytes with the same 24 bits |
| `Base64Spec.DecodedPartial` | include/acqua/iostreams/base64_filter.hpp:282-300 | two or three values at the end are decoded to one or two bytes whatever their last bits are, and a single one to nothing |
| `Base64Spec.SextetsForeign` | include/acqua/iostreams/base64_filter.hpp:287-288 | characters outside the alphabet change nothing, wherever they stand |
| `Base64Filter.RoomyIff` | include/acqua/iostreams/base64_filter.hpp:74-94 | for a size of at least four the limit is the largest multiple of four that fits beside the break, or below 2^64 without one; there is room for a group if and only if four and the break fit |
| `Base64Filter.LinesWithinSize` | include/acqua/iostreams/base64_filter.hpp:74-94 | every line of a padded encoder, its break included, is within the requested size and a whole number of groups, and every line but the last has no room for another group |
| `Base64Filter.Encoder.GetBreak` | include/acqua/iostreams/base64_filter.hpp:235-256 | the break character by character, CRLF in two calls |
| `Base64Filter.Encoder.Get` | include/acqua/iostreams/base64_filter.hpp:96-162 | returns the next character of the remaining text in every state, end-of-file exactly when none is left; with a limit of zero the next character of a break, reading nothing |
| `Base64Filter.Encoder.PutBreak` | include/acqua/iostreams/base64_filter.hpp:218-233 | writes the break and starts a line |
| `Base64Filter.Encoder.Put` | include/acqua/iostreams/base64_filter.hpp:164-190 | what is written plus what remains to be written is unchanged, for every continuation and every limit |
| `Base64Filter.Encoder.Close` | include/acqua/iostreams/base64_filter.hpp:192-215 | writes exactly what remains: last characters, padding and final break |
| `Base64Filter.Pull` | include/acqua/iostreams/base64_filter.hpp:96-162 | repeated `get` returns the text of the pull path for every byte string, newline mode and roomy size |
| `Base64Filter.Push` | include/acqua/iostreams/base64_filter.hpp:164-215 | `put` of each byte and `close` write the text of the push path for every byte string, newline mode and size |
| `Base64Filter.PushIsWire` | include/acqua/iostreams/base64_filter.hpp:169-175 | that is the reference text when there is room for a group, and lines of one group led by one more break when there is none |
| `Base64Filter.PullIsWire` | include/acqua/iostreams/base64_filter.hpp:96-162 | the pull path gives the reference text, and exactly what it gives in its one exception |
| `Base64Filter.PullIsPushIff` | include/acqua/iostreams/base64_filter.hpp:96-256 | with room for a group the two paths write the same text if and only if the alphabet is padded, the break is not CRLF or no single byte is left over |
| `Base64Filter.PullStarved` | include/acqua/iostreams/base64_filter.hpp:104-106 | with a limit of zero any number of `get` calls returns the break over and over |
| `Base64Filter.Decoder.Get` | include/acqua/iostreams/base64_filter.hpp:282-300 | skips foreign characters and returns, modulo 256, the next decoded byte |
| `Base64Filter.Decoder.Put` | include/acqua/iostreams/base64_filter.hpp:302-317 | writes the byte a character completes, if any |
| `Base64Filter.DecodeByGet` | include/acqua/iostreams/base64_filter.hpp:282-300 | repeated `get` decodes the whole text |
| `Base64Filter.DecodeByPut` | include/acqua/iostreams/base64_filter.hpp:302-317 | `put` of every character decodes the whole text |
| `Base64Filter.RoundTrip` | include/acqua/iostreams/base64_filter.hpp:96-317 | either alphabet, either encoder path, any newline mode and limit: decoding returns the bytes |
| `Base64Filter.PushDecodes` | include/acqua/iostreams/base64_filter.hpp:164-317 | also what is put without room for a group |
| `LruSpec.SoundRun` | include/acqua/container/detail/lru_cache_facade.ipp:433-513 | after any run of pushes, erasures, pops and limits keys are unique and at most one entry more than the limit is held |
| `LruSpec.PushTaken` | include/acqua/container/detail/lru_cache_facade.ipp:444-451 | evicting the last entry commutes with truncating the unbounded history |
| `LruSpec.HoldsMostRecent` | include/acqua/container/detail/lru_cache_facade.ipp:433-460 | a cache that was only pushed to holds exactly the `max_size + 1` most recent keys with their last values, in order |
| `LruSpec.EraseIsWithout` | include/acqua/container/detail/lru_cache_facade.ipp:426-430 | erasing a key leaves exactly the entries of all other keys, in their order |
| `LruMap.BucketLaw` | include/acqua/container/detail/lru_cache_facade.ipp:82-90 | table sizes of 32 times a power of two are kept by doubling and, above 32, by halving |
| `LruMap.UnlinkKeeps` | include/acqua/container/detail/lru_cache_facade.ipp:399-409 | unlinking a node from both structures keeps them holding the same nodes |
| `LruMap.LinkKeeps` | include/acqua/container/detail/lru_cache_facade.ipp:450-456 | linking a node into both structures keeps them holding the same nodes |
| `LruMap.UpdateKeeps` | include/acqua/container/detail/lru_cache_facade.ipp:437-443 | a node renewed in place with an equal key stays in its bucket and moves to the front |
| `LruMap.LruCache.FindNode` | include/acqua/container/detail/lru_cache_facade.ipp:382-387 | the hash lookup agrees with a linear search of the recency list |
| `LruMap.LruCache.Rehash` | include/acqua/container/detail/lru_cache_facade.ipp:73-79 | the same nodes are filed in a table of the new size |
| `LruMap.LruCache.AutoRehash` | include/acqua/container/detail/lru_cache_facade.ipp:82-90 | the table doubles, is halved or stays exactly as its size and the number of nodes say; afterwards no more nodes than buckets, and the size law holds |
| `LruMap.LruCache.Replace` | include/acqua/container/detail/lru_cache_facade.ipp:444-451 | the last node is reused: only the last entry is lost, the others keep their order |
| `LruMap.LruCache.New` | include/acqua/container/detail/lru_cache_facade.ipp:452-458 | a new entry in front of all others |
| `LruMap.LruCache.Push` | include/acqua/container/detail/lru_cache_facade.ipp:433-460 | refines the push on a list of pairs, and says whether the key was new |
| `LruMap.LruCache.EraseNode` | include/acqua/container/detail/lru_cache_facade.ipp:398-409 | removes one entry from both structures |
| `LruMap.LruCache.Erase` | include/acqua/container/detail/lru_cache_facade.ipp:426-430 | what is left are the entries of all other keys, in their order |
| `LruMap.LruCache.Pop` | include/acqua/container/detail/lru_cache_facade.ipp:463-472 | removes the least recent entry, if any |
| `LruMap.LruCache.ShrinkToFit` | include/acqua/container/detail/lru_cache_facade.ipp:507-513 | keeps exactly the `max_size` most recent entries |
| `LruMap.LruCache.SetMaxSize` | include/acqua/container/lru_map.hpp:88-92 | sets the limit and keeps exactly that many |
| `LruMap.LruCache.Clear` | include/acqua/container/detail/lru_cache_facade.ipp:412-423 | empties both structures |
| `Flowed.Encoder.PutLn` | include/acqua/iostreams/newline_category.hpp:50-65 | writes the break and clears the counter |
| `Flowed.Encoder.Put` | include/acqua/iostreams/ascii_filter.hpp:34-46 | a character with its soft break, for every continuation of the text |
| `Flowed.EncodeAll` | include/acqua/iostreams/newline_category.hpp:78-84 | what is written for a size are the lines of the text without CRs, each cut into rows of `size` characters and a blank, none longer, with a break between each two rows; without breaks, whatever the size, the text without CRs and newlines |
| `Flowed.WrapFills` | include/acqua/iostreams/newline_category.hpp:78-84 | a line is filled up to `size` before it is broken |
| `Flowed.RowsFit` | include/acqua/iostreams/newline_category.hpp:78-84 | no row is longer than `size` but for the blank of a soft break |
| `Flowed.EncodeIsRows` | include/acqua/iostreams/ascii_filter.hpp:34-46 | the encoding by size is that layout, for every size, zero included, and every break |
| `Flowed.ShortLineKept` | include/acqua/iostreams/newline_category.hpp:78-84 | a line within `size` is written as it is, whatever stands around it |
| `Flowed.DecodeSoftBreak` | include/acqua/iostreams/ascii_filter.hpp:60-86 | a blank or a tab and the break after it vanish, and the next character is taken as it is |
| `Flowed.Decoder.Get` | include/acqua/iostreams/ascii_filter.hpp:60-86 | returns the next decoded character with one character of lookahead |
| `Flowed.DecodeAll` | include/acqua/iostreams/ascii_filter.hpp:60-86 | repeated `get` decodes the whole text |
| `Flowed.HeadKept` | include/acqua/iostreams/ascii_filter.hpp:71-83 | a character that is not lost comes back first, even next to a soft break |
| `Flowed.NulLost` | include/acqua/iostreams/ascii_filter.hpp:64-81 | a NUL that is read ahead is dropped, because zero also means no lookahead, and decoding goes on after it |
| `Flowed.Shorter` | include/acqua/iostreams/ascii_filter.hpp:71-83 | decoding never adds characters, and loses one whenever the text does not survive |
| `Flowed.Undone` | include/acqua/iostreams/ascii_filter.hpp:34-86 | decoding undoes encoding on every text that survives, for every column, limit and break |
| `Flowed.RoundTripIff` | include/acqua/iostreams/ascii_filter.hpp:34-86 | for every text, limit and break, decoding undoes encoding if and only if the text has no CR, no blank before a newline outside a soft break and no NUL that is read ahead |
| `Flowed.SizedRoundTripIff` | include/acqua/iostreams/ascii_filter.hpp:34-86 | the same of the encoder as constructed with a newline mode and a size |
| `Flowed.CleanSurvives` | include/acqua/iostreams/ascii_filter.hpp:34-86 | texts without CR, blanks before a newline and NULs after a blank or newline survive every limit and break |
| `Flowed.UnbrokenRoundTripIff` | include/acqua/iostreams/newline_category.hpp:50-65 | in the newline mode without breaks a text comes back if and only if it has no CR, no newline and no NUL right after a blank |
| `BeatTimer.OnceRun` | include/acqua/asio/beat_timer.hpp:58-121 | in every run each registered entry was delivered exactly once or is still queued |
| `BeatTimer.AttendedRun` | include/acqua/asio/beat_timer.hpp:58-121 | when every cancel, by a callback or from outside, comes while a wait is outstanding or in a drain, a nonempty queue always has a wait that will serve it, and the queue is ordered |
| `BeatTimer.Served` | include/acqua/asio/beat_timer.hpp:89-121 | from every attended state the earliest entry can be delivered within three steps |
| `BeatTimer.ExpiryRearms` | include/acqua/asio/beat_timer.hpp:107-121 | the handler of an expiry delivers the first entry and arms for the next one, cancel request or not |
| `BeatTimer.AllServedInTime` | include/acqua/asio/beat_timer.hpp:107-121 | with a wait armed for the first entry the whole queue can be delivered in order, each entry a success and not before its time, even while a request goes unheard |
| `BeatTimer.NothingFails` | include/acqua/asio/beat_timer.hpp:91-105 | without a cancel no run delivers a failure, however many waits are aborted by earlier deadlines |
| `BeatTimer.WaitsRun` | include/acqua/asio/beat_timer.hpp:57-121 | in every run each wait that was begun has one handler: it has run, it is queued, or the wait is in progress |
| `BeatTimer.StuckForever` | include/acqua/asio/beat_timer.hpp:64-86 | after a cancel with nothing outstanding no entry is ever delivered again |
| `BeatTimer.CancelSafeIff` | include/acqua/asio/beat_timer.hpp:76-86 | a cancel from outside cannot lead there if and only if a wait is armed or an aborted one is outstanding |
| `BeatTimer.CallbackSafeIff` | include/acqua/asio/beat_timer.hpp:107-121 | the callback of a successful wait, whatever it registers and cancels, cannot lead there if and only if each of its cancels comes while a wait is outstanding |
| `BeatTimer.CallbackCancelSafeIff` | include/acqua/asio/beat_timer.hpp:107-121 | in particular a callback that only cancels |
| `BeatTimer.DrainSafe` | include/acqua/asio/beat_timer.hpp:91-105 | the callbacks of a drain may cancel at any time |
| `BeatTimer.PunctualRun` | include/acqua/asio/beat_timer.hpp:58-121 | in every run whose registrations are harmless nothing is delivered before its time, whatever is cancelled when |
| `BeatTimer.RegisterSafeIff` | include/acqua/asio/beat_timer.hpp:57-68 | a registration cannot lead to a delivery before its time if and only if it is harmless: no expiry waits for its handler, or another entry stands before it, or a cancel is pending and some entry is due |
| `BeatTimer.StartState` | include/acqua/asio/beat_timer.hpp:54-55 | a new timer meets what these results ask of a state |
| `BeatTimer.EarlyDelivery` | include/acqua/asio/beat_timer.hpp:107-114 | for every later entry a run from a new timer delivers it before its time |
| `BeatTimer.Timer.AsyncWait` | include/acqua/asio/beat_timer.hpp:57-68 | the whole effect of a registration, arming only for a new earliest entry |
| `BeatTimer.Timer.CancelAll` | include/acqua/asio/beat_timer.hpp:76-86 | the whole effect of a cancel |
| `BeatTimer.Timer.OnWait` | include/acqua/asio/beat_timer.hpp:107-121 | the whole effect of an expiry, with a callback that may register and cancel |
| `BeatTimer.Timer.OnWaitAborted` | include/acqua/asio/beat_timer.hpp:91-105 | the draining loop until the queue is empty, with callbacks that may register and cancel |
| `Checksum.Ones` | include/acqua/network/detail/checkable.hpp:28-32 | the one's-complement value of a sum: congruent modulo 65535, zero only for zero |
| `Checksum.FoldOnes` | include/acqua/network/detail/checkable.hpp:29-30 | adding a word and folding the carry keeps the one's-complement value |
| `Checksum.PassesIff` | include/acqua/network/detail/checkable.hpp:43-49 | a buffer passes if and only if its sum is a positive multiple of 65535 |
| `Checksum.SumReplaced` | include/acqua/network/detail/checkable.hpp:21-35 | replacing a word changes the sum by the difference |
| `Checksum.DetectsReplacement` | include/acqua/network/detail/checkable.hpp:43-49 | a passing buffer with one word replaced passes if and only if the words are congruent modulo 65535 and not all is zero |
| `Checksum.ByteOrder` | include/acqua/network/detail/checkable.hpp:27-34 | the swapped sum is the sum of the swapped words, as section 2(B) of RFC 1071 says |
| `Checksum.SumWords` | include/acqua/network/detail/checkable.hpp:24-32 | the loop computes the one's-complement sum of a buffer of even or odd length |
| `Checksum.Total` | include/acqua/network/detail/checkable.hpp:21-35 | the sum in host order |
| `Checksum.Check` | include/acqua/network/detail/checkable.hpp:43-49 | accepts exactly the buffers that pass |
| `Checksum.Compute` | include/acqua/network/detail/checkable.hpp:51-58 | the field becomes the complement of the rest, nothing else changes, and the buffer passes |
| `Checksum.Completed` | include/acqua/network/detail/checkable.hpp:84-94 | storing the complement in host order makes any buffer with an empty field pass |
| `ByteArith.PlusIsModular` | include/acqua/network/detail/address_impl.hpp:50-87 | stepping an address is addition modulo 256^n of its big-endian value |
| `ByteArith.ValueInjective` | include/acqua/network/detail/address_impl.hpp:50-87 | addresses of one length and numbers below 256^n correspond one to one |
| `ByteArith.PlusPlus` | include/acqua/network/detail/address_impl.hpp:62-87 | distances compose, so `add` and `sub` of one are `incr` and `decr` |
| `ByteArith.Undone` | include/acqua/network/detail/address_impl.hpp:62-87 | subtracting what was added restores every byte, and the other way round |
| `ByteArith.SameAddressIff` | include/acqua/network/detail/address_impl.hpp:62-87 | a distance leads back to the same address if and only if it is a multiple of 256^n |
| `ByteArith.Incr` | include/acqua/network/detail/address_impl.hpp:50-54 | in place, with the carry through any number of bytes and around the end |
| `ByteArith.Decr` | include/acqua/network/detail/address_impl.hpp:56-60 | in place, with the borrow |
| `ByteArith.Add` | include/acqua/network/detail/address_impl.hpp:62-73 | the exact distance moved, for every array length and either sign of the operand |
| `ByteArith.Sub` | include/acqua/network/detail/address_impl.hpp:75-87 | the same backwards |
| `ByteArith.AddCorrectIff` | include/acqua/network/detail/address_impl.hpp:65-66 | `add` reaches the address asked for if and only if the operand is not negative or a whole turn |
| `ByteArith.SubCorrectIff` | include/acqua/network/detail/address_impl.hpp:78-79 | so does `sub` |
| `ByteArith.NegativeAddTwice` | include/acqua/network/detail/address_impl.hpp:65-66 | adding minus one to 0.0.0.5 gives 0.0.0.3 |
| `LineSplitter.FeedConcat` | include/acqua/iostreams/ostream_codecvt.hpp:87-90 | scanning two chunks is scanning their concatenation |
| `LineSplitter.ScanIsSplit` | include/acqua/iostreams/ostream_codecvt.hpp:79-108 | scanning character by character gives the split of the whole text on CRLF, CR or LF |
| `LineSplitter.SplitWoven` | include/acqua/iostreams/ostream_codecvt.hpp:79-108 | the lines with a CRLF, CR or LF behind each, and then the rest, are the text; no line holds a CR or LF and no CRLF counts twice |
| `LineSplitter.SplitUnique` | include/acqua/iostreams/ostream_codecvt.hpp:79-108 | the split is the only way to cut a text like that |
| `LineSplitter.Splitter.Line` | include/acqua/iostreams/ostream_codecvt.hpp:92-106 | one turn of the search loop advances the scan over a line and its whole break |
| `LineSplitter.Splitter.Write` | include/acqua/iostreams/ostream_codecvt.hpp:79-108 | after any chunk the object holds the scan of everything written so far |
| `LineSplitter.Splitter.Close` | include/acqua/iostreams/ostream_codecvt.hpp:110-116 | the lines written before and what is flushed are the split of everything written |
| `LineSplitter.WriteAll` | include/acqua/iostreams/ostream_codecvt.hpp:79-116 | every partition of a text into `write` calls gives the lines and the remainder of the whole text |
| `Multimap.RunIsClass` | include/acqua/container/sequenced_map.hpp:202-208 | from `find` to the next key lies exactly the class of the key |
| `Multimap.InsertedClass` | include/acqua/container/sequenced_map.hpp:157-166 | an insertion appends to the class of its key and touches no other class |
| `Multimap.InsertedOthers` | include/acqua/container/sequenced_map.hpp:157-166 | the pairs of all other keys keep their order |
| `Multimap.FillGroups` | include/acqua/container/detail/sequenced_map_base.hpp:139-148 | filling an empty multimap gives the history grouped by first appearance of each key, each group in order of insertion |
| `Multimap.RunKeeps` | include/acqua/container/sequenced_map.hpp:157-208 | after any run of insertions, erasures and clears each key class is one run of pairs, in the order of their insertion |
| `Multimap.SequencedMultimap.Find` | include/acqua/container/detail/sequenced_map_base.hpp:121-124 | the first pair with an equivalent key |
| `Multimap.SequencedMultimap.AdvanceToNextKey` | include/acqua/container/sequenced_map.hpp:202-208 | the end of the run that starts at a position |
| `Multimap.SequencedMultimap.At` | include/acqua/container/detail/sequenced_map_base.hpp:106-112 | the value of the first pair of the class, or the error when the class is empty |
| `Multimap.SequencedMultimap.Insert` | include/acqua/container/sequenced_map.hpp:157-166 | the pair stands at its slot and the classes stay uninterrupted |
| `Multimap.SequencedMultimap.InsertRange` | include/acqua/container/detail/sequenced_map_base.hpp:139-148 | a range is inserted pair by pair, which groups it when the multimap was empty |
| `Multimap.SequencedMultimap.EraseRange` | include/acqua/container/detail/sequenced_map_base.hpp:130-130 | removes a stretch and keeps the classes uninterrupted |
| `Multimap.SequencedMultimap.Erase` | include/acqua/container/detail/sequenced_map_base.hpp:129-129 | removes one pair and keeps the classes uninterrupted |

## Left out

- JSON: a child's reference into its parent's tree is a write-back after each step; results of type `double` stay the exact integers they are computed from; the overflow of the array index is not modelled; `Adapt` is a plain tree.
- JsonObjects.ParserImpl.Parse1: the escape and key of a string parser are values inside the variant, not objects of their own.
- Server: accept errors, `cancel`, `close` and a stopped `io_service`; the roll-back in `incr` cannot happen with atomic handlers and is part of `ServerThreads` only.
- Server.BothRun: holds from the states `Server.SafeIff` names, not from every start, because a second family started too late can be lost.
- ServerDeafness.NeverDeadIff: is about one family; two families are treated with atomic handlers only.
- Base64: sinks that fail and sources that would block; bit masks are written as quotients and remainders; `max_` for a size below four is a parameter, since the constructor leaves it unset where the tests expect four.
- Base64Filter.Pull: asks for room for a group; with a limit of zero pulling never ends and `Base64Filter.PullStarved` applies, and a limit left unset by a size below four can be anything.
- Base64Filter.LinesWithinSize: is about the padded alphabet, since unpadded lines need not be whole groups.
- LRU: nodes are handles into a store that keeps stale pairs of freed nodes; `pop` as written does not compile and is modelled as meant; copying, iterators and the timed caches.
- Flowed: the decoder's `put`.
- Flowed.UnbrokenRoundTripIff: is about texts no longer than the largest `size_t`.
- Timer: handlers run one at a time, so the mutex has no part; callbacks are lists of calls, and the callbacks of a drain come to an end.
- Checksum: big-endian machines; the pseudo-header sums of TCP and UDP, whose code calls a missing member and overwrites the payload sum.
- ByteArith.Add: excludes the least `ptrdiff_t`, whose negation is undefined.
- LineSplitter: the charset conversion of each line, and the same loop in the e-mail parser with its early stop.
- Multimap: the place returned for an empty range, which the code leaves undefined; the map with unique keys.
- Sockets, acceptors, TLS, DNS, inotify, netlink, pseudo-terminals, the HTTP, SMTP, IRC and ping clients, the logger and the hex dump: operating-system plumbing or easy formatting.
- Quoted-printable decoding, multipart boundaries, the recursive iterator and the locale reader.
