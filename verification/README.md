# A verified model of the coroutine web server

The project models a small HTTP server in Dafny: the parser that takes requests apart inside the receive
buffer, the tables and string buffers around it, the connection state machine over an io_uring, the
coroutine context switch, MurmurHash3 and the chained hash map. The server's procedures are methods over
arrays and classes; each is proved against a function on values, and the properties are lemmas about those
functions. `dafny verify dfyconfig.toml` checks everything.

## How it is built

- **Parser.** `HttpScan` says where the parser puts its cursors, `HttpInPlace` what each stage does to the
  bytes and tables, `HttpParser` does it on the heap. `HttpConservation`, `HttpDelivery` and `HttpMoments` prove
  where the NULs go and that no later one disturbs an earlier string. `HttpGrammar` is an independent reading of a
  request as text, with no buffer or pointer; `HttpRefinement` and `HttpCorrectness` prove that the parser
  accepts the same requests and delivers the same strings, and `HttpRoundTrip` that printed requests come
  back. The format is a subset of sections 3 and 5 of RFC 9112 and of section 3.4 of RFC 3986.
- **Tables, buffers, responses.** `Kv`, `StrBuf` and `HttpResponse`. Strings are `CStrings.Text`; a pointer
  is an index into the bytes it points at.
- **Connections.** `IoSlots` is one slot and one turn of its coroutine, `IoSystem` the transition system of
  all slots, the kernel and the open descriptors, `IoInvariant` what every run keeps, `IoProperties` what
  follows. `IoHandler` and `IoLoop` are the handler, the push functions and the batch loop on the heap, and
  `IoRefinement` shows that they take the steps of the transition system. Both builds are covered, the one
  with a single send and the one with the linked chain of three operations (`watch`). The kernel may
  complete any operation with any result, accept returns any descriptor that is not open, and completions
  are processed in any order.
- **Context switch.** `Coro` is the switch, instruction by instruction; `CoroRuns` has any number of
  coroutines resuming one another.
- **Hashes.** `Words` are the operators on machine words of w bits with their wrap-around, `Mixing` what the
  three MurmurHash3 functions share, `MurmurX64`, `MurmurX86x128` and `MurmurX86x32` the functions.
  `KnownAnswers` has the hashes of four keys as literals; `HexWords` computes on numerals, digit by digit, what
  their proofs need. `HashFunction` and `HashTable` are the hash map.

## What turned out false

- A header value starts two bytes behind the colon. When the colon is the last byte of its line that is
  behind the NUL that ends the line, and the value is whatever follows. The value is right if and only if
  the colon is not the last byte of its line or the byte behind the line's CR is a NUL
  (`HttpCorrectness.HeaderDelivered`; `HttpRoundTrip.TightExample` is a request that shows it).
- The method table gives CONNECT the length six, so one byte of the name is left in front of the target and
  no well-formed CONNECT request is accepted; requests with fewer than eleven bytes behind the target are
  refused, and a header line of fewer than five bytes ends the header section. A printed request comes back
  if and only if none of this applies (`HttpRoundTrip.ComesBack`; `ConnectExample`, `ShortExample` and
  `ShortLineExample` show each).
- A body with a NUL is cut there by the composer while the announced length is that of the whole body; the
  two agree if and only if the body has no NUL (`HttpResponse.BodyCount`, `HttpResponse.NulBodyExample`).
- A connection is left open with nothing in flight if and only if its receive failed
  (`IoInvariant.LeftIdle`), and it stays so for ever: it is never closed, and its descriptor is never given
  to another connection (`IoProperties.FailedForEver`).

The comment on the protocol stage says that it skips CR and LF; the code skips the CR and any one byte, and
so does the model.

## Inputs of the model

Allocator answers, route lookups and handler results, completions and their results, and the memory a
reallocation adds are parameters or arbitrary events.

## Model

| member | source | states |
|---|---|---|
| CStrings.StrChrSpec | lib/http_parser.c:73-77 | A scan for a byte finds its first occurrence before any NUL, and nothing exactly when there is none (strchr as the parser uses it) |
| CStrings.StrChrBefore | lib/http_parser.c:116-117 | A scan started in the data never finds anything behind a NUL that follows it |
| CStrings.StrChrForward | lib/http_parser.c:73-95 | NULs stored behind the start of a scan do not change what it finds |
| CStrings.StringIn | lib/http_parser.c:97-100 | A NUL stored on the first byte after a NUL-free stretch makes the pointer to its start a string of exactly that stretch |
| HttpParser.ParseMethod | lib/http_parser.c:41-60 | Reads four bytes, finds the table entry, sets the mask and moves the cursor by the table's length; leaves the request alone otherwise |
| HttpParser.TrimSpaces | lib/http_parser.c:35-39 | Moves the cursor over the spaces in the data |
| HttpParser.ParsePair | lib/http_parser.c:81-95 | One turn of the query loop on the heap: bytes, table and cursor are those of the turn on values |
| HttpParser.ParseQuery | lib/http_parser.c:81-95 | The query loop terminates and leaves bytes and table as its run on values, for every content of the buffer |
| HttpParser.ParseTarget | lib/http_parser.c:77-97 | The path stage cuts the query off, takes it apart and closes the path |
| HttpParser.ParsePath | lib/http_parser.c:62-103 | The path stage with its error exits, the wrapped length after an overshooting method included |
| HttpParser.ParseProtocol | lib/http_parser.c:105-126 | The protocol stage with its error exits: length, CR, the four bytes HTTP |
| HttpParser.ParseLine | lib/http_parser.c:132-149 | One turn of the header loop on the heap |
| HttpParser.ParseHeaders | lib/http_parser.c:128-154 | The header loop terminates and leaves bytes, table and cursor as its run on values |
| HttpParser.ParseRest | lib/http_parser.c:187-193 | The protocol and header stages one after the other |
| HttpParser.ParseRequest | lib/http_parser.c:156-212 | The whole parser on a buffer, a request and two tables, with every read and write inside the buffer, leaves what the run on values leaves; its result is whether a protocol was stored |
| HttpConservation.QueryRunAt | lib/http_parser.c:81-95 | The query loop stores NULs over the located separators and ends, and over nothing else |
| HttpConservation.QueryRunTable | lib/http_parser.c:81-95 | The query loop offers exactly the located pairs, in order, to the table |
| HttpConservation.HeaderRunAt | lib/http_parser.c:132-149 | The header loop stores NULs over the located colons and line ends, and over nothing else |
| HttpConservation.HeaderRunTable | lib/http_parser.c:132-149 | The header loop offers exactly the located lines with a colon, in order, to the table |
| HttpConservation.HeaderRunStop | lib/http_parser.c:136-153 | Where the header loop leaves the cursor, read off the bytes as received |
| HttpConservation.QueryTidy | lib/http_parser.c:81-95 | Located query pairs lie one behind the other, each with no NUL and no earlier equals sign in it |
| HttpConservation.HeadersTidy | lib/http_parser.c:132-149 | The same for header lines and their colons |
| HttpConservation.Apart | lib/http_parser.c:85-94 | No delimiter of any pair lies inside the key or the value of a pair |
| HttpConservation.QueryCutsAre | lib/http_parser.c:83-93 | Each byte the query loop stores over is an equals sign, an ampersand or the end of the path |
| HttpConservation.HeaderCutsAre | lib/http_parser.c:142-146 | Each byte the header loop stores over is a colon or a CR inside the data |
| HttpDelivery.LocatedParse | lib/http_parser.c:156-212 | A request with a layout is accepted; mask, pointers, tables and cursor are those of the layout of the bytes as received |
| HttpDelivery.UnlocatedParse | lib/http_parser.c:156-212 | A request without a layout is refused |
| HttpDelivery.DelimitersAre | lib/http_parser.c:78-146 | Each NUL of an accepted request lands on a question mark, equals sign, ampersand or the space in the target, on the CR of the request line, or on a colon or CR of the header section |
| HttpDelivery.BytesLeft | lib/http_parser.c:156-212 | Conservation: an accepted request is left with NULs at its delimiters and is otherwise unchanged |
| HttpDelivery.OnlyDelimitersChange | lib/http_parser.c:156-212 | Conservation for every request, refused ones too: a byte that changed was a delimiter below n and is a NUL |
| HttpDelivery.PathIs | lib/http_parser.c:77-99 | In every partly cut buffer whose path end is cut, the path pointer is a string of exactly the path |
| HttpDelivery.ProtocolIs | lib/http_parser.c:119-120 | The same for the protocol |
| HttpDelivery.QueryPairIs | lib/http_parser.c:82-94 | String stability: in every partly cut buffer in which its separator (its end) is cut, the k-th key (value) is the same string; the buffers between the loop's turns are such (HttpMoments.QueryReadable) |
| HttpDelivery.HeaderPairIs | lib/http_parser.c:141-147 | String stability for header names, and for values that start at or before their line's end; the buffers between the loop's turns are such (HttpMoments.HeaderReadable) |
| HttpRefinement.SplitAt | lib/http_parser.c:73-75 | A scan with an upper limit is the grammar's split of the text between |
| HttpRefinement.PackIs | include/http_parser.h:7-8 | Packing four characters into a word loses nothing |
| HttpRefinement.EntryIs | include/http_parser.h:14-37 | Each table entry holds the four bytes its method name opens with, packed, and the name's mask and skipped length |
| HttpRefinement.MethodIs | lib/http_parser.c:41-60 | The table search and the grammar recognise the same methods |
| HttpRefinement.MethodsAre | include/http_parser.h:14-37 | By which four bytes each of the nine methods is recognised, its mask, one bit each from 1 for GET to 256 for PATCH, and how many bytes are stepped over; no other text opens with a method |
| HttpRefinement.TargetIs | lib/http_parser.c:62-99 | The path stage and the grammar accept the same targets, also for a cursor behind the data |
| HttpRefinement.ProtocolIsText | lib/http_parser.c:105-121 | The protocol stage and the grammar accept the same protocols |
| HttpRefinement.QueryNthIs | lib/http_parser.c:81-95 | The k-th located query pair is the k-th pair the grammar reads |
| HttpRefinement.HeadersNthIs | lib/http_parser.c:132-149 | The k-th located header is the k-th field the grammar reads |
| HttpRefinement.LeaveIs | lib/http_parser.c:136-153 | What is behind the cursor is what the grammar leaves over |
| HttpCorrectness.AcceptsSame | lib/http_parser.c:156-212 | Refinement: for every buffer with a zero tail the in-place parser accepts exactly when the grammar has a reading of the received text |
| HttpCorrectness.AcceptedWhen | lib/http_parser.c:41-126 | Exactly which buffers are accepted: a method's name, behind it and its spaces 13 bytes or more that start with a slash and hold a space, and behind that space 11 bytes or more that start with HTTP and hold a CR |
| HttpCorrectness.LineDelivered | lib/http_parser.c:156-194 | Refinement: on acceptance the method is the grammar's, and path and protocol are strings equal to the grammar's |
| HttpCorrectness.QueryDelivered | lib/http_parser.c:76-95 | Refinement: the query table holds as many pairs as fit, the k-th of them equal to the grammar's k-th, key and value |
| HttpCorrectness.HeaderDelivered | lib/http_parser.c:128-154 | Refinement: the header table holds as many fields as fit; the k-th name is the grammar's; its value is the grammar's if and only if the colon is not the last byte of its line or a NUL follows the line's CR |
| HttpCorrectness.TightValueLost | lib/http_parser.c:146 | The failing family: with NUL-free text behind the header section, a field whose line ends with its colon is always delivered with another value |
| HttpCorrectness.BodyUntouched | lib/http_parser.c:156-212 | No byte from the cursor on is changed |
| HttpCorrectness.CursorIs | lib/http_parser.c:136-153 | The cursor is left at the text the grammar leaves over, at most one byte behind the data |
| HttpCorrectness.PointersInside | lib/http_parser.c:41-154 | For every request, refused ones too: each stored pointer lies in the data or at its end, where there is a NUL; the cursor passes the end by at most three behind a method and one behind a protocol |
| HttpCorrectness.PathStageIsPartly | lib/http_parser.c:77-97 | The buffer between the path stage and the protocol stage is one of the moments the stability lemmas speak of |
| HttpMoments.QueryAfterRuns | lib/http_parser.c:81-95 | The state after j turns of the query loop is a moment of it: from there the loop ends as it does from its start |
| HttpMoments.QueryMoment | lib/http_parser.c:81-95 | After every turn of the query loop the buffer is a partly cut one |
| HttpMoments.QueryReadable | lib/http_parser.c:81-95 | From the end of its turn on, a pair's key is a string, and its value is unless it ends the path |
| HttpMoments.HeaderAfterRuns | lib/http_parser.c:132-149 | The state after j turns of the header loop is a moment of it |
| HttpMoments.HeaderMoment | lib/http_parser.c:132-149 | After every turn of the header loop the buffer is a partly cut one |
| HttpMoments.HeaderReadable | lib/http_parser.c:132-149 | From the end of its turn on, a header's name is a string, and its value is if it starts no later than its line ends |
| HttpRoundTrip.SplitJoined | lib/http_parser.c:73-95 | Cutting at the first delimiter undoes joining with it |
| HttpRoundTrip.QueryBack | lib/http_parser.c:81-95 | Reading a printed query gives its pairs back, in order |
| HttpRoundTrip.FieldsBack | lib/http_parser.c:132-149 | Reading printed header lines gives the fields back, in order, up to the first line of fewer than five bytes, and leaves what is from there on |
| HttpRoundTrip.TrimReads | lib/http_parser.c:35-39 | The spaces in front of a target are passed over, and nothing else |
| HttpRoundTrip.TargetReads | lib/http_parser.c:77-97 | A target is a path and, behind the first question mark, arguments |
| HttpRoundTrip.ArgReads | lib/http_parser.c:81-95 | An argument is a key, an equals sign and a value up to an ampersand or the end; without an equals sign there is none |
| HttpRoundTrip.LineReads | lib/http_parser.c:132-153 | A line of five bytes or more up to a CR and one byte more is a field: a name, a colon, any one byte, a value; without a colon it is passed over; a shorter line, or text without a CR, ends the section and is left over |
| HttpRoundTrip.SkipIs | include/http_parser.h:14-37 | The table's length is the length of the name for every method but CONNECT, where it is one less |
| HttpRoundTrip.PrintedIsRead | lib/http_parser.c:41-212 | Round trip: a printed well-formed request is refused if its method is CONNECT or fewer than 11 bytes follow the target, and otherwise reads back with its fields up to the first short header line |
| HttpRoundTrip.ComesBack | lib/http_parser.c:41-212 | Round trip: a printed request reads back as itself if and only if its method is not CONNECT, at least 11 bytes follow the target, and no header line has fewer than five bytes |
| HttpRoundTrip.ConnectExample | include/http_parser.h:34-37 | A concrete CONNECT request that is refused |
| HttpRoundTrip.ShortExample | lib/http_parser.c:105-111 | A concrete request that is refused for its length |
| HttpRoundTrip.ShortLineExample | lib/http_parser.c:136-140 | A concrete request that loses its only header |
| HttpRoundTrip.RoundTripLine | lib/http_parser.c:41-212 | Round trip in place: accepted exactly under that condition; then method, path and protocol come back and the cursor is at the blank line with the body behind it, or at the CR of the first short line |
| HttpRoundTrip.RoundTripQuery | lib/http_parser.c:76-95 | Round trip in place: the k-th printed pair is the k-th pair of the query table |
| HttpRoundTrip.RoundTripHeader | lib/http_parser.c:128-154 | Round trip in place: up to the first short line, the k-th printed name comes back; its value comes back if the colon is not directly before the CR, and does not if it is and the body has no NUL |
| HttpRoundTrip.TightExample | lib/http_parser.c:146 | A concrete request whose empty Host value is delivered as something else |
| KeyValue.SetKeyValue | lib/kv.c:21-43 | Appends, doubles an allocated table that is full, refuses otherwise, for a null table too; the new contents and the result outright |
| KeyValue.FindValue | lib/kv.c:45-58 | Finds the value of the first pair whose key is the string asked for, by index and as the map that first-wins insertion builds; none exactly if no pair has that key |
| KeyValue.Reset | lib/kv.c:68-74 | Zeroes the pairs in use and forgets them; keeps the buffer |
| KeyValue.FirstWinsGrows | lib/kv.c:45-58 | Later pairs never change what the map says of a key it has |
| KeyValue.TableHoldsAccepted | lib/kv.c:21-43 | After any sequence of calls the table holds exactly the accepted pairs, in order |
| KeyValue.ProvidedKeepsPrefix | lib/kv.c:36-38 | A provided table keeps exactly the first pairs up to its capacity |
| KeyValue.MallocedKeepsAll | lib/kv.c:26-34 | An allocated table keeps all pairs, with capacity 20 times the least power of two that suffices |
| StringBuffer.StrNCat | lib/strbuf.c:38 | strncat on the heap: the bytes up to a NUL or to the limit go behind the first NUL, a NUL behind them, nothing else changes |
| StringBuffer.AppendedText | lib/strbuf.c:38 | The string grows by exactly those bytes |
| StringBuffer.Append | lib/strbuf.c:23-41 | Append with growth, refused growth and a null buffer: the new string, the new counted length, and that the count stays the string's length if and only if no NUL was appended |
| StringBuffer.Reset | lib/strbuf.c:43-49 | Zeroes the whole buffer and the length |
| StringBuffer.ExactIff | lib/strbuf.c:23-41 | Over any sequence of appends the first NUL is exactly at the counted length if and only if no appended byte was a NUL |
| HttpResponse.ComposeResponse | lib/http_parser.c:262-297 | Without a protocol nothing is composed; if a line does not fit the 1024 bytes it is printed to, that is the result; otherwise the printed response is appended, its body cut at the first NUL, and counted in full |
| HttpResponse.Compose | lib/http_parser.c:262-294 | The status line, the header lines in order, the content length, the empty line and the body, with the buffer's new string and counted length; or that a line does not fit |
| HttpResponse.NumberThen | lib/http_parser.c:270-286 | Reading one digit more is ten times what was read and the digit |
| HttpResponse.DecimalBack | lib/http_parser.c:270-286 | A printed number is digits that read back as the number |
| HttpResponse.Framed | lib/http_parser.c:262-294 | Framing: the composed text splits back into status line, header lines with the content length last, and body; the printed length is the content's |
| HttpResponse.StatusBack | lib/http_parser.c:269-271 | The first line of a composed response is the protocol, a space, the status in decimal digits (200 for zero, a minus sign for a negative one), a space and OK |
| HttpResponse.HeaderBack | lib/http_parser.c:273-280 | There are as many header lines as headers, the k-th being its name, a colon, a space and its value |
| HttpResponse.LengthBack | lib/http_parser.c:282-295 | The last line is Content-Length, a colon, a space and the decimal digits of how many bytes the content has, and the body follows an empty line |
| HttpResponse.SentIs | lib/http_parser.c:282-295 | What is composed of a content is the string at its first byte, and nothing of an open file |
| HttpResponse.FramedUniquely | lib/http_parser.c:262-294 | Responses that print alike agree in status line, headers with colon-free names, length and body |
| HttpResponse.PrintLen | lib/http_parser.c:262-294 | The length of a response is that of its head and of its body |
| HttpResponse.NulBodyExample | lib/http_parser.c:280-293 | A concrete response of which less is composed than is announced |
| HttpResponse.BodyCount | lib/http_parser.c:280-293 | The bytes of an in-memory body that are composed are as many as announced if and only if it holds no NUL |
| Words.LowIsMod | lib/murmurhash3.c:35-43 | Keeping the low w bits is reducing modulo 2^w |
| Words.RotlBack | lib/murmurhash3.c:35-43 | Rotating by the rest of the width undoes a rotation |
| Words.MulBack | lib/murmurhash3.c:66-68 | Wrap-around multiplication is undone by the inverse modulo 2^w |
| Words.XorShrBack | lib/murmurhash3.c:65-69 | An xor-shift by half of the width or more undoes itself |
| Words.XorShrBack3 | lib/murmurhash3.c:67 | The xor-shift by 13 of 32 bits is undone by the shifts by 13 and 26 |
| Mixing.TailByte | lib/murmurhash3.c:123-127 | Each case of a tail switch joins its byte to those above it; a case beyond the key changes nothing |
| Mixing.WordInjective | lib/murmurhash3.c:57-59 | Words are equal exactly when their bytes are |
| Mixing.MixInjective | lib/murmurhash3.c:333-335 | Mixing a block loses nothing |
| Mixing.MixZero | lib/murmurhash3.c:372-376 | Mixing zero is a no-op |
| Mixing.LaneInjective | lib/murmurhash3.c:338-340 | A lane step loses nothing of its lane |
| Mixing.FinalMix32 | lib/murmurhash3.c:63-72 | fmix32 as written, one assignment after the other |
| Mixing.FinalMix64 | lib/murmurhash3.c:76-85 | fmix64 as written |
| Mixing.Fmix32Back | lib/murmurhash3.c:63-72 | fmix32 is undone by its explicit inverse |
| Mixing.Fmix32Forth | lib/murmurhash3.c:63-72 | The inverse is one on the other side too: fmix32 is a bijection |
| Mixing.Fmix64Back | lib/murmurhash3.c:76-85 | fmix64 is a bijection with an explicit inverse, on both sides |
| MurmurX64.Block | lib/murmurhash3.c:326-347 | The body of the block loop, assignment by assignment, is the block step |
| MurmurX64.TailSwitch | lib/murmurhash3.c:357-397 | The fall-through switch, for every tail length, is mixing the little-endian words of the zero-padded tail |
| MurmurX64.Murmur3 | lib/murmurhash3.c:309-416 | The whole function writes the hash of the key to out and nothing else |
| MurmurX64.StepInjective | lib/murmurhash3.c:326-347 | From a block step's result and the block the state before is determined, and from the result and the state before, the block |
| MurmurX64.BodyDiffers | lib/murmurhash3.c:326-347 | Of two keys that differ in one block the states differ exactly from that block on |
| MurmurX64.OneBlockNoCollision | lib/murmurhash3.c:309-416 | Keys of one length that differ only inside one 16-byte block, or only inside the tail, never collide |
| MurmurX86x128.Block | lib/murmurhash3.c:169-210 | The body of the block loop, assignment by assignment, is the block step |
| MurmurX86x128.TailSwitch | lib/murmurhash3.c:222-272 | The fall-through switch, for every tail length, is mixing the little-endian words of the zero-padded tail |
| MurmurX86x128.Murmur3 | lib/murmurhash3.c:148-305 | The whole function writes the hash of the key to out and nothing else |
| MurmurX86x128.StepInjective | lib/murmurhash3.c:169-210 | From a block step's result and the block the state before is determined, and from the result and the state before, the block |
| MurmurX86x128.BodyDiffers | lib/murmurhash3.c:169-210 | Of two keys that differ in one block the states differ exactly from that block on |
| MurmurX86x128.OneBlockNoCollision | lib/murmurhash3.c:148-305 | Keys of one length that differ only inside one 16-byte block, or only inside the tail, never collide |
| MurmurX86x32.Block | lib/murmurhash3.c:104-115 | The body of the block loop, assignment by assignment, is the block step |
| MurmurX86x32.TailSwitch | lib/murmurhash3.c:123-134 | The fall-through switch, for every tail length, is mixing the little-endian words of the zero-padded tail |
| MurmurX86x32.Murmur3 | lib/murmurhash3.c:89-144 | The whole function writes the hash of the key to out and nothing else |
| MurmurX86x32.StepInjective | lib/murmurhash3.c:104-115 | From a block step's result and the block the state before is determined, and from the result and the state before, the block |
| MurmurX86x32.BodyDiffers | lib/murmurhash3.c:104-115 | Of two keys that differ in one block the states differ exactly from that block on |
| MurmurX86x32.OneBlockNoCollision | lib/murmurhash3.c:89-144 | Keys of one length that differ only inside one 4-byte block, or only inside the tail, never collide |
| KnownAnswers.EmptyX64 | lib/murmurhash3.c:309-416 | Known answer: the empty key with seed 1, as literals |
| KnownAnswers.CountingX64 | lib/murmurhash3.c:309-416 | Known answer: the 27 bytes 1 to 27 with seed 0x04b91209, one block and a tail in both words, as literals |
| KnownAnswers.CountingX86x128 | lib/murmurhash3.c:148-305 | Known answer: the 31 bytes 1 to 31 with that seed, one block and a tail in all four words, as literals |
| KnownAnswers.CountingX86x32 | lib/murmurhash3.c:89-144 | Known answer: the 7 bytes 1 to 7 with that seed, one block and a tail, as literals |
| MurmurX64.Finalize | lib/murmurhash3.c:402-415 | The finalization as written |
| MurmurX64.FinishInjective | lib/murmurhash3.c:402-415 | The finalization loses nothing |
| MurmurX86x128.Finalize | lib/murmurhash3.c:277-304 | The finalization as written |
| MurmurX86x128.FinishInjective | lib/murmurhash3.c:277-304 | The finalization of the four lanes loses nothing |
| HashFunction.Hash64Is | lib/hashtable.c:10-17 | The hash is the key times 0x61C8864680B583EB, modulo 2^64, divided by 2^(64-bits) |
| HashFunction.Hash64InTable | lib/hashtable.c:14-17 | The hash is an index of the table for every number of bits from 1 to 30 |
| HashFunction.NthIsInBucket | lib/hashtable.c:10-17 | The r-th key computed for a bucket is in it |
| HashFunction.EveryKeyIsNth | lib/hashtable.c:10-17 | Every 64-bit key is one of those computed for its bucket |
| HashFunction.Balanced | lib/hashtable.c:10-17 | Every bucket gets exactly 2^(64-bits) of the 2^64 keys |
| HashTable.Hmap.constructor | lib/hashtable.c:34-48 | A new table is valid and empty |
| HashTable.Find | lib/hashtable.c:57-69 | Finds the node of the key, or null exactly when the map lacks the key |
| HashTable.Get | lib/hashtable.c:71-75 | The map's value, or null |
| HashTable.PointsBack | lib/hashtable.c:91-97 | The back-pointer of every node names the cell that points to it: the head cell of its key's bucket, or the next field of another node of that bucket |
| HashTable.Push | lib/hashtable.c:91-97 | The pointer writes put the node in front of its bucket's chain and keep every chain linked, every back-pointer naming the cell that points to its node, keys unique and in their buckets, chains disjoint |
| HashTable.Insert | lib/hashtable.c:77-98 | Insert-if-absent on the map, with the invariant kept: a new node with the key and the value at the head of the chain of its hash, all other chains unchanged |
| HashTable.FreeChain | lib/hashtable.c:104-109 | Frees one chain, reading each successor before its node is freed |
| HashTable.Delete | lib/hashtable.c:100-112 | Frees the nodes of the chains in order, and the table last |
| HashTable.FreesEachOnce | lib/hashtable.c:100-112 | Exactly the table's nodes are freed, and none twice |
| HashTable.RunKeys | lib/hashtable.c:77-98 | After any sequence of insertions the table has exactly the keys for which there was memory once |
| HashTable.RunValues | lib/hashtable.c:77-98 | Each key has the value of the first insertion that could store it |
| Coro.Machine.SwapContext | lib/coro.c:7-54 | The twelve register stores, the return address, the stack pointer, and the loads: the old context's fourteen words and the new registers outright |
| Coro.ContextSlots | lib/coro.c:19-50 | Which of the fourteen words of a context holds which register, on the way in and on the way out, and that no other word is stored to |
| Coro.CoNew | lib/coro.c:65-105 | The prepared coroutine: zeros throughout, the three arguments, the entry point, the stack pointer |
| Coro.FirstResume | lib/coro.c:75-102 | Entering a new coroutine: entry point, arguments, all other registers zero, and a stack pointer eight below the last multiple of sixteen that is not above the end of the stack; everything else in the coroutine is zero, everything outside as it was |
| Coro.CoYield | lib/coro.c:109-118 | Yielding stores the value and switches from the coroutine's context to its caller's, or exits on an overflown stack |
| Coro.CoResume | lib/coro.c:120-141 | Resuming with or without a value, the other way round; what it returns is CoroRuns.ResumeReturns |
| Coro.EntryPoint | lib/coro.c:56-59 | A coroutine that is entered is started |
| Coro.EntryReturns | lib/coro.c:60-62 | A coroutine whose function returned is stopped and hands -1 to its resumer |
| CoroRuns.StoreLoads | lib/coro.c:19-34 | A switch leaves the running party's frame in its context and no other context changed |
| CoroRuns.StepAgrees | lib/coro.c:7-54 | Every switch and all work between switches simulates a machine on which each party has registers of its own |
| CoroRuns.StartAgrees | lib/coro.c:7-54 | Every well-formed world is a start of the simulation |
| CoroRuns.ResumeReturns | lib/coro.c:109-141 | A party that resumed a coroutine gets control back by a yield of that very coroutine, whatever was resumed in between, and the value it is returned is the one yielded |
| CoroRuns.GetsBack | lib/coro.c:109-141 | In every interleaving of N coroutines' resumes and yields, a party that gets control back has rbx, rbp and r12 to r15 as it gave them up, the stack pointer with the return address popped, and that address to go on at |
| CoroRuns.StartsPrepared | lib/coro.c:65-105 | A coroutine that never ran starts with the registers its context was prepared with, word by word, whatever ran before |
| IoHandler.PushAccept | lib/iouring_utils.c:6-15 | The queue entry and the slot's action |
| IoHandler.PushRecv | lib/iouring_utils.c:27-36 | The queue entry with the connection's own buffer to receive into, and the slot's action |
| IoHandler.PushSend | lib/iouring_utils.c:38-49 | The queue entry with what is sent and MSG_MORE, the slot's action and one more step |
| IoHandler.PushSplice | lib/iouring_utils.c:51-63 | The queue entry with both ends and the length, the slot's action and one more step |
| IoHandler.Answering | lib/io_loop.c:98-118 | The response is composed on the heap into the connection's text buffer; the ring gets the send of exactly this text, and in the build with file watching, linked behind it, the file into the pipe and the pipe into the connection, as many bytes both times |
| IoHandler.Serve | lib/io_loop.c:60-118 | Parsing on the heap, then one of the fixed answers or the composed response: the ring's new entries outright, and the turn on values |
| IoHandler.ResetConnection | lib/io_loop.c:132-153 | Counters, request, response, tables and buffer are as new |
| IoHandler.HandleTurn | lib/io_loop.c:36-157 | One turn of the handler on the heap: the ring's new entries outright, from the reply that is returned; the slot, the pushed operations, the reply and the close are those of the turn on values |
| IoLoop.EventLoop.Accepted | lib/io_loop.c:203-231 | An accept completion: exit, accept again, or a new connection's receive and then accept again, each entered in the ring for its own connection |
| IoLoop.EventLoop.OnCompletion | lib/io_loop.c:203-234 | Dispatch on the slot's current action; all other slots unchanged |
| IoLoop.EventLoop.DrainBatch | lib/io_loop.c:186-237 | A batch is the fold of the loop's turns over its completions and of what the kernel stores in between; every entry of the ring is that of its order, on its slot's connection, a receive into that connection's buffer; and the count is the number of completions |
| IoInvariant.NextKeeps | lib/io_loop.c:40-131 | Every event keeps the invariant: each slot has nothing in flight, exactly one receive with both counters zero, or as many sends and splices as steps are missing; the listening slot has one accept |
| IoInvariant.RunKeeps | lib/io_loop.c:186-237 | The invariant holds in every world of every run |
| IoInvariant.Dispatch | lib/io_loop.c:203-234 | The action switched on is always of the class of the completed operation, which belongs to the slot's current connection; only the listening slot's action is accept |
| IoInvariant.HandlerReady | lib/io_loop.c:41-67 | Whenever bytes arrived, the buffer has the zero tail the parser needs |
| IoInvariant.TurnKeeps | lib/io_loop.c:36-157 | A handler turn leaves the slot connected, or closes it with nothing in flight and nothing left |
| IoInvariant.ClosesWhen | lib/io_loop.c:122-135 | A connection is closed exactly when its receive returned 0 or its last send or splice is processed; its descriptor was open |
| IoInvariant.ClosedSlot | lib/io_loop.c:132-153 | What a close leaves in the slot: counters at zero, no request, no response, empty tables of twenty, a buffer of zeros; that it is prepared and its last action stay |
| IoInvariant.LeftIdle | lib/io_loop.c:41-45 | A connection is left open with nothing in flight if and only if its receive failed |
| IoProperties.ClosedOnce | lib/io_loop.c:132-135 | In every run two closes of one descriptor close two different connections |
| IoProperties.NoStaleCompletion | lib/io_loop.c:203-234 | In every run no completion of an old connection reaches a new one on the same slot |
| IoProperties.StuckStays | lib/io_loop.c:41-45 | A step leaves a connection with nothing in flight as it is, and no accept is given its descriptor |
| IoProperties.FailedForEver | lib/io_loop.c:41-45 | In every run, from a failed receive on the connection is open with nothing in flight, its slot untouched, never closed, and its descriptor given to no accept |
| IoProperties.UnpreparedClosed | lib/io_loop.c:214-221 | The descriptor of a connection that cannot be prepared is closed by the loop: it was open for that accept only and is not open afterwards |
| IoProperties.BytesArrive | lib/io_loop.c:186-237 | A receive that completes leaves its bytes at the start of its slot's buffer and its result in its operation, and changes nothing else |
| IoProperties.FreshHandling | lib/io_loop.c:20-34 | Whenever received bytes are processed the slot equals a brand-new one with those bytes: both counters zero, no request, no response, empty tables of twenty, zeros behind the bytes; so the n-th request is handled as a first one |
| IoProperties.RequestsAreRead | lib/io_loop.c:61-74 | In every run the handler accepts exactly the requests the grammar reads, with the grammar's method and path |
| IoProperties.RepliesAre | lib/io_loop.c:54-118 | What every received request is sent: 413, 400, 404 (no route, or -8), 500 (-2), or exactly the print of its protocol and the handler's response with nothing of an earlier one, and which operations carry it in the two builds |
| IoProperties.EveryReply | lib/io_loop.c:54-118 | The same in every world of every run |
| IoProperties.TurnLightens | lib/io_loop.c:96-124 | A turn pushes at most three operations and lightens its slot |
| IoProperties.Weighs | lib/io_loop.c:186-237 | The weight that TurnLightens and GoesIdle speak of: four for a receive, one for a send or splice, nothing for an accept |
| IoProperties.GoesIdle | lib/io_loop.c:186-237 | While no accept completes, no more completions can be processed than the total weighs, a receive weighing 4 and a send or splice 1 |
| IoProperties.BatchPushes | lib/io_loop.c:186-237 | A batch of c completions pushes at most 3c submissions |
| IoProperties.OneAccept | lib/io_loop.c:203-231 | After every accept completion the process has exited, exactly for errors other than -11 (EAGAIN), or exactly one accept is in flight |
| IoRefinement.LoopExpects | lib/io_loop.c:186-237 | In every reachable world the loop on the heap finds what it relies on |
| IoRefinement.TurnSteps | lib/io_loop.c:203-234 | The loop's turn is the transition system's step: same slots, same exit, same closes; and for every slot the kinds of the operations submitted for it are, in order, those it has in flight afterwards beside what was in flight before |
| IoRefinement.AcceptOrders | lib/io_loop.c:203-231 | What an accept completion submits, outright: nothing for an error other than -11, otherwise an accept on the listening slot, behind the receive of the new connection if it is prepared |
| IoRefinement.ReplyOrders | lib/io_loop.c:36-131 | What a receive submits, outright: the send of the reply to exactly the received bytes on the slot they came from, and behind a composed one in the build with file watching the two splices of the handler's file; all other completions submit nothing |
| IoRefinement.ClosedByIs | lib/io_loop.c:122-135 | What a step closes, by its completion: a descriptor that cannot be prepared, a connection whose receive returned 0, or one whose last send or splice finished |
| IoRefinement.ArrivalSteps | lib/io_loop.c:186-237 | What the kernel does between two turns is what the loop sees arrive |
| IoRefinement.LoopRuns | lib/io_loop.c:186-237 | Draining a batch on the heap, whatever completes meanwhile, is the run of the transition system: the slots, the closes, for every slot the kinds of the operations that the run adds to it, in order, and at most 3c pushes for c completions |
| IoRefinement.RingReplies | lib/io_loop.c:36-118 | In every batch of every run, each received request leaves in the loop's ring the send of the reply that belongs to its bytes, on its own connection, and the splices behind it |
| IoRefinement.RingAccepts | lib/io_loop.c:222-231 | And each accepted connection leaves there its receive, into its own buffer, and the next accept on the listening connection |

## Left out

- Sockets, system calls, liburing itself, libmagic and file mapping are not modelled: completions and handler results are arbitrary inputs.
- Threads: one thread and one ring; the server's threads share and overwrite one structure.
- The submission queue always has room.
- `find_router` and the handlers are one arbitrary answer for each request: an error code, a status, headers and a content; a handler is taken to leave the request itself alone.
- `global_static_router`, its static data, and the bytes that go through the shared pipe: of the chain only its three operations, their ends, lengths, links and steps.
- The wording of the four fixed answers: the model names them by their status.
- A slot has its receive buffer from the start; the source allocates it with the slot's first connection.
- `string_init` in a connection's set-up is taken to succeed; a coroutine that cannot be created is modelled.
- The capacity formula of `string_init` and `string_append` is not modelled: capacities are parameters, of at least 64 for receive buffers, and growth gives more than was asked for.
- StringBuffer.Append: growth is by an abstract allocator that gives more than len + buflen, because the source's formula does not promise it.
- HttpResponse.Compose: after a line that does not fit the 1024 bytes it is printed to, which the source does not check, nothing is promised.
- IoProperties.RepliesAre: runs in which a composed response has such a line are not followed beyond it.
- `int_hmap_new` and `murmurhash_str`: the table is the one over `hash_64`.
- The log output, the stack-overflow word beyond its test, `co_free`, `kv_free` and `string_free`.
- CoroRuns.GetsBack: what a running coroutine does to memory is arbitrary outside the contexts; that it does not overwrite another one's stack is not modelled.
- The answer to a request that was parsed but could not be composed: composing fails only without a protocol, and no accepted request lacks one.
- The lifetime of the fixed answers' stack buffers.
- IoProperties.GoesIdle: nothing is claimed after a failed receive; such a connection is never closed.
- KeyValue.FindValue: the strings of the table are in one memory that does not change during the search.
