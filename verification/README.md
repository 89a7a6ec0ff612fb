# A verified model of the Popur device SDK

The SDK talks to litter boxes over a local network, a message broker and HTTP. This project models
the parts of it that carry hard properties and proves those properties with Dafny. Run
`dafny verify dfyconfig.toml` in this directory to check everything.

## What is modelled

**Recovering secrets from a picture** (`Bytes`, `Polynomials`, `Elimination`, `PixelReader`,
`SecurityAsset`). Bytes hidden in the lowest bits of a bitmap are read around the end of the pixel
payload, shares (x, y) are parsed out of them, and for every key an exact elimination with row swaps
yields a number whose bytes are masked. Proved: the elimination finds the constant term of the only
polynomial through the shares, it fails exactly if two shares have one x, and a bitmap into which
shares of secrets were written gives the secrets back, whatever the client identifier and the start.
The second check for a zero denominator in the program can never fire.

**A lenient parser and its printer** (`JsonText`, `DpString`, `DpPrinter`, `DpRoundTrip`, `DpGrammar`,
`DpDocs`). The parser knows comments, escapes, unquoted words, octal and hexadecimal numbers, `=>`,
empty places in arrays and separators at the end; the printer escapes nothing. Proved: every text that
is written out from a value with all the freedom of the notation is parsed as that value, and what may
not stand in a text is refused; parsing undoes printing for every dictionary of plain keys and readable
values, and for a single data point exactly when it is plain and readable.
Every successful call ends strictly behind its start and inside the text. Numbers beyond 64 bits and
texts with quotes or backslashes do not come back, and bytes come back as their base64 text.

**Frames on a byte stream** (`LanFrames`, `LanSocket`). Two formats, a window of eight bytes that
looks for a prefix, and a socket that hands out the stream in arbitrary pieces. Proved: the search
stops at the first prefix, and packed frames with any prefix-free garbage between them come out
unchanged and in order for every way of cutting the stream; and any frame, packed or forged, is marked
as authentic exactly if its digest, its checksum or the cipher says so. The suffix of a frame and two
bytes of a sealed header are never looked at. One exception, stated exactly: the packer treats an empty
key as no key and the reader does not, so that a frame of the first format packed with an empty key does
not come back.

**Packed settings and the client's lock** (`Dp102`, `Dp102Updates`, `Dp104`, `Dp105`,
`ClientUpdates`). Three settings payloads with shared bit fields, reserved bytes and values that
decode by fallback, and a client whose read-modify-write operations run under one lock while calls
may fail half-way. Proved: where every field stands and what it is read as, bit by bit; writing back an
untouched model changes no byte, fields come back exactly when they are in range, only bits of changed
fields move, updates of different fields commute, no caller is stuck, and every interleaving ends in the
fold of the landed operations in lock order. Byte 27 is the exception
among the reserved bits: a change of a second notification flag clears its upper half. The key
settings, whose encoder starts from nothing, give an untouched payload back only if it has the plain
form that is stated.

**Caches and state machines** (`Dedup`, `Dp101`, `CleaningProgress`, `LinkKeeper`, `LowPower`,
`CommPipeline`, `PublishCascade`). Findings next to the properties proved:
- A store of the duplicate cache may hold nothing but stale entries and still be over its threshold,
  since a hit looks at one entry only. Different messages may share a key: numbered ones of devices
  whose identifiers differ in length, and ones with two numbers even within one device.
- Patching a report leaves entry "126" at odds with entry "101" exactly if the new cat status is an
  unknown word.
- When a cleaning ends while it is running, the copy of its start time stays behind, and for that
  reason the start time of the next cleaning is not persisted.
- An unknown gateway is reported off again on every send.
- A device that turns out to be awake is still sent wake-up messages. With a handler that runs at
  once what is posted to it, as the timer handler does, a wake task whose time is over at its first
  run stays on record, so that later calls wait for a task that is gone. A handler that defers the
  first run does not have this.
- No message gets past a beacon that is not the last handler. Bluetooth that is promoted to the front
  of the list comes too late to bring the Yu channel.
- A channel that replies twice makes the caller hear, or another channel be asked, once too often;
  how often is exactly the number of surplus replies.

Text is a sequence of code points in the parser and in the duplicate cache, and a sequence of
characters elsewhere. Bytes are integers from 0 to 255. Fractions and seconds are exact numbers.

## Model

| member | source | states |
|---|---|---|
| Polynomials.Division | src/pypopur/mobile.py:785-803 | p(x) - p(a) is (x - a) times the quotient: the fact about polynomials behind the pivot search |
| Polynomials.TooManyRoots | src/pypopur/mobile.py:785-803 | a polynomial of degree below n that vanishes at n different places is zero |
| Polynomials.InterpolateThrough | src/pypopur/mobile.py:776-803 | some polynomial of degree below n passes through any n shares with different x |
| Polynomials.UniquePolynomial | src/pypopur/mobile.py:776-803 | only one polynomial of degree below n passes through them |
| Elimination.BuildRows | src/pypopur/mobile.py:779-784 | the rows are the Vandermonde system of the shares, highest power first |
| Elimination.FindPivot | src/pypopur/mobile.py:787-790 | the first row below with a non-zero entry in the column, or none when all are zero |
| Elimination.SwapKeepsKernel | src/pypopur/mobile.py:793 | swapping two rows keeps the set of solutions |
| Elimination.CombineKeepsKernel | src/pypopur/mobile.py:797-799 | replacing a row by a non-zero multiple of it minus another row keeps the set of solutions |
| Elimination.ReduceRow | src/pypopur/mobile.py:795-799 | a row below gets a zero in the column, the others stay, the solutions and the finished columns are kept |
| Elimination.ClearColumn | src/pypopur/mobile.py:794-799 | all rows below the pivot get a zero in its column, the solutions and the finished columns are kept |
| Elimination.NoPivotHomogeneous | src/pypopur/mobile.py:787-792 | a column without a pivot means that the system has a non-zero homogeneous solution |
| Elimination.DistinctHomogeneous | src/pypopur/mobile.py:776-793 | for shares with different x the only homogeneous solution is zero, so that a pivot is always found |
| Elimination.RepeatedHomogeneous | src/pypopur/mobile.py:791-792 | two shares with one x give a non-zero homogeneous solution, so that the error must come |
| Elimination.LastUnknown | src/pypopur/mobile.py:800-803 | in a triangular system the last row alone gives the constant term of the solving polynomial |
| Elimination.Eliminate | src/pypopur/mobile.py:785-799 | ends in a triangular system with the same solutions, or reports singular and then there is a non-zero homogeneous solution |
| Elimination.SolveKey | src/pypopur/mobile.py:776-805 | one key: singular exactly for a repeated x, otherwise the value at 0 of the polynomial through the shares, refused unless it is a natural number |
| Elimination.RecoveredMeans | src/pypopur/mobile.py:776-805 | a number is recovered if and only if the shares have different x and some polynomial of their size through them has that number as its constant term |
| Elimination.RecoversSecret | src/pypopur/mobile.py:776-805 | from shares of any polynomial with enough of them its secret is recovered |
| PixelReader.Reader.ReadByte | src/pypopur/mobile.py:750-756 | eight lowest bits, least significant first, wrapping around the payload, and the cursor eight further |
| PixelReader.Reader.ReadShares | src/pypopur/mobile.py:766-774 | length-prefixed big-endian pairs, refused when a number is empty |
| PixelReader.EmbedCarries | src/pypopur/mobile.py:748-756 | any content that fits can be written into the lowest bits from any start, also around the end |
| PixelReader.CarriedReadBack | src/pypopur/mobile.py:750-756 | bytes written into the lowest bits are read back from every start |
| PixelReader.SharesReadBack | src/pypopur/mobile.py:766-774 | written shares are parsed back as their values, in order |
| PixelReader.SharesReadBackIff | src/pypopur/mobile.py:766-774 | numbers written with their lengths are parsed if and only if none of them is empty, and then as their values in order |
| SecurityAsset.ComputeJavaStringHash | src/pypopur/mobile.py:701-707 | the absolute value of the signed 32-bit hash of the client identifier |
| SecurityAsset.ComponentReadsBack | src/pypopur/mobile.py:806-812 | the bytes of a recovered number read big-endian are that number again |
| SecurityAsset.MaskedTwice | src/pypopur/mobile.py:715-725 | the mask undoes itself |
| SecurityAsset.SolveComponents | src/pypopur/mobile.py:776-816 | every key is solved from its own group of shares and masked, and the first error ends it |
| SecurityAsset.DecodePayload | src/pypopur/mobile.py:758-816 | counts checked, pixels skipped, shares read and every key solved, with the error of the first step that fails |
| SecurityAsset.Extract | src/pypopur/mobile.py:728-816 | the whole extraction from identifier and bitmap, including the header checks |
| SecurityAsset.EmbeddedHides | src/pypopur/mobile.py:758-774 | counts and shares can be written into any payload that has room, so that the next statement is not empty |
| SecurityAsset.PayloadOfAssembled | src/pypopur/mobile.py:739-747 | for every size, reserved bytes, offset and content after them: which bytes of a bitmap written with a little-endian writer are the payload, and exactly when its header is refused |
| SecurityAsset.NotABitmapIff | src/pypopur/mobile.py:739-743 | bytes are refused as no bitmap if and only if there are fewer than 54 or they do not begin with the magic |
| SecurityAsset.PayloadIsPixels | src/pypopur/mobile.py:739-747 | a bitmap assembled from header, gap, pixels and trailing bytes yields the pixels |
| SecurityAsset.HashIsSum | src/pypopur/mobile.py:701-707 | the hash is the sum of s[i] * 31^(n-1-i) modulo 2^32 |
| SecurityAsset.StartCursorIs | src/pypopur/mobile.py:748 | the start is the absolute value of that sum as a signed number, taken modulo the number of pixels, halved, and one further |
| SecurityAsset.CountsRefused | src/pypopur/mobile.py:758-763 | a first count other than 1 to 5 means the wrong client, and a second one that is zero or no multiple of it is invalid |
| SecurityAsset.EmptyShareRefused | src/pypopur/mobile.py:766-774 | a share with an empty number ends the extraction with that error |
| SecurityAsset.ComponentIs | src/pypopur/mobile.py:776-815 | what one key comes to, from any polynomial through its shares: the error for a repeated x, for a value at 0 that is no natural number, for too many bytes, or the masked bytes |
| SecurityAsset.MaskedBit | src/pypopur/mobile.py:715-725 | every bit of a masked byte is the exclusive or of the bits of component and stream |
| SecurityAsset.ExtractionFindsSecrets | src/pypopur/mobile.py:728-816 | from every bitmap assembled from header, gap, pixels and trailing bytes, in whose pixels shares of secrets were hidden from the start that the identifier gives, the masked secrets are extracted, in order |
| SecurityAsset.UnmaskedSecret | src/pypopur/mobile.py:803-815 | taking the mask off a component gives the bytes of the secret |
| JsonText.ParsesLongIff | src/pypopur/app/dp_string.py:128-144 | a text is read as a number if and only if it is an optional sign and digits of the base that spell that number, and the number has 64 bits |
| JsonText.IntTextParses | src/pypopur/app/dp_string.py:128-144 | a number as text parses as itself exactly when it has 64 bits |
| JsonText.AssignedReadsBack | src/pypopur/app/dp_string.py:233 | an assignment gives its key the new value, leaves all other keys with theirs, and keeps keys distinct |
| DpString.NextClean | src/pypopur/app/dp_string.py:40-78 | past space and comments, to a position within the text and not before the start |
| DpString.ScanClean | src/pypopur/app/dp_string.py:40-78 | the loops over space and comments compute just that |
| DpString.StringBody | src/pypopur/app/dp_string.py:110-125 | ends strictly behind its start and within the text |
| DpString.ScanString | src/pypopur/app/dp_string.py:110-125 | the loop over a quoted string computes its meaning |
| DpString.ScanLiteral | src/pypopur/app/dp_string.py:165-197 | the loop over an unquoted word computes its meaning |
| DpString.NextValue | src/pypopur/app/dp_string.py:200-212 | a value ends strictly behind its start and within the text, so that the mutual recursion ends |
| DpString.ReadObject | src/pypopur/app/dp_string.py:215-240 | an object ends strictly behind its start and within the text |
| DpString.Items | src/pypopur/app/dp_string.py:243-273 | an array ends strictly behind its start and within the text |
| DpString.ParseMembers | src/pypopur/app/dp_string.py:222-240 | the loop over the members computes what the recursive meaning says |
| DpString.ParseItems | src/pypopur/app/dp_string.py:249-273 | the loop over the items computes what the recursive meaning says |
| DpString.ParseOrgJsonObject | src/pypopur/app/dp_string.py:276-283 | the parser as it runs returns the meaning of the text or its error |
| DpGrammar.GapSkipped | src/pypopur/app/dp_string.py:40-78 | any sequence of white space, closed comments and line comments written before a value is passed over |
| DpGrammar.PiecesRead | src/pypopur/app/dp_string.py:81-125 | a quoted string written from characters, named escapes, backslashed characters and four-digit escapes is read as what its pieces stand for |
| DpGrammar.TokenClassified | src/pypopur/app/dp_string.py:128-197 | an unquoted word means what it was written from: a keyword in any case, a decimal, octal or hexadecimal number with its sign, a floating-point number, or text |
| DpDocs.DocReads | src/pypopur/app/dp_string.py:200-273 | any value of the notation - string, word, object, array, nested at will and with any gaps - is read at any place as what it means |
| DpDocs.SlotsReads | src/pypopur/app/dp_string.py:249-273 | the places of an array are read in order, every empty place as null |
| DpDocs.MembersReads | src/pypopur/app/dp_string.py:222-240 | members are read in order, with either separator, an optional arrow head and either delimiter |
| DpDocs.TextParses | src/pypopur/app/dp_string.py:276-283 | every object written in the notation, after an optional byte order mark and any gap, is parsed as what it means, and what follows it is left |
| DpDocs.OnlyObjects | src/pypopur/app/dp_string.py:276-283 | any other value written in the notation is refused |
| DpDocs.NameMustBeText | src/pypopur/app/dp_string.py:222-232 | a member whose name is read as something else than text is refused |
| DpDocs.SeparatorMustFollow | src/pypopur/app/dp_string.py:226-229 | a name without a separator after it is refused |
| DpDocs.DelimiterMustFollow | src/pypopur/app/dp_string.py:234-240 | a member with neither a delimiter nor the closing brace after it is refused |
| DpDocs.ItemMustEnd | src/pypopur/app/dp_string.py:264-273 | an item with neither a delimiter nor the closing bracket after it is refused |
| DpDocs.StringMustEnd | src/pypopur/app/dp_string.py:110-125 | a string whose quote never comes is refused, whatever stands in it |
| DpDocs.EscapeMustBeWhole | src/pypopur/app/dp_string.py:81-107 | an escape that the end of the text cuts off is refused, and one whose four characters stand for nothing |
| DpDocs.EndsWordIff | src/pypopur/app/dp_string.py:165-171 | the sixteen characters that end an unquoted word |
| DpDocs.CommentMustEnd | src/pypopur/app/dp_string.py:40-78 | a comment that is never closed is refused |
| DpDocs.NothingAtTheEnd | src/pypopur/app/dp_string.py:200-273 | a value or an item that should come at the end of the text is refused |
| DpPrinter.SerializeDps | src/pypopur/app/dp_string.py:345-372 | the printing loop writes the entries in order, quoted and unescaped |
| DpPrinter.ParseUndoesPrint | src/pypopur/app/dp_string.py:276-372 | parsing a printed dictionary of plain keys and readable values gives it back, and the whole text is used up |
| DpPrinter.Base64ReadsBack | src/pypopur/app/dp_string.py:363-366 | the text printed for bytes stands for those bytes |
| DpDocs.FloatReadsBack | src/pypopur/app/dp_string.py:165-197 | a printed floating-point number is read as the number of its token |
| DpRoundTrip.QuotedReadsBackIff | src/pypopur/app/dp_string.py:110-125 | a quoted text reads back as itself if and only if it holds no quote and no backslash |
| DpRoundTrip.FirstEntryStays | src/pypopur/app/dp_string.py:222-240 | later members never change the key of the first, and replace its value only by one that is read later |
| DpRoundTrip.SingleReadsBackIff | src/pypopur/app/dp_string.py:276-372 | one data point survives printing and parsing if and only if its key is plain and its value readable |
| LanFrames.ResyncFindsFirst | src/pypopur/sdk/lan_socket.py:184-199 | the search stops at the least place where either prefix stands |
| LanFrames.ResyncExhausts | src/pypopur/sdk/lan_socket.py:184-199 | without a prefix the search drops byte by byte down to the last seven |
| LanFrames.GarbageBeforeFrame | src/pypopur/sdk/lan_socket.py:184-199 | garbage without a prefix cannot form one together with the frame after it |
| LanFrames.Accepts55AA | src/pypopur/sdk/lan_socket.py:121-133 | a packed frame of the first format is taken as it was packed if and only if the key is not empty |
| LanFrames.Accepts6699 | src/pypopur/sdk/lan_socket.py:136-145 | a packed frame of the sealed format is taken as it was packed |
| LanFrames.PlainOutcome | src/pypopur/sdk/lan_socket.py:163-231 | whatever stands in a header of the first format: when the read fails and at which point of the stream, and when a frame is got |
| LanFrames.PlainFrameRead | src/pypopur/sdk/lan_socket.py:205-231 | a frame with any header, payload and end is marked as authentic if and only if its digest, or without a key its checksum, is that of all bytes before it |
| LanFrames.SealedOutcome | src/pypopur/sdk/lan_socket.py:163-247 | the same for a header of the sealed format |
| LanFrames.SealedFrameRead | src/pypopur/sdk/lan_socket.py:232-247 | a sealed frame is marked as authentic if and only if there is a key, it has at least 28 bytes and the cipher opens it, with its header as additional data; otherwise its bytes are handed out as they are |
| LanFrames.PackedLayout | src/pypopur/sdk/lan_socket.py:121-145 | every field of a packed frame of either format, byte by byte |
| LanFrames.ReadUndoesPack | src/pypopur/sdk/lan_socket.py:121-247 | one frame after garbage is read as packed, with the bytes after it left over, exactly unless the empty key was used with the first format |
| LanFrames.StreamReadsBack | src/pypopur/sdk/lan_socket.py:163-247 | any list of frames of both formats, with garbage between them, is read back in order and nothing else is used up |
| LanSocket.Link.ReadExact | src/pypopur/sdk/lan_socket.py:152-160 | the next n bytes of the stream, or the end of the stream with all bytes kept in the buffer |
| LanSocket.Link.Resynchronize | src/pypopur/sdk/lan_socket.py:184-199 | the windowed search over received pieces is the search over the whole stream |
| LanSocket.Link.ReadFrame | src/pypopur/sdk/lan_socket.py:163-247 | reading a frame depends only on the bytes of the stream, not on how it was cut |
| LanSocket.Link.ReadFrames | src/pypopur/sdk/lan_socket.py:163-247 | the same for repeated reads |
| LanSocket.ReceiveAll | src/pypopur/sdk/lan_socket.py:163-247 | packed frames come out of the link unchanged and in order, however the stream was cut |
| Dp102.EncodeDp102 | src/pypopur/dps.py:287-347 | the encoder that writes field by field into the old payload gives every byte as its own field demands |
| Dp102.PutUnchanged | src/pypopur/dps.py:195-347 | encoding an untouched decoded model gives the padded or truncated payload byte for byte |
| Dp102.GetBackIff | src/pypopur/dps.py:195-347 | decoding an encoded model gives every field back if and only if all fields are in range |
| Dp102.OnlyChangedBitsMove | src/pypopur/dps.py:287-347 | a bit that no changed field owns keeps its value |
| Dp102.ReshuffleFieldsApart | src/pypopur/dps.py:335-342 | the two fields of byte 26 do not disturb each other |
| Dp102.ExtUpperBitsKeptIff | src/pypopur/dps.py:343-344 | byte 27 keeps what stands above its four flags if and only if no flag changes or nothing stands there |
| Dp102.ExtUpperBitLost | src/pypopur/dps.py:343-344 | a payload with 0x80 in byte 27 of which a change of one flag loses the upper bit |
| Dp102.EncodedTwice | src/pypopur/dps.py:287-347 | encoding again on top of the new payload changes nothing |
| Dp102.NumbersRead | src/pypopur/dps.py:206-214 | where each number stands, which range it has and what it is read as outside |
| Dp102.SwitchesRead | src/pypopur/dps.py:232-262 | where each switch that has a byte of its own stands, and the color |
| Dp102.ReshuffleRead | src/pypopur/dps.py:219-225 | the switch and the label that share byte 26 |
| Dp102.FlagsRead | src/pypopur/dps.py:238-262 | which bit of bytes 18, 22 and 27 is which flag, from a byte written bit by bit |
| Dp102.NumbersWritten | src/pypopur/dps.py:287-347 | a changed number is written as the nearest of its range |
| Dp102.SwitchesWritten | src/pypopur/dps.py:287-347 | a changed switch is written as 0 or 1 into its own byte |
| Dp102.FlagsWritten | src/pypopur/dps.py:266-285 | which bit each changed notification flag is written into |
| Dp102Updates.UpdatedByte | src/pypopur/client.py:207-222 | a read-modify-write works byte by byte |
| Dp102Updates.Patched | src/pypopur/client.py:221-222 | an update gives every field it names its new value and leaves the others |
| Dp102Updates.DisjointUpdatesCommute | src/pypopur/client.py:207-222 | updates of different fields commute on payloads of every length |
| Dp102Updates.UntouchedBitKept | src/pypopur/client.py:207-222 | every bit that no field of the update owns survives it |
| Dp104.EncodeDp104 | src/pypopur/dps.py:588-614 | the encoder that writes into the old payload gives every byte as its own field demands |
| Dp104.DustbinPutUnchanged | src/pypopur/dps.py:555-614 | encoding an untouched model gives back the payload, completed from the default |
| Dp104.DustbinGetBackIff | src/pypopur/dps.py:566-614 | decoding an encoded model gives every field back if and only if both numbers are in range |
| Dp104.DustbinOnlyChangedMoves | src/pypopur/dps.py:588-614 | unchanged toggles keep their bits, the upper three bits always stay, unchanged numbers keep their bytes |
| Dp104.DustbinEncodedTwice | src/pypopur/dps.py:588-614 | encoding again on top of the new payload changes nothing |
| Dp104.DustbinRead | src/pypopur/dps.py:555-585 | where toggles, calibration and cycle count stand, what fills a short payload and what is read outside the ranges |
| Dp104.DustbinWritten | src/pypopur/dps.py:608-614 | changed numbers are written as the nearest of their range |
| Dp104.DustbinPatched | src/pypopur/client.py:289 | an update gives every field it names its new value and leaves the others |
| Dp104.DisjointDustbinUpdatesCommute | src/pypopur/client.py:281-291 | updates of different dustbin fields commute |
| Dp105.KeysGetBackIff | src/pypopur/dps.py:620-648 | the key settings come back if and only if the mask has four bits and the actions are bytes |
| Dp105.KeysPutUnchangedIff | src/pypopur/dps.py:620-648 | an untouched payload comes back if and only if it has seven bytes, no bit above the mask and flags 0 or 1 |
| Dp105.KeysRead | src/pypopur/dps.py:620-634 | where the gestures stand, and the default for a short payload |
| Dp105.LocksRead | src/pypopur/dps.py:620-634 | the lowest four bits of the first byte are the locks, whatever stands above them |
| Dp105.KeyLockIsLocal | src/pypopur/dps.py:651-656 | locking a key changes the lock of that key alone, and an unknown key changes nothing |
| Dp105.KeyLocksCommute | src/pypopur/dps.py:651-656 | locks of different keys commute |
| Dp105.LastKeyLockWins | src/pypopur/dps.py:651-656 | for one key the last lock counts |
| Dp105.AllKeysLockedMeans | src/pypopur/client.py:316 | locking all keys locks each of the four |
| ClientUpdates.Client.MutateSystemSettings | src/pypopur/client.py:207-219 | the registers become those of the operation, or stay when the payload is missing |
| ClientUpdates.Client.UpdateDustbinSettings | src/pypopur/client.py:281-291 | the same for the dustbin settings |
| ClientUpdates.Client.SetKeyLocked | src/pypopur/client.py:296-306 | the same for one key lock |
| ClientUpdates.Client.SetAllLocked | src/pypopur/client.py:308-318 | the same for all key locks |
| ClientUpdates.StepKeeps | src/pypopur/client.py:207-219 | every step of every task, also one that fails before or after its write arrived, keeps the registers equal to the replay of the landed operations |
| ClientUpdates.NoLostUpdates | src/pypopur/client.py:207-318 | after every interleaving the registers are the fold of the landed operations in the order of the lock, no task had the lock twice, and every finished task had it |
| ClientUpdates.OrderIrrelevant | src/pypopur/client.py:207-318 | operations that commute pairwise give the same registers in every order |
| ClientUpdates.RunsAgree | src/pypopur/client.py:207-318 | two runs in which the same commuting operations landed end in the same registers |
| ClientUpdates.PatchesCommute | src/pypopur/client.py:207-222 | system updates of different fields commute as operations |
| ClientUpdates.DustbinPatchesCommute | src/pypopur/client.py:281-291 | dustbin updates of different fields commute as operations |
| ClientUpdates.KeyLockOperationsCommute | src/pypopur/client.py:296-306 | locks of different keys commute as operations |
| ClientUpdates.DifferentPointsCommute | src/pypopur/client.py:207-318 | operations on different data points commute |
| ClientUpdates.UntouchedBitSurvives | src/pypopur/client.py:207-219 | a bit that every operation of a fold keeps has its old value at the end |
| ClientUpdates.PatchKeepsBit | src/pypopur/client.py:207-222 | an update keeps every bit that none of its fields owns |
| ClientUpdates.RefusedIff | src/pypopur/client.py:207-318 | an operation is refused if and only if its own payload is missing, and never touches another data point |
| ClientUpdates.SystemReadBack | src/pypopur/client.py:207-219 | system settings in range are on the device as they were asked for |
| ClientUpdates.DustbinReadBack | src/pypopur/client.py:281-291 | the same for the dustbin settings |
| ClientUpdates.KeyLockReadBack | src/pypopur/client.py:296-306 | after a key lock the device has that key so, and every other key and gesture as before |
| ClientUpdates.AllLockedReadBack | src/pypopur/client.py:308-318 | after locking all keys the device has each so, and the gestures as before |
| ClientUpdates.NeverStuck | src/pypopur/client.py:207-219 | as long as a caller has neither finished nor failed some caller can go on |
| ClientUpdates.StepIsLocal | src/pypopur/client.py:207-219 | a release, a refusal and any error free the lock, and no step moves another caller |
| Dedup.Lookup | src/pypopur/sdk/dedup.py:70-84 | the lookup with its eviction loop computes answer and new store |
| Dedup.ThingMessageCache.CheckNumber | src/pypopur/sdk/dedup.py:86-91 | the number -1 counts as seen without a lookup, any other is looked up |
| Dedup.ThingMessageCache.CheckPair | src/pypopur/sdk/dedup.py:93-98 | a second number 0 counts as not seen without a lookup, any other is looked up |
| Dedup.ThingMessageCache.IsDataUpdated | src/pypopur/sdk/dedup.py:60-114 | the answer is that of the history of calls, withheld from low-power devices |
| Dedup.StoreAfterIff | src/pypopur/sdk/dedup.py:70-84 | which entries stand in a store after a call, and with which time |
| Dedup.NumberLookedUp | src/pypopur/sdk/dedup.py:86-91 | the answer and the stores after a call with one number: key, store and limit |
| Dedup.PairLookedUp | src/pypopur/sdk/dedup.py:93-98 | the same for a call with two numbers |
| Dedup.LowPowerBit | src/pypopur/sdk/dedup.py:60-68 | bit 12 of the attribute marks low power, whatever the others are |
| Dedup.AnswerIsRepeated | src/pypopur/sdk/dedup.py:70-98 | with a clock that does not run backwards, a call is told "repeated" if and only if the previous call with its key was a miss less than 5000 ms ago; eviction never changes an answer |
| Dedup.BoundedOrFreshAfterIff | src/pypopur/sdk/dedup.py:74-84 | after a call the store is within its threshold plus one or all fresh, if and only if the call missed or the store was small or fresh before |
| Dedup.OversizedWasFresh | src/pypopur/sdk/dedup.py:70-98 | over every run, either store beyond its threshold plus one holds only what was fresh at its last miss |
| Dedup.OversizedAndStale | src/pypopur/sdk/dedup.py:74-77 | a run after which the store is oversized and holds nothing but stale entries |
| Dedup.NumberKeysApart | src/pypopur/sdk/dedup.py:91 | numbered messages that share a key are the same message if and only if their device identifiers are equally long |
| Dedup.NumberKeysMeetIff | src/pypopur/sdk/dedup.py:91 | they share a key if and only if what the longer identifier has more stands at the front of the other number |
| Dedup.NumbersCollide | src/pypopur/sdk/dedup.py:86-91 | messages of two different devices of which the second is taken for a repeat of the first |
| Dedup.PairKeysApart | src/pypopur/sdk/dedup.py:98 | messages with two numbers that share a key are the same message if and only if identifiers and first numbers are written equally long |
| Dedup.PairsCollide | src/pypopur/sdk/dedup.py:93-98 | two different messages of which the second is taken for a repeat of the first |
| Dp101.ParseUndoesEncode | src/pypopur/app/dp101.py:159-195 | an encoded report parses as the report with unknown names replaced and the countdown in range |
| Dp101.ReportReadsBackIff | src/pypopur/app/dp101.py:159-195 | it parses as itself if and only if all names are known and the countdown is a byte |
| Dp101.DpStates.MigrateLegacyKeys | src/pypopur/app/dp101.py:241-281 | the map in place as the migration of the old one |
| Dp101.DpStates.ReconcileCleanControl | src/pypopur/app/dp101.py:295-314 | the map in place as the reconciliation of the old one |
| Dp101.DpStates.ApplyToMap | src/pypopur/app/dp101.py:317-332 | the map ends in normal form and shows the report that the old map stood for |
| Dp101.LegacyShown | src/pypopur/app/dp101.py:241-332 | the report of a map with legacy entries, field by field from "122", "24", "101", "126" and "18" with their defaults |
| Dp101.LegacyRunningShown | src/pypopur/app/dp101.py:241-332 | its running status, as the switch has it |
| Dp101.PackedShown | src/pypopur/app/dp101.py:317-332 | the report of a map with packed bytes, field by field from the bytes |
| Dp101.PackedRunningShown | src/pypopur/app/dp101.py:295-332 | its running status, as the switch has it |
| Dp101.NothingShownIff | src/pypopur/app/dp101.py:317-332 | for which maps there is no report afterwards |
| Dp101.SwitchIs | src/pypopur/app/dp101.py:224-238 | which entries "1" count as on, as off and as no switch |
| Dp101.DecodedIff | src/pypopur/app/dp101.py:68-94 | which values stand for bytes |
| Dp101.ItemsAreBytes | src/pypopur/app/dp101.py:68-94 | a list stands for the last bytes of its numbers in order, and items that are none are passed over |
| Dp101.AppliedIsNormal | src/pypopur/app/dp101.py:241-332 | no legacy keys, "126" is the cat of "101", "1" is a flag that does not contradict the running status, and report and switch mean what they meant before |
| Dp101.FixedIffNormal | src/pypopur/app/dp101.py:241-332 | the normaliser leaves a map alone if and only if it is in normal form |
| Dp101.AppliedTwice | src/pypopur/app/dp101.py:317-332 | the normaliser is idempotent on every map |
| Dp101.OthersUntouched | src/pypopur/app/dp101.py:317-332 | every other data point keeps its value |
| Dp101.AppliedDetermined | src/pypopur/app/dp101.py:317-332 | the normal form depends on the packed report, the switch and the other data points alone |
| Dp101.PatchedShows | src/pypopur/app/dp101.py:345-367 | a patched map shows the changed report, and its "126" agrees with it if and only if the cat is known |
| Dp101.PatchedFields | src/pypopur/app/dp101.py:345-367 | every field of the report of a patched map: the new one where it is known, the old one where none is given |
| Dp101.MergedShows | src/pypopur/app/dp101.py:370-416 | a report merged while a command is pending is in normal form and shows the expected status over the snapshot unless the switch contradicts |
| Dp101.MergedFields | src/pypopur/app/dp101.py:370-416 | every field of the merged report: from the snapshot, the running status from the command |
| Dp101.MergedPasses | src/pypopur/app/dp101.py:370-416 | without a pending command or without a report of its own the map is only brought into normal form |
| Dp101.ExpectedShownIff | src/pypopur/app/dp101.py:370-416 | the expected status is shown if and only if it is known and not the opposite of the command |
| Dp101.MergedTwice | src/pypopur/app/dp101.py:370-416 | merging the result again changes nothing |
| CleaningProgress.Percent | src/pypopur/app/repository.py:251-265 | the progress lies between 0 and 100, when exactly it is 0 and when 100, also for a negative duration, and that there is none only for no elapsed time over a duration of 0 |
| CleaningProgress.DeviceRepository.UpdateCleaningProgress | src/pypopur/app/repository.py:507-537 | metadata, both copies and the persisted state of the device, and no other device |
| CleaningProgress.DeviceRepository.RemoveCleaningProgress | src/pypopur/app/repository.py:539-545 | the metadata go and the copies stay |
| CleaningProgress.DeviceRepository.SyncCleaningProgress | src/pypopur/app/repository.py:423-505 | a report takes the device one step along its history, and no other device moves |
| CleaningProgress.OutcomeIsSound | src/pypopur/app/repository.py:423-545 | over every run: start and pause time are never both set, progress is in range, the expected duration is not 0, the elapsed time is the sum of disjoint stretches in order, and the copies agree with the metadata |
| CleaningProgress.CountedWithinWallTime | src/pypopur/app/repository.py:423-505 | accumulated plus running time never exceeds the time since tracking began |
| CleaningProgress.ReportKeepsCounted | src/pypopur/app/repository.py:423-505 | a report neither adds counted time nor takes any away, and the accumulated time never shrinks while the device is tracked |
| CleaningProgress.StretchesAreReported | src/pypopur/app/repository.py:423-505 | every counted stretch goes from a start report to a pause report |
| CleaningProgress.NextStartPersistedIff | src/pypopur/app/repository.py:476-493 | after an ended cleaning the next start time is persisted if and only if the ended one was not running |
| CleaningProgress.LastSpreadDecides | src/pypopur/app/repository.py:427-428 | the expected duration is 80 seconds and 25 for every spread reported last, or 205 for the spread 7 |
| CleaningProgress.ProgressIsEven | src/pypopur/app/repository.py:251-265 | between its ends the progress is exactly the share of the expected time |
| CleaningProgress.StartReport | src/pypopur/app/repository.py:434-478 | a start report, field by field: passed over within three seconds, else the run goes on or begins |
| CleaningProgress.StartProgress | src/pypopur/app/repository.py:459-468 | its progress is that of the time that has run on both sides of the last pause |
| CleaningProgress.RestartReport | src/pypopur/app/repository.py:435-446 | after a completed run a start report begins anew, and persists its start |
| CleaningProgress.PauseReport | src/pypopur/app/repository.py:479-491 | a pause report adds what has run since the start |
| CleaningProgress.DoneReport | src/pypopur/app/repository.py:492-495 | the four reports that end the tracking, and that the copies stay |
| CleaningProgress.OtherReport | src/pypopur/app/repository.py:496-505 | any other report changes the expected duration alone |
| CleaningProgress.UpdatedKeepsIff | src/pypopur/app/repository.py:507-537 | which metadata are kept, and the copies and the persisted state that go with them |
| LinkKeeper.ToldOnIff | src/pypopur/sdk/lan_session.py:847-859 | "last told on" means that some event said on and none about the gateway came after it |
| LinkKeeper.DevTransfer.OnGwOnline | src/pypopur/sdk/lan_session.py:833-840 | an attempt becomes live under its own name and is announced; keeps the invariant |
| LinkKeeper.DevTransfer.OnGwOffline | src/pypopur/sdk/lan_session.py:833-845 | the gateway leaves all maps and is told off if it was live; keeps the invariant |
| LinkKeeper.DevTransfer.AddDev | src/pypopur/sdk/lan_session.py:746-773 | refused while an attempt is fresh or the link is up, otherwise registered after every live gateway at its address was told off once; keeps the invariant |
| LinkKeeper.DevTransfer.CheckConnectResult | src/pypopur/sdk/lan_session.py:809-819 | a failed connect leaves no trace of the gateway; keeps the invariant |
| LinkKeeper.DevTransfer.BuildConnect | src/pypopur/sdk/lan_session.py:775-807 | connected without a key it is live at once, with one it waits for the handshake; keeps the invariant |
| LinkKeeper.DevTransfer.OnResponseData | src/pypopur/sdk/lan_session.py:613-615 | an answer stamps the gateway, live or not, and changes nothing else; keeps the invariant |
| LinkKeeper.DevTransfer.ControlByBinary | src/pypopur/sdk/lan_session.py:907-946 | the three answers, and the gateway is dropped exactly when the link is down, the send shows it, or it is unknown; keeps the invariant |
| LinkKeeper.DevTransfer.DeleteDev | src/pypopur/sdk/lan_session.py:948-958 | only a live gateway is deleted; keeps the invariant |
| LinkKeeper.DevTransfer.UpdateTimerTask | src/pypopur/sdk/lan_session.py:726-732 | exactly the stale gateways go, each told off once, and every live one was heard within a minute; keeps the invariant |
| LinkKeeper.DevTransfer.OnDestroy | src/pypopur/sdk/lan_session.py:734-742 | every live gateway is told off once and the maps are empty, but the stamps stay; keeps the invariant |
| LinkKeeper.DevTransfer.DeleteAllDev | src/pypopur/sdk/lan_session.py:960-972 | the same, and the stamps go too |
| LowPower.LowPowerDeviceManager.RegisterCallback | src/pypopur/sdk/low_power.py:299-306 | a callback that waits is not registered again, any other joins the list of its device with a ticket of its own; keeps the invariant |
| LowPower.LowPowerDeviceManager.DispatchResult | src/pypopur/sdk/low_power.py:310-318 | the task is called off, the deadline goes, and the result goes to the list of that device, at once or posted as the handler has it; keeps the invariant |
| LowPower.LowPowerDeviceManager.FanOut | src/pypopur/sdk/low_power.py:320-329 | everyone in the list gets the result once, in order, and the list is empty |
| LowPower.LowPowerDeviceManager.Arrive | src/pypopur/sdk/low_power.py:318-329 | any posted result may come up next and reaches its list; keeps the invariant |
| LowPower.LowPowerDeviceManager.RunTask | src/pypopur/sdk/low_power.py:343-351 | publishes and comes back, or reports the timeout; keeps every task within the messages that fit before the largest deadline it published under |
| LowPower.LowPowerDeviceManager.StartWakeTask | src/pypopur/sdk/low_power.py:333-358 | the answer of the cloud is passed on and the task launched all the same, unless the call raised; for both kinds of handler; keeps the invariant |
| LowPower.LowPowerDeviceManager.Awake | src/pypopur/sdk/low_power.py:246-295 | every branch of the entry: the answers given at once, the device on record as awake, and otherwise registration and a task unless one is on record; keeps the invariant |
| LowPower.LowPowerDeviceManager.ReleaseAll | src/pypopur/sdk/low_power.py:411-424 | tasks, deadlines and flags are forgotten, and the registry only at the end; keeps the invariant |
| LowPower.RunKeepsPromises | src/pypopur/sdk/low_power.py:246-424 | over every run of calls, arrivals, task runs and releases, with either kind of handler: no registration has more than one result, one without a result still waits, and no task published more often than fits before its largest deadline |
| LowPower.StepSound | src/pypopur/sdk/low_power.py:246-424 | every enabled step keeps the account of registrations, the ownership of lists and results, and the bound on messages |
| LowPower.AtMostOneResult | src/pypopur/sdk/low_power.py:299-329 | where the account balances, no registration had more than one result and one without a result still waits |
| LowPower.JoinKeeps | src/pypopur/sdk/low_power.py:299-306 | a registration keeps the account balanced |
| LowPower.DeliverAllKeeps | src/pypopur/sdk/low_power.py:320-329 | delivering a result to a whole list keeps the account balanced |
| LowPower.CallAnsweredOrWaits | src/pypopur/sdk/low_power.py:246-295 | a call is answered at once or its callback waits, never both, and a callback that waits already is not counted again |
| LowPower.MessagesBounded | src/pypopur/sdk/low_power.py:343-351 | for every sequence of runs of one task, each not before it is due: with deadlines of at most T ms it publishes at most T/1000 times, rounded up |
| LowPower.MessagesOnTime | src/pypopur/sdk/low_power.py:343-351 | and exactly so many, ending after them, when the runs are on time under the deadline T |
| LowPower.LaunchedAliveIff | src/pypopur/sdk/low_power.py:335-354 | a launched task is on record, and alive if and only if the handler defers it or its deadline has not passed at the first run |
| LowPower.WaitsForRecord | src/pypopur/sdk/low_power.py:292-295 | with a task on record, alive or not, a call that is not answered at once waits and starts nothing |
| LowPower.SettledCall | src/pypopur/sdk/low_power.py:246-273 | the answer given at once for each kind of device, with its code or result |
| LowPower.AwakeCall | src/pypopur/sdk/low_power.py:274-291 | a device on record as awake gets a message, and the caller success |
| LowPower.WakingCall | src/pypopur/sdk/low_power.py:274-295 | any other callback waits, under the time-out asked for, and a task is started unless one is on record |
| LowPower.StartIs | src/pypopur/sdk/low_power.py:333-409 | what each answer of the cloud leads to before a task is launched, and that only a failure to ask launches none |
| LowPower.LaunchIs | src/pypopur/sdk/low_power.py:340-354 | the deadline and the task of a launch, and that a handler that does not wait runs it before it goes on record |
| LowPower.RunIs | src/pypopur/sdk/low_power.py:343-351 | one run of a task: a message and a second more, or the time-out |
| LowPower.DispatchIs | src/pypopur/sdk/low_power.py:310-329 | what a result does to the task, the deadline, the list and those in it |
| LowPower.ArrivalIs | src/pypopur/sdk/low_power.py:318-329 | a posted result reaches those who are in its list when it comes up |
| LowPower.RegistrationIs | src/pypopur/sdk/low_power.py:299-306 | which list a callback joins, at its end, and when it does not |
| LowPower.ReleaseIs | src/pypopur/sdk/low_power.py:411-424 | what a release forgets and what it leaves |
| CommPipeline.MakeHandler | src/pypopur/sdk/comm_pipeline.py:935-986 | the handlers a mode brings, linked in order |
| CommPipeline.Append | src/pypopur/sdk/comm_pipeline.py:925-929 | walking to the tail and linking there joins the two chains |
| CommPipeline.Build | src/pypopur/sdk/comm_pipeline.py:918-929 | the chain for any mode list is the concatenation of what the modes bring |
| CommPipeline.Handle | src/pypopur/sdk/comm_pipeline.py:453-464 | the message goes through the first handler that takes it, or no handler takes it |
| CommPipeline.CheckDirectGateway | src/pypopur/sdk/comm_pipeline.py:1001-1038 | the loop for the last Bluetooth module computes the promoted list |
| CommPipeline.PromotedKeeps | src/pypopur/sdk/comm_pipeline.py:1024-1038 | the promotion loses no module and adds at most Bluetooth, which is then in the list, and in front when the gateway prefers it |
| CommPipeline.PromotedKeepsOthers | src/pypopur/sdk/comm_pipeline.py:1024-1038 | the other modules stay as they are and in their order |
| CommPipeline.InSequenceIff | src/pypopur/sdk/comm_pipeline.py:912-916 | a mode other than Bluetooth is in the final list if and only if it was given, or is the Yu mode and the given list began with Bluetooth |
| CommPipeline.YuInChainIff | src/pypopur/sdk/comm_pipeline.py:912-929 | the chain has a Yu handler if and only if that mode was given or the given list began with Bluetooth: a promoted Bluetooth does not bring it |
| CommPipeline.Publish | src/pypopur/sdk/comm_pipeline.py:908-933 | what comes of a message for every list of modes and every gateway: completed, promoted, linked and handled |
| CommPipeline.NoChannelIff | src/pypopur/sdk/comm_pipeline.py:453-464 | "no channel" comes if and only if there are handlers, all are down and none but the last is a beacon |
| CommPipeline.NothingPastBeacon | src/pypopur/sdk/comm_pipeline.py:687-690 | whatever sends the message has no beacon and no available handler before it |
| CommPipeline.AlwaysSent | src/pypopur/sdk/comm_pipeline.py:498-520 | with an HTTP or cloud mode in the list a message is always sent |
| CommPipeline.SentIff | src/pypopur/sdk/comm_pipeline.py:453-464 | handler i sends if and only if it is up, needs no channel or is a beacon that is not last, and this holds of none before it |
| CommPipeline.InChainIff | src/pypopur/sdk/comm_pipeline.py:918-986 | the chain has a handler if and only if one of the modes is served by it |
| CommPipeline.ChainOrder | src/pypopur/sdk/comm_pipeline.py:918-986 | the handlers of a list come one after the other: LAN before its Matter, Bluetooth before Yu |
| CommPipeline.CompletedIff | src/pypopur/sdk/comm_pipeline.py:908-917 | when a list is illegal, when the Yu channel is added at its end, and that this comes before any promotion |
| CommPipeline.PromotionIff | src/pypopur/sdk/comm_pipeline.py:1001-1038 | when Bluetooth is in the list and where, flag by flag of the gateway |
| CommPipeline.LastMoves | src/pypopur/sdk/comm_pipeline.py:1013-1031 | the module that is moved to the front is the last Bluetooth module |
| PublishCascade.Publisher.HttpSend | src/pypopur/sdk/lan_control.py:1100-1140 | the step that goes on over HTTP: refused, asked, or at a dead end |
| PublishCascade.Publisher.ControlByServer | src/pypopur/sdk/lan_control.py:1011-1098 | the step that goes on over the broker or past it to HTTP |
| PublishCascade.Publisher.PublishDps | src/pypopur/sdk/lan_control.py:888-982 | the beginning of a publish, as the start of its run |
| PublishCascade.Publisher.OnReply | src/pypopur/sdk/lan_control.py:956-1083 | a reply of any channel asked takes the publish one step along its run, in whatever situation is met by then |
| PublishCascade.BeginsIff | src/pypopur/sdk/lan_control.py:888-1140 | exactly when LAN, the broker or HTTP is asked first and exactly when each refusal is told at once, flag by flag |
| PublishCascade.RepliesIff | src/pypopur/sdk/lan_control.py:956-1140 | the same for what a reply leads to, after every run |
| PublishCascade.RunBalanced | src/pypopur/sdk/lan_control.py:888-1140 | over every run, with any replies in any order: words to the caller, dead ends and replies still due add up to one plus one for every reply that came once too often |
| PublishCascade.ToldOnceIff | src/pypopur/sdk/lan_control.py:888-1140 | over every run in which no channel replies twice the caller is told at most one thing, and one if and only if no reply is due and the way did not end at a missing channel |
| PublishCascade.RunOrderly | src/pypopur/sdk/lan_control.py:888-1140 | over every such run the channels are asked in the order LAN, MQTT, HTTP, each at most once and only after the failure of the one before |
| PublishCascade.AnswerMeans | src/pypopur/sdk/lan_control.py:888-1140 | the caller hears of success if and only if a channel delivered, then exactly one did; it hears of failure only when all asked have failed, with the reason of HTTP if that was asked and a refusal otherwise |

## Left out

- DpPrinter.ParseUndoesPrint: for dictionaries of several entries only the direction from plain and readable to coming back is proved; the exact condition is proved for one entry (DpRoundTrip.SingleReadsBackIff). After a misread value the rest of the text is parsed out of step and can assign the same key again, so that the other direction is not settled.
- Dp102.Decode: the textual forms of a payload (hexadecimal and base64) are not modelled; a payload is its bytes or absent.
- Dp101.AppliedIsNormal: how text spells bytes is a parameter, and a not-a-number or infinite switch value, on which the program raises, is not modelled.
- CleaningProgress.DeviceRepository.SyncCleaningProgress: times are exact numbers, persisting cannot fail, and the persisted metadata are kept as a value instead of their JSON text.
- LinkKeeper.DevTransfer.AddDev: one reading of the clock per call stands for several, a delayed connect is a later step of its own, and listeners only record.
- LowPower.LowPowerDeviceManager.Awake: a call without a callback, which only publishes, is not modelled; the record of a device carries the identifier it is found under; callbacks do not call back.
- CommPipeline.Publish: schema validation, which comes first, is not modelled; what a handler does with a message is not followed; handlers of one kind are up or down together.
- PublishCascade.Publisher.PublishDps: payloads, sequence numbers, the query half a second after HTTP and the version test that picks one of two local commands are not followed, and a callback is always given.
- LanSocket.Link.ReadFrame: a key that is fetched by a call is fetched once per frame.
- DpString.ParseOrgJsonObject: the recursion limit and the digit limit of the runtime are not modelled; which tokens are floating-point numbers and how four characters that are not all hexadecimal digits escape are parameters, and a floating-point number is kept as its token.
- DpPrinter.SerializeDps: values of other types and exceptions while printing, which yield `{}`.
- ClientUpdates.NoLostUpdates: writes of a whole model without the lock (`set_system_settings` and its kin) are not operations of the model.
- `parse_dp_string` falls back to splitting at commas; only its strict parser is modelled.
- Checksums, ciphers and signatures are parameters of which only their laws are used; session keys are given.
- Sockets, timers, threads, the broker and HTTP requests are inputs or steps.
- Report reading outside data point 101: faults, activity, time tables and single notification switches only add members of the same kind.
- Device discovery, accounts, the home-automation integration and the reflective dispatcher.
