# Sharp2534Wrapper simulation core in Dafny

This project models the pure logic inside Sharp2534Wrapper, a C# wrapper around the SAE J2534 PassThru API. The logic sits under its simulation-generation pipeline and its message serialiser:

- **PassThru structures** (`PassThruStructs`): the `PassThruMsg` constructor, the hex and ASCII renderings of a payload with their `"No Data!"` sentinel, and the `SConfig`, `SConfigList` and `SByteArray` constructors.
- **Message JSON converter** (`PtMsgConverter`): the per-property text encodings `WriteJson` produces and `ReadJson` parses. These are Timestamp as `<n>ms`, DataSize as `<n> Byte(s)`, ExtraDataIndex in decimal, and Data as `0x`-prefixed hex. The round trip is proved, including the one place where it fails: an all-zero payload comes back empty.
- **PTDisconnect expression** (`PassThruExpressions`): how the constructor picks the captured strings it applies. The model includes its error paths.
- **Simulation configuration** (`PassThruSimulationConfiguration`): the constructor's defaults, the first-match lookup by protocol, and the `??=` memoisation of the supported configurations.
- **Simulation generator** (`PassThruSimulationGenerator`):
  - loading a generator and refusing an empty expression set;
  - grouping expressions by channel id and dropping id 0;
  - building at most one channel per group;
  - choosing the output and copy paths for the saved file, and which failures escape.
- **Session** (`Sharp2534Session`): the session status, the constructor's choice of device name and its errors, logical-channel selection, and the detailed description.

Supporting modules:

- `Base`: `byte`, `uint32`, `Option` and `Result`.
- `Text`: the .NET string operations the source relies on, written out:
  - `uint.Parse`, including whitespace and sign handling, so `"-1"` overflows;
  - `Convert.ToByte(s, 16)`, which skips one `+` and then a `0x` or `0X` prefix;
  - `Split` and `Join`, `Replace(p, "")`, `Contains`, `IndexOf`;
  - ASCII `ToUpper`;
  - the first `\d+` match.
- `Sequences`: `FirstOrDefault`, a last-match search, and the number of elements stored across a map of sequences.
- `Paths`: the parts of `System.IO.Path` the save uses, with the .NET Framework's Windows rules: `GetFileName`, `GetFileNameWithoutExtension`, `IsPathRooted`, `Combine` and `GetDirectoryName`.
- `J2534Objects`: instance status, API version and the filter record.

Every collaborator the core calls but does not define becomes a function parameter:

- the regular-expression engine and the reflection-based property setter;
- `BuildChannelsFromExpressions`;
- the DLL lookup, device enumeration and device builder;
- the file system and the JSON serialiser;
- enumeration names (`Enum.ToString` and `Enum.Parse`).

Exceptions become `Failure` values of a `Result`. `null` becomes `None`.

Where the code and its documented behaviour differ, the model follows the code:

- **Duplicate channel id.** A duplicate id in `GenerateLogSimulation` is thrown inside the `try`. It is caught and logged, so it is never fatal. The branch is also unreachable, because dictionary keys are distinct.
- **Failed copy in `SaveSimulationFile`.** A failed secondary copy makes the method return `""`, even though the primary file was already written. A `null` directory name for the copy does the same.
- **Failures before the `try`.** The path checks, `Directory.CreateDirectory` and `SimulationChannels.Length` run before the `try`, so their failures escape as exceptions.
- **Empty JSON object.** `ReadJson` returns `default(object?)`, which is `null`, not a default message.
- **Enumeration fields.** The converter treats RxStatus and TxFlags as enumerations, while `PassThruStructs.cs` declares them `uint`. Both are numeric values here, rendered and parsed through a caller-supplied `EnumCodec` whose names must parse back (`Faithful`).
- **Runtime.** Path rules follow the .NET Framework on Windows:
  - `Combine` adds `\` unless the first part already ends in `\`, `/` or the volume separator `:`;
  - `GetFileName` cuts at the last `\`, `/` or `:`;
  - `IsPathRooted` holds for a leading separator or a `:` in second place;
  - a base file name or output folder with a character below U+0020 or one of `" < > |` makes `SaveSimulationFile` throw before its `try`, at lines 280-284.

## Model

| member | source | states |
|---|---|---|
| PassThruStructs.NewPassThruMsg | SharpWrapper/PassThruTypes/PassThruStructs.cs:35-46 | a new message has ByteCount payload bytes, all zero, and every scalar field zero |
| PassThruStructs.DataToAsciiString | SharpWrapper/PassThruTypes/PassThruStructs.cs:52-58 | an all-zero payload (the empty one included) renders as the `No Data!` sentinel; any other payload is handed to the text decoder |
| PassThruStructs.DataToHexString | SharpWrapper/PassThruTypes/PassThruStructs.cs:64-78 | the sentinel appears exactly when every byte is zero; otherwise splitting the text on spaces gives one token per byte, each the byte's two upper-case hex digits (after `0x` when asked), and the length is 3n-1 or 5n-1 |
| PassThruStructs.SentinelsAgree | SharpWrapper/PassThruTypes/PassThruStructs.cs:55-67 | whenever the hex rendering shows the sentinel, so does the ASCII rendering |
| PassThruStructs.NewMessageHasNoData | SharpWrapper/PassThruTypes/PassThruStructs.cs:35-67 | a freshly constructed message of any size renders as the sentinel |
| PassThruStructs.NewSConfigList | SharpWrapper/PassThruTypes/PassThruStructs.cs:91-95 | the list is empty yet declares ParamCount parameters |
| PassThruStructs.NewSConfig | SharpWrapper/PassThruTypes/PassThruStructs.cs:109-113 | the parameter id is kept and the value starts as that id's numeric value |
| PassThruStructs.NewSByteArray | SharpWrapper/PassThruTypes/PassThruStructs.cs:127-131 | the declared length equals the buffer's real length, and the buffer is zero-filled |
| Text.SplitJoin | SharpWrapper/PassThruTypes/PassThruStructs.cs:70-77 | joining tokens that contain no separator and splitting again gives the tokens back |
| Text.ParseUInt | SharpSimulator/PassThruSimulationGenerator.cs:370 | after removing leading white space, trailing NUL characters and the white space before them, the text parses exactly when it is an optional sign followed by a non-empty digit string whose value fits in 32 bits, with a minus sign allowed only on zero; the value is that of the digits; a missing or non-digit body is a format error and anything else an overflow; the empty string is a format error |
| Text.ParseMinusOne | SharpExpressions/PassThruExpressions/PassThruDisconnectExpression.cs:20 | `"-1"` does not parse as an unsigned integer (overflow) |
| Text.ParsePlusSeven | SharpSimulator/PassThruSimulationGenerator.cs:370 | `"+7"` parses as 7: a plus sign is accepted |
| Text.ParseIgnoresPadding | SharpSimulator/PassThruSimulationGenerator.cs:370 | white space before and after a text does not change what it parses to |
| Text.TrimPadding | SharpSimulator/PassThruSimulationGenerator.cs:370 | trimming removes exactly the white space around a text that starts and ends with non-white characters |
| Text.ParseMinusZero | SharpSimulator/PassThruSimulationGenerator.cs:370 | `"-0"` parses as 0 |
| Text.ParseLetters | SharpSimulator/PassThruSimulationGenerator.cs:370 | `"abc"` is a format error |
| Text.ParseIgnoresTrailingNuls | SharpSimulator/PassThruSimulationGenerator.cs:370 | NUL characters after the text do not change what it parses to |
| Text.ParseAllDigits | SharpWrapper/PassThruSupport/PtMessageJsonConverter.cs:98-100 | a non-empty run of decimal digits parses exactly when its value fits in 32 bits, to that value |
| Text.ParseDecimal | SharpWrapper/PassThruSupport/PtMessageJsonConverter.cs:100 | the decimal rendering of a uint parses back to it |
| Text.ParseHexByte | SharpWrapper/PassThruSupport/PtMessageJsonConverter.cs:106 | an empty text or a leading `-` is an argument error; otherwise one `+` is skipped, then a `0x` or `0X` when a character follows its `0`, and the text reads exactly when what remains is a non-empty run of hex digits of either case with value below 256, to that value; the leading hex digits overflow as soon as they are worth more than 32 bits, before anything after them is looked at; past that, no digits or a character left over is a format error and a whole digit run worth 256 or more an overflow; no white space is skipped |
| Text.WideRunOverflows | SharpWrapper/PassThruSupport/PtMessageJsonConverter.cs:106 | `"FFFFFFFFFZ"` is an overflow, not a format error: its nine leading digits exceed 32 bits before the `Z` is reached |
| Text.HexPrefixesSkipped | SharpWrapper/PassThruSupport/PtMessageJsonConverter.cs:106 | a leading `+`, `0x`, `0X` or `+0X` in front of hex digits does not change the byte read |
| Text.FirstDigitRun | SharpWrapper/PassThruSupport/PtMessageJsonConverter.cs:98 | the match is all digits, non-empty exactly when the text holds a digit, and is the longest digit run starting at an index with no digit before it: the first run, taken whole |
| Text.FirstRunNotLater | SharpWrapper/PassThruSupport/PtMessageJsonConverter.cs:98 | `"ab12cd7"` matches `"12"`, the first run, not the later `"7"` |
| Text.FirstDigitRunOfPrefix | SharpWrapper/PassThruSupport/PtMessageJsonConverter.cs:98 | the match in digits followed by a non-digit is those digits |
| Text.RemoveAll | SharpWrapper/PassThruSupport/PtMessageJsonConverter.cs:106 | removing never lengthens the text, leaves a text without the pattern unchanged, and drops a leading occurrence before treating the rest |
| Text.JoinSplit | SharpWrapper/PassThruSupport/PtMessageJsonConverter.cs:99-105 | splitting on a character and joining the parts with it gives the text back, and no part holds the character |
| Text.ParseHexPair | SharpWrapper/PassThruSupport/PtMessageJsonConverter.cs:106 | base-16 parsing of a byte's two hex digits gives the byte back |
| PtMsgConverter.WriteJson | SharpWrapper/PassThruSupport/PtMessageJsonConverter.cs:42-71 | nothing is written for null; otherwise exactly the seven properties, each a string: Timestamp as `<n>ms`, DataSize as `<n> Byte(s)`, ExtraDataIndex in decimal, Data as the `0x` hex rendering, and the three enumerations by their codec names |
| PtMsgConverter.ReadData | SharpWrapper/PassThruSupport/PtMessageJsonConverter.cs:103-107 | the sentinel reads as an empty payload, never a zero-filled one; other text succeeds exactly when every space-separated token, each `0x` removed, reads as `Convert.ToByte(s, 16)` reads it (one `+` and then a `0x`/`0X` prefix skipped), and then yields one byte per token, each the reading of its token |
| PtMsgConverter.ParseHexTokens | SharpWrapper/PassThruSupport/PtMessageJsonConverter.cs:105-107 | succeeds exactly when every token reads as a byte once each `0x` is removed, by the `Convert.ToByte(s, 16)` rules of `Text.ParseHexByte`, and then gives each token's byte in order |
| PtMsgConverter.ReadEnum | SharpWrapper/PassThruSupport/PtMessageJsonConverter.cs:87-95 | an integer token reads exactly when it fits in a uint, as itself; a string token reads exactly when the enumeration parses its name, to that value; a missing property is an error |
| PtMsgConverter.ReadUInt | SharpWrapper/PassThruSupport/PtMessageJsonConverter.cs:98-100 | the property reads exactly when it is present and its selected text parses as a uint, to that value |
| PtMsgConverter.TokenBytePrefix | SharpWrapper/PassThruSupport/PtMessageJsonConverter.cs:106 | a token without `0x` reads as `Convert.ToByte` reads it, and one with a single leading `0x` reads as the text after it |
| PtMsgConverter.TimestampStringShape | SharpWrapper/PassThruSupport/PtMessageJsonConverter.cs:49 | the Timestamp text is a run of digits denoting the timestamp, followed by `ms` |
| PtMsgConverter.DataSizeStringShape | SharpWrapper/PassThruSupport/PtMessageJsonConverter.cs:55 | the DataSize text is a run of digits denoting the size, a space, and `Byte` for one or `Bytes` otherwise |
| PtMsgConverter.ReadMessage | SharpWrapper/PassThruSupport/PtMessageJsonConverter.cs:86-119 | succeeds exactly when the three enumerations and the three numbers read and Data is present and reads; Timestamp is the first digit run, DataSize the text before the first space and ExtraDataIndex the whole text, each parsed as an unsigned integer; a sentinel Data gives an empty payload |
| PtMsgConverter.ReadJson | SharpWrapper/PassThruSupport/PtMessageJsonConverter.cs:80-84 | an object with no properties reads as null; any other object reads exactly as its properties do, wrapped as a message, with the same error on failure |
| PtMsgConverter.TimestampRoundTrip | SharpWrapper/PassThruSupport/PtMessageJsonConverter.cs:98 | the first digit run of `<n>ms` parses back to n |
| PtMsgConverter.DataSizeRoundTrip | SharpWrapper/PassThruSupport/PtMessageJsonConverter.cs:99 | the text before the first space of `<n> Byte(s)` parses back to n |
| PtMsgConverter.ExtraDataIndexRoundTrip | SharpWrapper/PassThruSupport/PtMessageJsonConverter.cs:100 | the decimal rendering parses back to the index |
| PtMsgConverter.HexTokensRoundTrip | SharpWrapper/PassThruSupport/PtMessageJsonConverter.cs:105-107 | stripping `0x` from each written token and parsing it in base 16 restores the bytes |
| PtMsgConverter.DataRoundTrip | SharpWrapper/PassThruSupport/PtMessageJsonConverter.cs:53-107 | a payload with a nonzero byte survives rendering and reading exactly |
| PtMsgConverter.ReadWriteRoundTrip | SharpWrapper/PassThruSupport/PtMessageJsonConverter.cs:42-120 | reading what was written gives the message back; an all-zero payload comes back empty with the written DataSize kept |
| PtMsgConverter.ZeroPayloadCollapses | SharpWrapper/PassThruSupport/PtMessageJsonConverter.cs:53-104 | a non-empty all-zero payload does not round-trip: it is read back empty |
| PassThruExpressions.AppendedCaptures | SharpExpressions/PassThruExpressions/PassThruDisconnectExpression.cs:38-40 | as written: succeeds exactly when every index passing `index <= Length` names an existing string, and then yields `strings[i]` for each kept index, in order |
| PassThruExpressions.CaptureValues | SharpExpressions/PassThruExpressions/PassThruDisconnectExpression.cs:37-40 | as written: the whole match first, then the kept captures; an empty result array or a kept out-of-range index is an index error |
| PassThruExpressions.IndexAtLengthThrows | SharpExpressions/PassThruExpressions/PassThruDisconnectExpression.cs:39-40 | a configured index equal to the number of strings passes the filter and makes construction fail |
| PassThruExpressions.CaptureValuesCorrected | SharpExpressions/PassThruExpressions/PassThruDisconnectExpression.cs:37-40 | corrected: the whole match, then `strings[i]` for each index that exists, in order; fails only when there is no whole match |
| PassThruExpressions.AppendedAgree | SharpExpressions/PassThruExpressions/PassThruDisconnectExpression.cs:38-40 | when no out-of-range index passes the filter, the written and corrected selections append the same strings |
| PassThruExpressions.CorrectedAgrees | SharpExpressions/PassThruExpressions/PassThruDisconnectExpression.cs:37-40 | wherever the written selection succeeds, the corrected one gives the same values |
| PassThruExpressions.CorrectedSkipsIndexAtLength | SharpExpressions/PassThruExpressions/PassThruDisconnectExpression.cs:39-40 | the input that breaks the written selection is accepted by the corrected one |
| PassThruExpressions.NewDisconnectExpression | SharpExpressions/PassThruExpressions/PassThruDisconnectExpression.cs:29-45 | as written: a regex mismatch does not stop construction; an index error arises exactly when there is no whole match or a kept index is out of range; otherwise the result is a PTDisconnect expression of the input text whose fields come from the setter, and a refusing setter is an InvalidOperationException |
| PassThruExpressions.NewDisconnectExpressionCorrected | SharpExpressions/PassThruExpressions/PassThruDisconnectExpression.cs:29-45 | corrected: an index error arises exactly when there is no whole match; otherwise construction succeeds exactly when the setter accepts the captured values |
| PassThruExpressions.ConstructorsAgree | SharpExpressions/PassThruExpressions/PassThruDisconnectExpression.cs:29-45 | when a whole match exists and every kept index is in range, the written and corrected constructors give the same result |
| PassThruExpressions.ConstructorThrowsAtLength | SharpExpressions/PassThruExpressions/PassThruDisconnectExpression.cs:39-40 | a configured index equal to the number of strings makes the written constructor fail with an index error, while the corrected one builds the expression |
| PassThruSimulationConfiguration.NewSimulationConfiguration | Extensions/SharpSimulator/PassThruSimulationConfiguration.cs:58-76 | protocol and baud rate are kept; message count 1, reader timeout 100, response timeout 500, no flags, ten empty filter slots, and an empty config list declaring 0 parameters |
| PassThruSimulationConfiguration.FindSimulationConfig | Extensions/SharpSimulator/PassThruSimulationConfiguration.cs:82-93 | the result is a supported configuration for the protocol, and null exactly when none is |
| PassThruSimulationConfiguration.FindReturnsFirst | Extensions/SharpSimulator/PassThruSimulationConfiguration.cs:85 | the lookup returns the earliest configuration for the protocol |
| PassThruSimulationConfiguration.Read | Extensions/SharpSimulator/PassThruSimulationConfiguration.cs:46-47 | a stored value is returned unchanged; otherwise the loader's value is returned and stored |
| PassThruSimulationConfiguration.ReadIsStable | Extensions/SharpSimulator/PassThruSimulationConfiguration.cs:46-47 | after the first read, later reads return the same value whatever loader they are given |
| PassThruSimulationConfiguration.LoadSimulationConfig | Extensions/SharpSimulator/PassThruSimulationConfiguration.cs:82-93 | the lookup runs over the memoised configurations, which are loaded at most once |
| PassThruSimulationConfiguration.LookupIsStable | Extensions/SharpSimulator/PassThruSimulationConfiguration.cs:46-93 | two lookups in a row for the same protocol agree, whatever the second loader is |
| PassThruSimulationGenerator.NewGenerator | SharpSimulator/PassThruSimulationGenerator.cs:105-114 | the log name and expressions are kept; no simulation file or channels exist yet |
| PassThruSimulationGenerator.LoadGenerator | SharpSimulator/PassThruSimulationGenerator.cs:120-164 | loading fails exactly when no expressions are generated (a DataException) or, past that, the log file name holds an invalid path character (the ArgumentException from naming the logger); otherwise the built expressions are used unless that array is empty, and a null built array stays null |
| PassThruSimulationGenerator.LoadMatchesConstructor | SharpSimulator/PassThruSimulationGenerator.cs:105-164 | loading with a built array and a valid log file name gives the generator the public constructor makes from the same expressions, plus the expressions file name |
| PassThruSimulationGenerator.ChannelIdOf | SharpSimulator/PassThruSimulationGenerator.cs:362-370 | an expression without a channel-id field has id 0; a failure comes from a channel-id field whose value does not parse |
| PassThruSimulationGenerator.FirstFieldDecides | SharpSimulator/PassThruSimulationGenerator.cs:363-367 | the id is the parsed value of the first field whose name, spaces removed and upper-cased, contains CHANNELID |
| PassThruSimulationGenerator.ChannelIds | SharpSimulator/PassThruSimulationGenerator.cs:357-370 | succeeds exactly when every expression's id parses, giving one id per expression |
| PassThruSimulationGenerator.Insert | SharpSimulator/PassThruSimulationGenerator.cs:376-388 | the expression is appended to its id's group (opened if new), other groups are untouched, and one more element is stored |
| PassThruSimulationGenerator.Bucket | SharpSimulator/PassThruSimulationGenerator.cs:357-390 | an id is a key exactly when some expression has it, its group holds exactly those expressions, and all expressions are stored |
| PassThruSimulationGenerator.GroupedIds | SharpSimulator/PassThruSimulationGenerator.cs:344-399 | fails exactly when some id does not parse; otherwise id 0 is absent, the keys are exactly the nonzero ids present, each group holds the expressions with its id (as a multiset), and group sizes plus the dropped id-0 count equal the number of loaded expressions |
| PassThruSimulationGenerator.WithIdNonEmpty | SharpSimulator/PassThruSimulationGenerator.cs:376-388 | an id has a non-empty group exactly when some expression carries it |
| PassThruSimulationGenerator.WithIdMembers | SharpSimulator/PassThruSimulationGenerator.cs:376-388 | every expression in a group is a loaded expression with that group's id |
| PassThruSimulationGenerator.DisconnectFieldsClassified | SharpExpressions/PassThruExpressions/PassThruDisconnectExpression.cs:19-21 | of the PTDisconnect members, `ChannelId` is taken for the channel id by the name test at PassThruSimulationGenerator.cs:363-367 and `PtCommand` is not |
| PassThruSimulationGenerator.DefaultDisconnectFailsGrouping | SharpExpressions/PassThruExpressions/PassThruDisconnectExpression.cs:19-21 | a PTDisconnect expression whose channel id is still its declared default `"-1"` makes grouping fail |
| PassThruSimulationGenerator.MinusOneFailsGrouping | SharpSimulator/PassThruSimulationGenerator.cs:370 | a first channel-id field holding the PTDisconnect default `"-1"` makes grouping fail |
| PassThruSimulationGenerator.BuildChannels | SharpSimulator/PassThruSimulationGenerator.cs:195-257 | in any processing order, the stored channels are exactly the non-null, non-throwing builds keyed by group id; ids are distinct group keys and there are at most as many channels as groups |
| PassThruSimulationGenerator.DistinctCount | SharpSimulator/PassThruSimulationGenerator.cs:262 | a duplicate-free listing of the stored ids has as many entries as there are stored channels |
| PassThruSimulationGenerator.ValuesInOrder | SharpSimulator/PassThruSimulationGenerator.cs:262 | the channel array lists every stored channel and nothing else, once per id |
| PassThruSimulationGenerator.GenerateLogSimulation | SharpSimulator/PassThruSimulationGenerator.cs:173-270 | fails with a null-expressions error exactly when no expressions are loaded, and with a channel-id error exactly when some loaded id does not parse; otherwise there is an arrangement of the groups, each group's expressions in some order, such that it stores on the generator, and returns, exactly the channels built from that arrangement, one per built group and at most one per group |
| PassThruSimulationGenerator.ArrangeGroups | SharpSimulator/PassThruSimulationGenerator.cs:357-388 | the parallel grouping loop leaves the same groups, each holding the same expressions as the log-ordered grouping in some order |
| PassThruSimulationGenerator.Interleave | SharpSimulator/PassThruSimulationGenerator.cs:373-386 | appending a group's expressions as the threads take the lock gives a permutation of the group |
| PassThruSimulationGenerator.NoChannelZero | SharpSimulator/PassThruSimulationGenerator.cs:393 | whatever order the groups were filled in, no channel is built for id 0 |
| PassThruSimulationGenerator.WriteAndCopy | SharpSimulator/PassThruSimulationGenerator.cs:296-335 | the path is returned, and recorded as the simulation file, exactly when the write succeeds and, when a copy is wanted, the copy location exists and the copy succeeds; on any caught failure `""` is returned and the generator is unchanged |
| PassThruSimulationGenerator.SaveSimulationFile | SharpSimulator/PassThruSimulationGenerator.cs:277-336 | an exception escapes exactly when the base file name or the output folder has an invalid path character (an ArgumentException), creating the output folder fails, the output directory is null or cannot be created, or no channels were generated; otherwise the result is what writing and copying the channels to the `.ptSim` path under the output folder gives: that path, recorded as the simulation file, exactly when the write and any wanted copy succeed, and `""` with the generator unchanged otherwise |
| PassThruSimulationGenerator.OutputFolder | SharpSimulator/PassThruSimulationGenerator.cs:280 | the given folder is used as is; without one, the folder is named `FulcrumSimulations` under the working directory |
| PassThruSimulationGenerator.FinalOutputPath | SharpSimulator/PassThruSimulationGenerator.cs:281 | the output path ends in `.ptSim` and, when the base file name has a non-empty stem, is named after that stem |
| PassThruSimulationGenerator.CopyWanted | SharpSimulator/PassThruSimulationGenerator.cs:312 | no copy is wanted for a base file name without `\`, whatever its `/` separators, or one that contains `FulcrumLogs` |
| PassThruSimulationGenerator.CopyLocation | SharpSimulator/PassThruSimulationGenerator.cs:315-316 | a copy location exists exactly when the base file has a directory part, and it carries the stem of the output file |
| PassThruSimulationGenerator.CopyKeepsStem | SharpSimulator/PassThruSimulationGenerator.cs:312-317 | the copy is named after the same stem as the base file |
| Paths.FileName | SharpSimulator/PassThruSimulationGenerator.cs:281 | the file name is the suffix of the path after its last `\`, `/` or `:` (the whole path when there is none), contains none of them, and never reaches into the root |
| Paths.FileNameWithoutExtension | SharpSimulator/PassThruSimulationGenerator.cs:281 | the stem is the file name up to its last `.` (the whole name when there is none) and contains no `\`, `/` or `:` |
| Paths.RootLength | SharpSimulator/PassThruSimulationGenerator.cs:281 | a rooted path (a leading separator, or `:` in second place) has a root of 1 to 3 characters ending in a separator or `:`; an unrooted one has none |
| Paths.FileNameAfterPrefix | SharpSimulator/PassThruSimulationGenerator.cs:281 | a name without `\`, `/` or `:` placed after a prefix ending in one of them is read back as the file name |
| Paths.Combine | SharpSimulator/PassThruSimulationGenerator.cs:280-281 | an empty part yields the other and a rooted second part wins; otherwise the parts are concatenated, with `\` inserted exactly when the first part does not already end in `\`, `/` or `:` |
| Paths.DirectoryName | SharpSimulator/PassThruSimulationGenerator.cs:315 | null exactly when the path is no longer than its root; otherwise the prefix before the last run of separators, at least as long as the root, ending in a non-separator when longer than the root |
| Paths.StemSurvives | SharpSimulator/PassThruSimulationGenerator.cs:281 | a file named `<stem>.ptSim` in any folder reads back the same stem |
| Paths.SimulationPathKeepsStem | SharpSimulator/PassThruSimulationGenerator.cs:281 | the output file is named after the stem of the base file name |
| Sharp2534Session.SessionStatus | SharpWrap2534/Sharp2534Session.cs:73-76 | INITIALIZED exactly when both the DLL and the device are INITIALIZED, and NULL exactly when either is NULL |
| Sharp2534Session.ChooseDeviceName | SharpWrap2534/Sharp2534Session.cs:146-148 | the chosen name is the first listed device that is selectable: with no filter, not marked IN USE (none only when all are); with a filter, containing the filter (none only when no name does) |
| Sharp2534Session.ChoosesFirstFree | SharpWrap2534/Sharp2534Session.cs:146-147 | with no filter, the earliest name not marked IN USE is chosen |
| Sharp2534Session.ChoosesFirstMatch | SharpWrap2534/Sharp2534Session.cs:148 | with a filter, the earliest matching name is chosen |
| Sharp2534Session.NewSession | SharpWrap2534/Sharp2534Session.cs:133-163 | each error corresponds exactly to its cause: no DLL, no devices, no name matching a non-empty filter, or a failed build wrapping the builder's cause, and never an index error; once a device name is chosen, the result is the session of the found DLL and the device built from that name exactly when the build succeeds |
| Sharp2534Session.SessionOpensFirstMatch | SharpWrap2534/Sharp2534Session.cs:133-163 | with a filter, the session opens the device built from the first listed name containing it, or wraps that build's failure |
| Sharp2534Session.SelectLogicalChannel | SharpWrap2534/Sharp2534Session.cs:62-68 | null unless the device implements V0500; then the logical channel at the indices, with an out-of-range index as an error |
| Sharp2534Session.SelectionIgnoresDll | SharpWrap2534/Sharp2534Session.cs:62-68 | channel selection depends only on the device, not on the DLL |
| Sharp2534Session.ToDetailedString | SharpWrap2534/Sharp2534Session.cs:111-115 | the DLL description, a blank line, then the device description |
| Sharp2534Session.DetailedStringSplits | SharpWrap2534/Sharp2534Session.cs:114 | when the DLL description has no blank line and no trailing newline, the first blank line marks where it ends |

## Left out

- **Parallelism and locks.** Each `Parallel.ForEach` is modelled as one schedule chosen without constraint: grouping fills each group in an arbitrary order (`ArrangeGroups`), and assembly takes the groups in an arbitrary order. The order of the returned channel array is not stated.
- **Progress events and logging.** `SimulationProgressEventArgs` percentages, scope properties and log messages are left out; they do not affect results. Where setting up a logger can throw, the line for the member concerned says so.
- **Code outside the core.** The regular-expression engine, `SetExpressionProperties`, `BuildChannelsFromExpressions`, the expressions generator, DLL discovery and the device builder are parameters.
- **Real file I/O and JSON text.** Directory creation, writing and copying are success flags, and serialisation is a function parameter. The converter works on a property map, not on JSON text.
- **Enumeration names.** `Enum.Parse` and `Enum.ToString` are supplied per enumeration as an `EnumCodec`.
- **Resource loading.** `_allocateResource`, `_loadSupportedProtocols` and `_loadSupportedConfigurations` read embedded resources, so the supported lists are the loader's result.
- **Session forwarding.** The `PTOpen`, `PTConnect` and similar calls only forward to the device. `SelectChannel` is a plain index. The derived properties, `ToString` (version descriptions) and the finaliser are also left out.
- **Interop.** Unmanaged interop declarations are not part of this model.
- PtMsgConverter.ReadMessage: a property's token is a string or an integer. JSON `null`, floating-point and boolean tokens are not represented. With such a token the source throws: `"Data": null` makes `Value<string>()` return null and `.Split` throw a NullReferenceException (SharpWrapper/PassThruSupport/PtMessageJsonConverter.cs:104-105), and `"ProtocolId": null` makes `Enum.Parse` throw an ArgumentNullException (line 89); a `null` in the other enumerations or the three numbers also throws. A floating-point or boolean token is read through its text (`"1.5"`, `"True"`), which the model does not follow.
- **Null handling.**
  - A `null` Data array in a message is not represented.
  - A `null` field value read as a channel id is not represented.
  - A static logger that is still `null` in `LoadSimulationConfig` is not represented.
- PassThruStructs.DataToAsciiString: the `Encoding.Default` decoding is a parameter, so only the sentinel behaviour is stated.
- Text.ToUpperAscii: upper-cases ASCII letters with invariant rules, where .NET's `ToUpper` uses the current culture. Under a Turkish culture `i` becomes `İ`, so `"in use"` becomes `"İN USE"` and the device filter no longer sees the IN USE marker; `ChannelId` and `ChannelID` hold no lower-case `i`, so the channel-id test is unaffected for them, but a member named with a lower-case `i` (such as `channelid`) would no longer match `CHANNELID`. Non-ASCII letters are not mapped either.
- Text.FirstDigitRun: takes ASCII digits only, where .NET's `\d` also matches other Unicode decimal digits.
- Paths.DirectoryName: does not normalise the path first as the .NET Framework does: `/` is not turned into `\`, repeated separators are not collapsed, trailing spaces and dots are not trimmed, and a path of spaces alone, which the Framework rejects, is treated as a plain name. UNC and device roots are not modelled.
- Paths.Combine: does not check for invalid path characters itself. `SaveSimulationFile` checks the base file name and the output folder before combining, so the exception is modelled there.
- Paths.FileName: does not check for invalid path characters itself, for the same reason as `Paths.Combine`.
- Paths.RootLength: only volume roots and a single leading separator are recognised, not UNC or `\\?\` device paths.
- PassThruSimulationGenerator.GroupedIds: is the grouping in log order, and states each group's contents as a multiset; `ArrangeGroups` gives the order one schedule of the parallel loop leaves.
- PassThruSimulationGenerator.GenerateLogSimulation: does not model `_spawnGeneratorTarget` (SharpSimulator/PassThruSimulationGenerator.cs:189 and 404-415). After grouping succeeds it creates the SimulationLogs folder, deletes an old generator log file and calls `GetFileNameWithoutExtension` on the log file name, outside any `try`; a failure of any of these escapes `GenerateLogSimulation`, and the model does not represent it. The file system calls are outside the model, and the invalid-character case cannot arise for a generator built by `LoadGenerator`, which already rejects such a name.
- PassThruSimulationGenerator.GenerateLogSimulation: states the returned channels as a set with the right count, not their order, which follows completion order. It takes the channel-id reader as a parameter, so its contract holds for any reader. The generator's own reader is `ChannelIdOf`.
- PassThruSimulationGenerator.SaveSimulationFile: `Directory.Exists` and `CreateDirectory` are independent flags, so creating the output folder does not make it exist for the second check.
- PassThruSimulationGenerator.ChannelIds: when several ids fail to parse, the first one's error is reported. The parallel loop may raise any of them.

## Findings

| source | as written | input that shows it | evidently intended | confidence | as-written member | corrected member |
|---|---|---|---|---|---|---|
| SharpExpressions/PassThruExpressions/PassThruDisconnectExpression.cs:39-40 | capture indices are kept when `index <= strings.Length`, then `strings[index]` is read | a configured value group equal to `strings.Length` (for example index 2 with two group strings), or any negative index | keep only indices with `0 <= index < strings.Length` | not executed | PassThruExpressions.IndexAtLengthThrows | PassThruExpressions.CorrectedAgrees |

`PassThruExpressions.NewDisconnectExpression` and `PassThruExpressions.CaptureValues` keep the selection as written. `PassThruExpressions.NewDisconnectExpressionCorrected` builds on the corrected selection, and `PassThruExpressions.ConstructorsAgree` shows the two constructors agree wherever the written one does not throw.
