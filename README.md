# chatllm.cpp core, modelled in Dafny

This project models four parts of chatllm.cpp, an inference engine for chat language models:

- **The custom CPU kernels.** These are row-wise matrix scaling and the two NTK-aware rotary position embeddings: dynamic NTK and mixed NTK, each in fp32 and fp16.
  - They share a worker row split and an early-exit row counter.
  - `qwen_get_ntk_alpha` and the table builder `build_ntk_mixed_inv_freq` are modelled too.
- **The command-line front end.** This covers:
  - the argument loop `parse_args`, with `parse_extending_method`;
  - `trim` and the Windows-only UTF-8 encoder `append_utf8`;
  - the default thread count, the log line filter and the RPC endpoint split.
- **The per-session `Chat` object behind the C binding.** This covers:
  - the single-flight guard of the asynchronous calls;
  - restart with session restore;
  - history append, continuing the assistant's last message and session load;
  - the text printed for tokenized input.
- **The chat templates of Baichuan and BlueLM.** These are:
  - Baichuan 7B, and Baichuan-M1 with its default and "im" templates;
  - BlueLM;
  - Baichuan-M1's sliding-window layer rule and weight-tensor count;
  - BlueLM's per-layer RoPE settings.

Modules, one per file:

- `Wrappers`, `CInt` and `Floats` are shared support.
  - `Floats.FloatLib` bundles `cosf`, `sinf`, `powf`, `expf`, `log` and the fp32-to-fp16 rounding as uninterpreted functions.
  - Element values are `real`.
- `Partition`: a worker's row range.
- `Ntk`: NTK alpha and the mixed inverse-frequency table.
- `Kernels`: kernel bodies, worker loop and type dispatch, over a destination `array2<real>` of flat rows.
- `RopeProperties`: properties of the kernels, and the fp16 finding.
- `Decimal`: `std::stoi` and `ostream << int`.
- `Frontend`: trim, UTF-8, cores, logging and the RPC split.
- `Cli`: the argument loop.
- `ChatApi`: the session class.
- `Framing`: cutting an id sequence at marker ids.
- `Baichuan7b`, `BaichuanM1` and `BlueLM`: the model files.

The chat encoders append special ids around an opaque `encode(text)`. For each template (Baichuan 7B, Baichuan-M1's default and "im" encoders, BlueLM), a lemma shows that the prompt cuts back at the marker ids into exactly the pieces each turn appended. This holds as long as the tokenizer never yields a marker for plain text. For Baichuan 7B and BlueLM a further lemma places every id `is_special_id` accepts within the turns.

The model follows the code as written, including where it departs from the usual description of these algorithms:

- `qwen_get_ntk_alpha` returns 7, not 8, for a quotient of 4, because of its `- 1`.
- The fp16 dynamic kernel pairs adjacent elements. The fp32 kernel pairs elements half a head apart.

## Model

| member | source | states |
|---|---|---|
| Partition.ChunkSize | custom_ops.cpp:36-39 | rows per worker are the ceiling of nr/nth: dr·nth ≥ nr, dr·nth < nr+nth, and dr ≥ 1 when there are rows |
| Partition.OwnsIffOwner | custom_ops.cpp:39-43 | worker ith owns row r exactly when r < nr and the closed-form owner ⌊r/dr⌋ is ith |
| Partition.OwnerOwns | custom_ops.cpp:39-43 | every row belongs to one worker below nth, and to no other |
| Partition.RangesDisjoint | custom_ops.cpp:39-43 | the ranges [dr·ith, min(dr·ith+dr, nr)) of two distinct workers share no row |
| Partition.RangesCover | custom_ops.cpp:39-43 | a row lies in some worker's range exactly when it is below nr |
| Partition.IdleWorker | custom_ops.cpp:42-43 | a worker whose range starts at or past nr owns nothing |
| Ntk.NtkAlpha | custom_ops.cpp:22-27 | alpha from the C integer quotient true_seq_len/seq_length is always ≥ 1 |
| Ntk.NtkAlphaBracket | custom_ops.cpp:22-27 | for q > 0, alpha+1 is the power of two 2^(⌈log2 q⌉+1), between 2q and 4q |
| Ntk.NtkAlphaSmall | custom_ops.cpp:22-27 | q ≤ 1 gives 1, q = 2 gives 3, q ∈ {3, 4} gives 7 |
| Ntk.NtkAlphaMonotone | custom_ops.cpp:22-27 | a longer true sequence length never gives a smaller alpha |
| Ntk.CeilLog2Bounds | custom_ops.cpp:24-25 | ⌈log2 q⌉ is the least e with q ≤ 2^e |
| Ntk.CeilLog2Unique | custom_ops.cpp:24-25 | any exponent whose power of two brackets q is ⌈log2 q⌉ |
| Ntk.BuildNtkMixedInvFreq | custom_ops.cpp:372-383 | the cleared table gets exactly (dim+1)/2 entries, entry m being the frequency of the even index 2m < dim |
| Kernels.ScaleRow | custom_ops.cpp:57-63 | one row becomes src·scale element by element, and every other row is unchanged |
| Kernels.DynamicRopeRowF32 | custom_ops.cpp:117-149 | below n_dims, element i and element i+n_dims/2 become the rotation of that pair by p·inv_freq_scale^i; from n_dims on, elements are copied; other rows are unchanged |
| Kernels.DynamicRopeRow | custom_ops.cpp:122-149 | the half-offset loop with the rotated values stored in the destination type (fp32 unchanged, fp16 rounded) |
| Kernels.DynamicPass | custom_ops.cpp:123-148 | one pass writes exactly the pair of step ic/2 (or copies ic, ic+1 from n_dims on), so the row is the loop's progress at ic+2 |
| Kernels.DynamicStep | custom_ops.cpp:123-148 | the progress at ic+2 is the progress at ic with the two written elements updated |
| Kernels.WrittenStep | custom_ops.cpp:130-147 | a pass adds exactly elements ic/2 and ic/2+n_dims/2 (or ic, ic+1) to those written, and the two differ |
| Kernels.DynamicDone | custom_ops.cpp:122 | when the loop ends, every element of the row holds its final value |
| Kernels.DynamicPairF32 | custom_ops.cpp:130-139 | element i and element i+n_dims/2 are the two components of the rotation of (row[i], row[i+n_dims/2]) |
| Kernels.DynamicRopeRowF16 | custom_ops.cpp:195-221 | the fp16 row as written: step i rotates (row[i], row[i+1]) into i and i+1, a later step overwrites i+1, and n_dims/2+1 … n_dims−1 keep the destination's old values |
| Kernels.DynamicF16Pass | custom_ops.cpp:196-220 | one fp16 pass writes exactly elements a and a+1 |
| Kernels.DynamicF16Step | custom_ops.cpp:203-212 | the fp16 progress at ic+2 is the progress at ic with elements ic/2 and ic/2+1 updated |
| Kernels.DynamicF16Done | custom_ops.cpp:195 | when the fp16 loop ends, every element is what the code as written leaves there |
| Kernels.MixRopeRow | custom_ops.cpp:279-294 | every adjacent pair (i0, i0+1) with i0 even is rotated by p·inv_freq[i0/2]; there is no pass-through; other rows are unchanged |
| Kernels.MixElemPair | custom_ops.cpp:286-293 | the pair at even i0 is the rotation of (row[i0], row[i0+1]) |
| Kernels.MixStep | custom_ops.cpp:279-294 | one pass of the mixed loop writes the pair at i0 and nothing else |
| Kernels.WritePair | custom_ops.cpp:138-139 | two stores into a row change exactly those two elements of that row |
| Kernels.FlatCoords | custom_ops.cpp:50-53 | the flat row (i3·ne2+i2)·ne1+i1 is below nrows and decomposes back to i1 and i2 |
| Kernels.FlatNext | custom_ops.cpp:50-53 | consecutive (i3, i2) blocks are adjacent in flat order, and the last one ends at nrows |
| Kernels.VisitedRows | custom_ops.cpp:46-56 | the row counter walk with `continue`/`break` visits exactly the rows of the worker's range, in order, even though `break` leaves only the innermost loop |
| Kernels.VisitRowBlock | custom_ops.cpp:53-55 | one innermost loop extends the visited interval up to the end of the block or to ir1 |
| Kernels.Interval | custom_ops.cpp:42-43 | the rows lo … hi−1 in increasing order |
| Kernels.Worker | custom_ops.cpp:46-66 | a worker writes the kernel output into exactly the rows it owns and leaves every other row unchanged |
| Kernels.WorkerRows | custom_ops.cpp:53-64 | the innermost loop of a worker keeps that invariant over one (i3, i2) block |
| Kernels.ApplyRow | custom_ops.cpp:57-63 | the body for one row gives each element the kernel's output for the row's i1 and i2 |
| Kernels.RunAllWorkers | custom_ops.cpp:36-66 | workers 0 … nth−1 together give every row of the destination the kernel's output |
| Kernels.ComputeMatScale | custom_ops.cpp:69-80 | a type other than F32 aborts and writes nothing; F32 scales element [i3][i2][i1][i0] by scales[i1] for the worker's rows |
| Kernels.ComputeDynamicRope | custom_ops.cpp:95-96 | aborts exactly for a type other than F16/F32, n_dims > ne0 or an odd n_dims, writing nothing; otherwise the worker's rows get the fp32 or fp16 output |
| Kernels.ComputeMixRope | custom_ops.cpp:356-370 | aborts exactly for a type other than F16/F32, n_dims > ne0 or an odd n_dims; otherwise the worker's rows get the mixed output |
| RopeProperties.RotationNorm | custom_ops.cpp:138-139 | with cos² + sin² = 1, a rotated pair keeps its squared length |
| RopeProperties.DynamicF32Pairs | custom_ops.cpp:130-139 | fp32 dynamic NTK pairs element j with j+n_dims/2 and keeps that pair's squared length |
| RopeProperties.MixPairs | custom_ops.cpp:289-293 | mixed NTK pairs 2m with 2m+1 and keeps that pair's squared length |
| RopeProperties.DynamicTailCopied | custom_ops.cpp:140-148 | elements from n_dims on are copied unchanged by both dynamic variants |
| RopeProperties.DynamicF32AtPositionZero | custom_ops.cpp:126-139 | at position 0 the fp32 dynamic row equals its source |
| RopeProperties.MixAtPositionZero | custom_ops.cpp:281-293 | at position 0 the mixed row equals its source |
| RopeProperties.MatScaleOnes | custom_ops.cpp:57-62 | all-ones scales copy the source |
| RopeProperties.OutputIgnoresOld | custom_ops.cpp:59-63 | every kernel except fp16 dynamic writes each element, so its output does not depend on the old destination |
| RopeProperties.DynamicF16Unwritten | custom_ops.cpp:203-212 | fp16 dynamic as written leaves elements n_dims/2+1 … n_dims−1 holding the destination's old values |
| RopeProperties.DynamicF16Counterexample | custom_ops.cpp:203-212 | n_dims = 4, row [1,2,3,4], zero destination, zero angle: fp16 gives [1,2,3,0] where fp32 gives [1,2,3,4] |
| RopeProperties.DynamicRopeRowF16Corrected | custom_ops.cpp:195-221 | the fp16 row with the fp32 half-offset pairing: below n_dims the rounded fp32 result; from n_dims on a copy |
| Decimal.StoI | src/main.cpp:336-367 | std::stoi: skips white space, reads a sign and a digit run, and throws (None) on no digit or a value outside int |
| Decimal.SkipSpace | src/main.cpp:336-367 | the input without its leading white space, all of which is white space |
| Decimal.DigitRun | src/main.cpp:336-367 | the length of the leading digit run |
| Decimal.NatDigits | src/main.cpp:1551 | the decimal digits of n read back as n |
| Decimal.StoIOfIntToString | src/main.cpp:1551-1553 | a printed int reads back as itself whatever non-digit text follows |
| Decimal.StoIRoundTrip | src/main.cpp:1551-1553 | stoi of a printed int is that int |
| Frontend.Trimmed | src/main.cpp:473-484 | a prefix of the input that does not end in '\r' or '\n', with only those characters removed |
| Frontend.TrimmedUnique | src/main.cpp:473-484 | those three properties single out the trimmed string |
| Frontend.TrimmedIdempotent | src/main.cpp:473-484 | trimming twice is trimming once |
| Frontend.TrimmedIgnoresLineEnds | src/main.cpp:473-484 | appending line ends does not change the trimmed text |
| Frontend.Trim | src/main.cpp:473-484 | the in-place loop leaves the trimmed string |
| Frontend.Utf8Encode | src/main.cpp:391-419 | 1, 2, 3 or 4 bytes for code points up to 0x7F, 0x7FF, 0xFFFF or 0x10FFFF, and none above |
| Frontend.ContByte | src/main.cpp:400-413 | a `10xxxxxx` continuation byte |
| Frontend.EncodeShape | src/main.cpp:391-419 | lead bytes follow the patterns of section 3 of RFC 3629 (`0xxxxxxx`, `110xxxxx`, `1110xxxx`, `11110xxx`) and every later byte is a continuation |
| Frontend.DecodeEncode | src/main.cpp:391-419 | every Unicode scalar value decodes back from its bytes with the decoder of section 3 of RFC 3629 |
| Frontend.EncodeDecode | src/main.cpp:391-419 | whatever decodes to a character is exactly that character's encoding |
| Frontend.SurrogateNotDecodable | src/main.cpp:402-407 | a surrogate still gets three bytes, which the RFC 3629 decoder rejects |
| Frontend.EncodeIs2 | src/main.cpp:397-401 | the two-byte form is the lead 110xxxxx with bits 6-10 and a continuation with bits 0-5 |
| Frontend.EncodeIs3 | src/main.cpp:402-407 | the three-byte form is written out byte by byte |
| Frontend.EncodeIs4 | src/main.cpp:408-414 | the four-byte form is written out byte by byte |
| Frontend.Encode2 | src/main.cpp:397-401 | the two-byte lead has pattern 110xxxxx and the payload is the code point |
| Frontend.Encode3 | src/main.cpp:402-407 | the three-byte lead has pattern 1110xxxx and the payload is the code point |
| Frontend.Encode4 | src/main.cpp:408-414 | the four-byte lead has pattern 11110xxx and the payload is the code point |
| Frontend.AppendUtf8 | src/main.cpp:391-419 | the bytes pushed onto `out` are the encoding of the code point |
| Frontend.NumPhysicalCores | src/main.cpp:467-471 | 4 when the hardware count is 0, n for 1 ≤ n ≤ 4, n/2 above; always an int |
| Frontend.NumPhysicalCoresBounds | src/main.cpp:467-471 | at least 1; 4 when the hardware count is unknown, the count itself up to 4, half of it above 4, so always between half the count and the count |
| Frontend.Tag | src/main.cpp:675-681 | the tag is '?' exactly outside levels 0 … 5 |
| Frontend.FindLastNotOf | src/main.cpp:683 | the last index not holding the character, or npos when every character is it |
| Frontend.StripTrailingNewlinesSpec | src/main.cpp:683 | the text loses exactly its trailing line feeds, so an all-newline text becomes empty |
| Frontend.LogLine | src/main.cpp:669-686 | a line exists exactly with a streamer and level ≥ log_level; it is the tag followed by the text without trailing line feeds |
| Frontend.Find | src/main.cpp:905 | the first index of '@', or none |
| Frontend.SplitRpcEndpoint | src/main.cpp:903-910 | without '@', the endpoint with device 0 |
| Frontend.SplitRpcEndpointAt | src/main.cpp:905-910 | with '@', the address before the first '@' and the stoi of the rest, failing exactly when stoi throws |
| Frontend.SplitRpcEndpointRoundTrip | src/main.cpp:905-910 | `host@device`, for a host without '@', splits back into host and device |
| Cli.DefaultArgs | src/main.cpp:23-80 | the record's initial values: every field present, extending Restart, chat format, the banner shown |
| Cli.ParseExtendingMethod | src/main.cpp:87-96 | "shift" gives Shift, "restart" gives Restart, any other text gives None |
| Cli.Assign | src/main.cpp:330-369 | an option value is stored in its field (the text, the loaded file, the stoi, stof or distance value, or the parsed extending method), or throws exactly when its conversion throws; only --extending changes extending |
| Cli.Lookup | src/main.cpp:261-371 | a recognised token is one of the option chain's spellings |
| Cli.LookupFirst | src/main.cpp:261-371 | a token is unknown exactly when no spelling matches it, and otherwise it is the option of the first spelling that matches |
| Cli.AppendVectorStore | src/main.cpp:317-329 | the path is appended to the list of the current store name, creating that list if absent; other stores are unchanged |
| Cli.KvRun | src/main.cpp:309-316 | --kv takes pairs while two tokens follow, moving the cursor an even number of places and stopping within two of the end |
| Cli.KvLoop | src/main.cpp:309-316 | the in-place --kv loop computes KvRun |
| Cli.KvKeeps | src/main.cpp:311-315 | a key no pair names keeps its entry |
| Cli.KvLastWins | src/main.cpp:311-315 | a key's value is the one from its last pair |
| Cli.Step | src/main.cpp:261-373 | one pass moves the cursor forward, at most to argc+1 |
| Cli.SaveSessionStep | src/main.cpp:299-308 | --save_session consumes a round count and a file name, or neither |
| Cli.StoreSession | src/main.cpp:304-305 | stores the round count and the path, and nothing else |
| Cli.SaveSessionStored | src/main.cpp:299-308 | after the round count reads, the cursor is three past the option |
| Cli.ParamStep | src/main.cpp:225-239 | a one-value option moves the cursor past its value |
| Cli.StepEnds | src/main.cpp:259-380 | a pass goes to argc+1 exactly when a value-taking option stands in last place, stops exactly on an unknown token, and throws only on the value after an option |
| Cli.StepKeepsExtending | src/main.cpp:338 | only --extending sets the has_extending flag or changes extending, and no option removes a field |
| Cli.RunNext | src/main.cpp:259-374 | the loop goes on from the state one pass leaves |
| Cli.RunBound | src/main.cpp:255-374 | the loop stops between its start and argc+1, at argc+1 exactly when it reaches a value-taking option in last place, and never by a throw there |
| Cli.RunStopOnStop | src/main.cpp:370-371 | an unknown token ends the loop at its index with the state unchanged |
| Cli.RunStopOnFail | src/main.cpp:376-380 | a conversion that throws ends the loop at the rejected value |
| Cli.RunStop | src/main.cpp:259-380 | the loop stops at the rejected value after a throw, and otherwise at argc or beyond or at the first token that is no option |
| Cli.RunKeepsExtending | src/main.cpp:259-374 | without --extending the extending field keeps its value, and a Complete record stays Complete |
| Cli.ParseArgsEnds | src/main.cpp:219-388 | the returned index is between 1 and argc+1, argc+1 exactly when the loop reaches a value-taking option in last place (and then without a throw); after a throw it is the rejected value, and otherwise ≥ argc or the first unknown token |
| Cli.ParseArgsExtending | src/main.cpp:384-385 | without --extending, a session to load turns extending to None and otherwise it keeps its default |
| Cli.ParseOption | src/main.cpp:261-373 | the in-place body of one pass does what Step says |
| Cli.ParseSaveSession | src/main.cpp:299-308 | the in-place --save_session branch does what SaveSessionStep says |
| Cli.ParseParam | src/main.cpp:225-247 | the in-place one-value branch does what ParamStep says |
| Cli.ParseArgs | src/main.cpp:219-388 | the seed is drawn first, then the loop with cursor c, the catch and the load_session rule give exactly ParseArgsSpec |
| ChatApi.RoleOfCode | src/main.cpp:1621 | a code has a role exactly when User ≤ code < LAST, and the role's code is that code |
| ChatApi.RoleCodeRoundTrip | src/main.cpp:1621-1623 | every role's code maps back to it |
| ChatApi.RestartedHistory | src/main.cpp:1601-1613 | with a restored session and no new prompt, the first sess_hist_len messages (cut only when longer); otherwise empty; always a prefix |
| ChatApi.RestartRestoresSession | src/main.cpp:1601-1606 | restarting after a restore drops exactly what was added since |
| ChatApi.RestartIdempotent | src/main.cpp:1601-1613 | restarting twice is restarting once |
| ChatApi.AiContinueCode | src/main.cpp:1455-1461 | -1 outside prompt mode or for a non-chat model, -2 on empty history, -3 when the last message is not the assistant's, else 0 |
| ChatApi.Printed | src/main.cpp:1551-1553 | each id as `ostream << int` prints it |
| ChatApi.FormatTokenIds | src/main.cpp:1547-1553 | the stream loop writes the ids comma separated, a line break before every 16th id but the first, no comma after the last |
| ChatApi.SplitCommas | src/main.cpp:1551 | at least one comma-separated field |
| ChatApi.FindLast | src/main.cpp:1551 | the index of the last comma, after which no comma follows |
| ChatApi.SplitJoin | src/main.cpp:1551 | splitting undoes joining for comma-free fields |
| ChatApi.PrefixJoin | src/main.cpp:1548-1553 | the loop's text followed by the last id is its fields joined with commas |
| ChatApi.IntToStringPlain | src/main.cpp:1551 | a printed int has no comma |
| ChatApi.ReadFieldsOf | src/main.cpp:1548-1552 | the fields of the first n ids, line breaks included, read back as those ids |
| ChatApi.PrintedPlain | src/main.cpp:1551-1553 | printed ids hold no comma and stoi reads each back |
| ChatApi.SplitPrinted | src/main.cpp:1547-1553 | the printed text splits at its commas into one field per id |
| ChatApi.ReadPrinted | src/main.cpp:1547-1553 | those fields read back as the ids |
| ChatApi.TokenIdsRoundTrip | src/main.cpp:1547-1553 | the printed token ids, split at commas and read with stoi, give back the same ids |
| ChatApi.StoIField | src/main.cpp:1550 | stoi skips the line break written before an id |
| ChatApi.Chat.constructor | src/main.cpp:1132-1138 | no session restored (-1, -1), not busy, result 0, empty history |
| ChatApi.Chat.AsyncResultInt | src/main.cpp:1359-1363 | INT_MIN while a call runs, the last result otherwise |
| ChatApi.Chat.AsyncStart | src/main.cpp:1365-1369 | -1 exactly while busy; otherwise 0, and the session becomes busy |
| ChatApi.Chat.AsyncComplete | src/main.cpp:1370-1373 | the worker stores the result and clears busy, so the result becomes readable |
| ChatApi.Chat.Restart | src/main.cpp:1595-1614 | nothing outside prompt mode; otherwise the history is RestartedHistory, with a rewind to sess_n_past or a pipeline restart plus the new system prompt |
| ChatApi.Chat.HistoryAppend | src/main.cpp:1616-1624 | appends the message exactly in prompt mode with a valid role code, and otherwise changes nothing |
| ChatApi.Chat.AiContinue | src/main.cpp:1450-1468 | returns AiContinueCode; on 0 only the last message changes, getting the generated text appended; otherwise nothing changes |
| ChatApi.Chat.LoadSession | src/main.cpp:1660-1670 | -1 outside prompt mode; otherwise the pipeline's result, with sess_hist_len the restored length on success only |
| ChatApi.Chat.TextTokenize | src/main.cpp:1536-1558 | -1 without a loaded model; otherwise the id count and the formatted id line |
| Framing.LastMark | models/baichuan.cpp:59-88 | the last marker index, after which the ids are marker-free |
| Framing.LastMarkOfSegment | models/baichuan.cpp:59-88 | after any ids, an appended segment's marker is the last marker |
| Framing.SegmentsSnoc | models/baichuan.cpp:59-88 | an appended segment is cut off as the last piece |
| Framing.SegmentsOfConcat | models/baichuan.cpp:59-88 | cutting a marker-free start followed by segments gives back the start and the segments |
| Framing.ConcatCons | models/baichuan.cpp:59-88 | concatenating a first piece and the rest is the piece followed by the rest's concatenation |
| Framing.ConcatAppend | models/baichuan.cpp:59-88 | concatenating two runs of pieces is concatenating each and joining the results |
| Framing.Offsets | models/baichuan.cpp:59-88 | every piece's offset lies after the start and leaves room for the piece |
| Framing.SegmentAt | models/baichuan.cpp:59-88 | the pieces lie one after the other from the end of the start to the end of the ids, each at its offset |
| Framing.SpecialAtOffsets | models/baichuan.cpp:59-93 | when only each piece's first id is special, the special ids stand exactly at the pieces' offsets |
| Baichuan7b.NewTokenizer | models/baichuan.cpp:25-31 | the system prompt starts empty, so the system part of a prompt is empty |
| Baichuan7b.AppendSysPrompt | models/baichuan.cpp:59-65 | appends the encoded system prompt, or nothing when it is empty |
| Baichuan7b.AppendAiOpening | models/baichuan.cpp:83-88 | appends the assistant id |
| Baichuan7b.AppendAi | models/baichuan.cpp:67-73 | appends the assistant id and the encoded reply |
| Baichuan7b.AppendUser | models/baichuan.cpp:75-81 | appends the user id and the encoded text |
| Baichuan7b.TurnsIds | models/baichuan.cpp:67-81 | one piece per turn, in order |
| Baichuan7b.TurnIsSegment | models/baichuan.cpp:67-88 | a turn is a marker (the user id exactly for a user turn) followed by the text's encoding |
| Baichuan7b.PromptSplitsIntoTurns | models/baichuan.cpp:59-88 | a prompt cuts back at the markers into the system part and one piece per turn |
| Baichuan7b.SpecialIdsAtTurnStarts | models/baichuan.cpp:90-93 | in a prompt of plain texts, `is_special_id` holds exactly at the positions where a turn begins |
| BaichuanM1.Tokenizer.constructor | models/baichuan.cpp:143-148 | im_end starts at -1 and the system prompt is "You are a helpful assistant." |
| BaichuanM1.Tokenizer.Load | models/baichuan.cpp:150-166 | loading fixes b_sys … b_code at 71 … 76 and keeps the other ids |
| BaichuanM1.Tokenizer.LoadConfig | models/baichuan.cpp:175-192 | each listed added token sets its id; im_end joins the terminating ids exactly when it is ≥ 0 |
| BaichuanM1.AddedId | models/baichuan.cpp:177-186 | a listed name takes the config's id, and an unlisted one keeps the current id |
| BaichuanM1.WithAdded | models/baichuan.cpp:177-186 | each of the eight names (b_sys, b_usys, c_q, c_a, b_func, b_code, im_start, im_end) takes the config's id when the config lists it |
| BaichuanM1.NoImEndNoTerminator | models/baichuan.cpp:188-189 | without "<\|im_end\|>" in the config, im_end stays negative and nothing new terminates |
| BaichuanM1.Tokenizer.Encode | models/baichuan.cpp:168-173 | appends the prefix id only when it is ≥ 0, then the encoding |
| BaichuanM1.Prefixed | models/baichuan.cpp:168-173 | a non-negative prefix comes first, followed by the encoding; a negative prefix is left out |
| BaichuanM1.AppendSysPrompt | models/baichuan.cpp:205-211 | a non-empty system prompt is appended after b_sys, an empty one not at all |
| BaichuanM1.AppendAiOpening | models/baichuan.cpp:228-233 | appends c_a |
| BaichuanM1.AppendAi | models/baichuan.cpp:213-219 | appends c_a and the encoded reply |
| BaichuanM1.AppendUser | models/baichuan.cpp:221-226 | appends c_q and the encoded text |
| BaichuanM1.DefaultSysIsSegment | models/baichuan.cpp:205-211 | a non-empty system prompt opens with b_sys and contains no other marker |
| BaichuanM1.TurnsIds | models/baichuan.cpp:213-233 | one piece per turn, in order |
| BaichuanM1.DefaultTurnIsSegment | models/baichuan.cpp:213-233 | a user turn opens with c_q and a reply with c_a, followed by the text's encoding |
| BaichuanM1.DefaultPromptSplitsIntoTurns | models/baichuan.cpp:205-233 | a default-template prompt cuts back into the system piece and one piece per turn |
| BaichuanM1.ImAppendSysPrompt | models/baichuan.cpp:238-250 | a non-empty system prompt becomes one im turn with role "system" |
| BaichuanM1.ImAppendAiOpening | models/baichuan.cpp:268-273 | appends im_start and the encoded "assistant\n" |
| BaichuanM1.ImAppendUserOpening | models/baichuan.cpp:275-280 | appends im_start and the encoded "user\n" |
| BaichuanM1.ImAppendAi | models/baichuan.cpp:251-258 | appends the opening, the encoded reply, im_end and the encoded "\n" |
| BaichuanM1.ImAppendUser | models/baichuan.cpp:259-266 | appends the opening, the encoded text, im_end and the encoded "\n" |
| BaichuanM1.ImTurnSegments | models/baichuan.cpp:251-280 | an im turn cuts back into two pieces: im_start with role and content, then im_end with the line break |
| BaichuanM1.ImTurnsIds | models/baichuan.cpp:251-266 | one whole im turn per turn, with role "user" or "assistant" |
| BaichuanM1.ImTurnsPieces | models/baichuan.cpp:251-266 | two pieces per turn: the opening with the content, then the closing |
| BaichuanM1.ImPiecesConcat | models/baichuan.cpp:251-266 | an im turn's two pieces put together are the turn |
| BaichuanM1.ImTurnsPiecesConcat | models/baichuan.cpp:251-266 | the pieces of all turns put together are the ids the turns appended |
| BaichuanM1.ImTurnsPiecesAreSegments | models/baichuan.cpp:251-280 | with marker-free encodings, every piece opens with im_start or im_end and holds no other marker |
| BaichuanM1.ImPromptSplitsIntoTurns | models/baichuan.cpp:238-280 | an im prompt cuts back at im_start and im_end into the system turn's two pieces and two pieces per turn |
| BaichuanM1.ImEmptySysPrompt | models/baichuan.cpp:242-249 | the system turn is absent exactly when the system prompt is empty |
| BaichuanM1.ChatAppendSysPrompt | models/baichuan.cpp:205-250 | the system prompt as the default or the im encoder writes it, whichever the tokenizer is set to |
| BaichuanM1.ChatAppendUser | models/baichuan.cpp:221-266 | a user turn as the encoder the tokenizer is set to writes it |
| BaichuanM1.ChatAppendAi | models/baichuan.cpp:213-258 | a reply as the encoder the tokenizer is set to writes it |
| BaichuanM1.ChatAppendAiOpening | models/baichuan.cpp:228-273 | the opening of the reply as the encoder the tokenizer is set to writes it |
| BaichuanM1.SetAdditionalArgs | models/baichuan.cpp:407-412 | only chat_template=im switches to the im template, and anything else keeps the current one |
| BaichuanM1.NumTensors | models/baichuan.cpp:357-360 | 3 plus 16 or 17 per layer, so between 3+16n and 3+17n |
| BaichuanM1.NumTensorsPattern2 | models/baichuan.cpp:358-360 | with pattern 2 the count is 3 + 16n + n/2 |
| BaichuanM1.Construct | models/baichuan.cpp:353-405 | the constructor's loops and checks end as ConstructOutcome says |
| BaichuanM1.ConstructDividesByZero | models/baichuan.cpp:358-365 | with sliding_window_pattern 0, the count divides by zero before the check that would reject it |
| BaichuanM1.ConstructChecked | models/baichuan.cpp:365-366 | never divides by zero, builds exactly the supported configurations, and agrees with the code for a non-zero pattern |
| BaichuanM1.ConstructCheckedBuilt | models/baichuan.cpp:358-399 | a built model has 3 + 16n + n/2 tensors and rope_theta on every layer |
| BlueLM.Load | models/bluelm.cpp:66-76 | the four chat pieces are looked up by name after the vocabulary loads |
| BlueLM.AppendAiOpening | models/bluelm.cpp:95-99 | appends the AI id |
| BlueLM.AppendAi | models/bluelm.cpp:78-84 | appends the AI id and the encoded reply |
| BlueLM.AppendUser | models/bluelm.cpp:86-93 | appends bos, the human id and the encoded text |
| BlueLM.TurnsIds | models/bluelm.cpp:78-99 | one piece per turn, in order |
| BlueLM.TurnContents | models/bluelm.cpp:78-99 | a user turn is [bos, human] followed by the encoding, and a reply is [ai] followed by the encoding |
| BlueLM.TurnIsSegment | models/bluelm.cpp:78-99 | each turn opens with a marker (bos or ai) and has no other |
| BlueLM.ConversationSplitsIntoTurns | models/bluelm.cpp:78-99 | a conversation cuts back at bos and ai into exactly the pieces each turn appended |
| BlueLM.TurnEndsOffBos | models/bluelm.cpp:78-93 | with plain text and bos not special, no turn ends on bos |
| BlueLM.SpecialIdsInConversation | models/bluelm.cpp:101-104 | in a conversation of plain texts, `is_special_id` holds exactly at the ai id opening a reply and at the human id right after the bos opening a user turn; bos itself is never special |
| BlueLM.LayerRope | models/bluelm.cpp:55-61 | freq_base is rope_theta; the scaling is set only when rope_scaling_power > 0 and otherwise kept |
| BlueLM.LayerRopeIdempotent | models/bluelm.cpp:52-62 | setting a layer twice changes nothing more |
| BlueLM.SetLayerRope | models/bluelm.cpp:52-62 | every layer becomes LayerRope of its old settings |

## Left out

- Floating-point arithmetic is not modelled.
  - `cosf`, `sinf`, `powf`, `log`, `expf` and fp16 rounding are uninterpreted members of `FloatLib`, and values are reals.
  - Only which elements are read, written and copied is proved, not accuracy.
  - `qwen_get_ntk_alpha` is modelled as an integer function of the quotient (see the Ntk.NtkAlpha line below).
- Ntk.NtkAlpha: it is the exact integer max(1, 2^(⌈log2 q⌉+1) − 1), which is what `log2f`/`ceil`/`powf` compute in fp32 only for quotients q below 2^21. Above that the float result can differ. At q = 2^21+1 the fp32 `log2f` rounds to 21.0, giving 2^22 − 1 where the model gives 2^23 − 1. At q = 2^24, `powf(2, 25) - 1` rounds to 33554432 where the model gives 33554431.
- Kernels.ComputeDynamicRope: the dispatcher runs the fp16 kernel as written (see Findings). The evidently intended fp16 row is a separate member and is not dispatched.
- Kernels.Fits: an even ne0 is required. For an odd ne0 the rotary loops would read and write one element past the row, which has no meaning in the model.
- Kernels.Fits: `|inv_freq| ≥ ne0/2`, `|pos| ≥ ne2` and a non-zero seq_length are required. The source indexes or divides without checking them.
- Kernels.Worker: workers run one after another. Parallel execution and memory ordering are not modelled; ranges are proved disjoint instead.
- Tensor strides are not modelled: tensors are contiguous flat rows.
- Kernels.Worker: the source tensor is a value (`seq`) apart from the destination `array2`, so a call whose dst aliases src (an in-place operation) is not modelled.
- build_ntk_mixed_inv_freq's `max_position_embeddings` is unused by the source and has no effect in the model.
- The pipeline, the streamer, the tokenizer's byte-pair `encode`/`Load`/`PieceToId`, `load_txt`, `std::stof` and the distance-strategy parser are parameters of the model.
  - The text each Chat call would generate is a parameter; the requests to the pipeline are recorded in `calls`.
- Cli.ParseArgs: the random seed is a parameter. `strcmp`'s stop at an embedded NUL is not modelled: tokens are compared as whole strings.
- Frontend.AppendUtf8 is compiled on Windows only. `get_utf8_line`, `wstr_to_utf8` and the console I/O are not part of this model.
- ChatApi.Chat: the detached thread and the non-atomic busy flag are modelled as two sequential halves, AsyncStart and AsyncComplete.
- ChatApi.Chat: `chatllm_user_input`, `chatllm_continue_chat` and `chatllm_save_session` are not part of this model. They only call the pipeline and push its output.
- ChatApi.ROLE_LAST is taken as 5: the role enumeration ends after Tool (codes 2, 3, 4). The header that defines it is not part of this model.
- ChatApi.Chat.TextTokenize requires a non-empty id list when a model is loaded. The source reads `result.back()` and `result.size() - 1` without checking.
- The `round_idx` parameter of the history encoders is unused by these encoders and is left out.
- BaichuanM1.Tokenizer.Load: the overrides of the `<think>` token decodings are left out (decoding is not part of this model).
- BaichuanM1.WithAdded: `load_added_tokens` is not part of this model. It is modelled as a lookup of each name in a map from names to ids.
- BaichuanM1.GetOpt: `utils::get_opt` is not part of this model. It is modelled as a map lookup with a default.
- BaichuanM1.Construct: ggml context allocation, the layer objects and the used-memory check are left out. Only the tensor count, the checks and the per-layer RoPE base are modelled.
- The Baichuan "larger" variant has no logic of its own beyond its base class and is left out.
- BlueLM: `is_special_id` covers pad, human and ai but not bos. The framing lemmas therefore use bos and ai as markers and need the human id to be none of them.

## Findings

| source | as written | input that shows it | evidently intended | confidence | as-written member | corrected member |
|---|---|---|---|---|---|---|
| custom_ops.cpp:203-212 | the fp16 dynamic NTK kernel rotates `src[i0]` with `src[i0+1]` and stores to `dst[i0]`, `dst[i0+1]` at i0 = ic/2 | n_dims = 4, a row [1, 2, 3, 4], a zero destination and angle 0: fp16 leaves [1, 2, 3, 0] where fp32 gives [1, 2, 3, 4]; elements n_dims/2+1 … n_dims−1 are never written | the half-offset pairing of the fp32 kernel (custom_ops.cpp:130-139), `src[0]` with `src[n_dims/2]` | high (not executed) | Kernels.DynamicRopeRowF16, RopeProperties.DynamicF16Counterexample | RopeProperties.DynamicRopeRowF16Corrected |
| models/baichuan.cpp:358-365 | the weight count calls `is_swa_layer`, which computes `i % sliding_window_pattern`, before the check that rejects a pattern other than 2 | sliding_window_pattern = 0 with one layer: a remainder by zero instead of the "unsupported SWA param" error | check the configuration before counting the tensors | medium (not executed) | BaichuanM1.Construct, BaichuanM1.ConstructDividesByZero | BaichuanM1.ConstructChecked, BaichuanM1.ConstructCheckedBuilt |
