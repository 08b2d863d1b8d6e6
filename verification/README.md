# MVPlanner model

A Dafny model of the stateful and algorithmic core of MVPlanner, a MAVLink ground
station written in TypeScript, with proofs of what that code is for. Each module
follows one source file or component:

- `Rpc`, `RpcDirection`, `RpcCallerSteps`, `RpcHandlerSteps`, `RpcProtocol`,
  `RpcDisposal`, `RpcHandlers`, `RpcProgress`: the worker RPC protocol. A peer is a class and, as a value, a step
  function; two peers joined by FIFO channels are explored over every run.
- `DataFlash`, `DataFlashLemmas`, `DataFlashLog`, `DataFlashRecords`, `DataFlashFields`:
  the resynchronising, self-describing log decoder, its independence of chunking,
  decoding after encoding, and the records and values that come out.
- `Expression`, `ExpressionGrammar`, `ExpressionTokens`, `ExpressionMeaning`, `LogIndex`,
  `LogNames`, `LogQuery`, `LogMeaning`, `Downsample`: the log query engine, from
  expression text to downsampled points.
- `Geometry`, `Grid`, `GridPlan`: scan-line clipping and survey line planning, over the reals.
- `Tlog`, `Recorder`, `RecorderRuns`, `RecorderErrors`: the flight log recorder and its
  asynchronous chunk writes, over every interleaving, failed writes included.
- `Recents`, `RecentsLists`: the recently used list with its byte-budgeted cache.
- `Fence`, `Mission`, `MissionItems`, `Coords`, `Wpl`, `WplTexts`: fence and mission codecs,
  mission edits, decimal degrees and mission text.
- `Base64`, `Terrain`: the base64 codec and path sampling.
- `Text`, `Numbers`: the string and number operations of JavaScript they use.

Code that updates state in place is a class or a method with loops, proved equal to a
function of its inputs or old state; the properties are then lemmas about the
functions. Asynchronous code is split into the steps between its awaits, and every
order of the steps is allowed.

## What was found

Where a property does not hold of the code for all inputs, the exact condition is
proved, and the code is modelled as it is:

- A DataFlash buffer bound from 89 to 253 is accepted, but then chunking can change
  what is decoded (`DataFlashLog.BoundIsSharp`).
- A call made on a disposed peer stays pending until, and only until, its own signal
  fires (`RpcDisposal.DisposedCallWaits`), and disposing a peer leaves the other side
  waiting for whatever it had not answered (`RpcDisposal.WaitingForDisposed`).
- A range from plus infinity, or to minus infinity, selects the whole series
  (`Downsample.BoundsAreWindow`, `LogQuery.QueryIsWindow`).
- When the across extent is a whole number of spacings, the planned line on the far
  edge yields no segment, and the strip beside it is not covered unless the sidelap
  is at least half (`Grid.SwathsCover`).
- A `start` while `stop` waits for its chunk writes wipes their error. The loss is
  silent exactly when every failed write has had a start after it
  (`RecorderErrors.SilentLoss`; `RecorderRuns.StartWipesError` is such a run). A failed
  write of an old recording after the start of the next is reported by the wrong one
  (`RecorderErrors.FalseAlarm`, `RecorderErrors.OldFailureFailsNew`).
- A recents store with no room for entries can return an entry that claims to be
  cached (`Recents.NewEntrySurvives`).
- A fence item stream in which a polygon opens with a NaN vertex count is never decoded
  to its end (`Fence.DecodingEnds`, `Fence.OneVertexSticks`).
- Downsampling a non-empty slice to NaN points gives no points
  (`Downsample.PointsPartition`).
- Two series can share a key only through a NUL in a message or field, which no decoded
  record holds (`LogIndex.KeysCollide`, `LogNames.DecodedKeys`).
- The base64 decoder also accepts texts that encoding never gives
  (`Base64.CanonicalTexts` says which).
- Inserting into an empty mission leaves the pointer past the only item
  (`Mission.EditInRange`).

## Assumptions

- RPC channels are FIFO, handlers return promises, and posting a response succeeds.
- Recording ids, recents ids and AbortController identities are fresh. A blob write
  that fails leaves the store as it was, and nobody else writes to its keys.
- Arithmetic on finite numbers is exact: the rounding of floating point is not
  modelled. Infinities and NaN are, where the code meets them.
- Ground distances are not negative; the sine and cosine of a bearing have squares
  that sum to 1. Nothing else of trigonometry is used.
- Sorting by a comparator is the stable sort that ECMAScript requires, modelled as
  insertion.
- `Number(s)` reads the degrees written to a mission file to within half of 1e-7, and
  the text of each other number written is a word that reads back as that number.

## Model

| member | source | states |
|---|---|---|
| `DataFlash.ReadString` | src/data/dataflash/decoder.ts:335-344 | the characters up to the first NUL or the end of the field, trimmed, also when the field runs past the bytes or begins after them |
| `DataFlash.DecodeRecord` | src/data/dataflash/decoder.ts:320-333 | the loop over the format's characters builds the record of the format, each field as its raw bytes, stopping at the first field the body is too short for |
| `DataFlash.FindHeader` | src/data/dataflash/decoder.ts:218-223 | the first 0xA3 0x95 pair at or after the start, or -1 |
| `DataFlash.FirstHeaderUnique` | src/data/dataflash/decoder.ts:218-223 | being the first header pair determines the result: no earlier pair, and -1 only when there is none |
| `DataFlash.StepCases` | src/data/dataflash/decoder.ts:85-98 | what a header makes the decoder do: wait for a whole packet, or pass over one byte when its type is unknown or its length impossible |
| `DataFlash.DataFlashDecoder.constructor` | src/data/dataflash/decoder.ts:53-61 | the buffer bound is the given one or 1024, but never below 89 |
| `DataFlash.DataFlashDecoder.EnforceBoundedBuffer` | src/data/dataflash/decoder.ts:178-183 | keeps the last maxBufferBytes bytes and moves the stream offset on by the bytes dropped |
| `DataFlash.DataFlashDecoder.Advance` | src/data/dataflash/decoder.ts:126-130 | consumes the decoded bytes, so that the buffer still starts at the stream offset |
| `DataFlash.DataFlashDecoder.TakePacket` | src/data/dataflash/decoder.ts:98-121 | a complete packet redefines its format or yields its record at its true offset; an unknown format character throws and changes no format |
| `DataFlash.DataFlashDecoder.DecodeBuffer` | src/data/dataflash/decoder.ts:67-124 | the decoding loop: records, format table, first byte not consumed and failure are those of the recursive decoder |
| `DataFlash.DataFlashDecoder.Feed` | src/data/dataflash/decoder.ts:64-132 | the whole new state and result of one feed, the throwing case included |
| `DataFlash.DataFlashDecoder.Finish` | src/data/dataflash/decoder.ts:135-138 | drops the carried bytes, counting them as consumed, and keeps the formats |
| `DataFlashLemmas.HeaderExtend` | src/data/dataflash/decoder.ts:71-79 | more bytes never move a header already found; when none was found the search may restart at the one byte kept |
| `DataFlashLemmas.StepExtend` | src/data/dataflash/decoder.ts:85-121 | a packet complete in the buffer reads the same whatever follows it |
| `DataFlashLemmas.DecodeExtend` | src/data/dataflash/decoder.ts:64-132 | decoding s + t is decoding s and then going on from where that stopped with the format table it had learnt |
| `DataFlashLemmas.DecodeShift` | src/data/dataflash/decoder.ts:101-101 | only the position in the stream matters to a record's offset, not how much of the stream has been dropped |
| `DataFlashLemmas.CarryIsShort` | src/data/dataflash/decoder.ts:85-98 | after any decoding fewer than 255 bytes are carried over, so the bound of 254 is never exceeded |
| `DataFlashLemmas.FeedStepIsDecode` | src/data/dataflash/decoder.ts:64-132 | a decoder holding the unconsumed suffix of the stream returns just the new records of the longer stream and holds its suffix |
| `DataFlashLemmas.FeedAllIsDecode` | src/data/dataflash/decoder.ts:64-132 | the same over any number of feeds |
| `DataFlashLemmas.ChunkInvariance` | src/data/dataflash/decoder.ts:64-132 | for every stream and every way of cutting it into chunks, records, offsets, format table, carried bytes and whether it throws are those of one feed of the whole, if the bound is at least 254 |
| `DataFlashLog.DecodeRender` | src/data/dataflash/decoder.ts:70-124 | decoding a rendered log gives exactly its records in order at their true offsets and its final format table, with garbage between packets and redefined types |
| `DataFlashLog.LogRoundTrip` | src/data/dataflash/decoder.ts:64-132 | the same when the rendered log is fed in any chunks |
| `DataFlashLog.RecordsAreDisjoint` | src/data/dataflash/decoder.ts:98-123 | on any bytes at all, records come in stream order, share no byte, and each begins with its own header and type at its offset |
| `DataFlashLog.FieldLayout` | src/data/dataflash/decoder.ts:320-333 | a column's value is the slice after all earlier fields, of its own size; it is absent exactly when the body is too short |
| `DataFlashLog.FmtRoundTrip` | src/data/dataflash/decoder.ts:225-238 | an FMT body written from a format defines exactly that format |
| `DataFlashLog.BoundIsSharp` | src/data/dataflash/decoder.ts:57-60 | chunking never matters if and only if the buffer bound is at least 254, although the constructor admits any bound from 89 |
| `DataFlashLemmas.FeedAllKeepsEnd` | src/data/dataflash/decoder.ts:126-132 | whatever the bound, the buffer is the end of what has been fed and the stream offset says where it begins |
| `DataFlashLemmas.FeedKeepsEnd` | src/data/dataflash/decoder.ts:126-132 | one feed leaves no more than the bound in the buffer, or all there was when it throws |
| `DataFlashRecords.DecodedAreDescribed` | src/data/dataflash/decoder.ts:98-123 | on any bytes, each record begins with its own header and has the type byte of its packet, and the name and length that an FMT packet before it gives to that type |
| `DataFlashRecords.UnnamedColumns` | src/data/dataflash/decoder.ts:326-329 | columns without a name are named apart |
| `DataFlashRecords.RecordsAreWritten` | src/data/dataflash/decoder.ts:320-333 | the n-th data packet of a written log, cut in any chunks, comes back as the n-th record: of its type, under the name, length and columns of the last definition of that type before it, at its offset |
| `DataFlashFields.IntegerField` | src/data/dataflash/decoder.ts:247-318 | an integer in the range of its format character, written in the bytes of its field, reads back as meant: signed or not, in hundredths, in ten-millionths |
| `DataFlashFields.FieldInRange` | src/data/dataflash/decoder.ts:247-318 | whatever its bytes are, an integer field holds a number of just that range |
| `DataFlashFields.TextField` | src/data/dataflash/decoder.ts:274-285 | text that fits its field reads back, unless white space stands at an end of it |
| `DataFlashFields.ArrayField` | src/data/dataflash/decoder.ts:249-258 | an array field is 32 signed numbers of two bytes each |
| `DataFlashFields.DecodeArray` | src/data/dataflash/decoder.ts:253-257 | the loop over the array elements |
| `DataFlashFields.BitsField` | src/data/dataflash/decoder.ts:269-273 | single and double precision fields keep their bits |
| `DataFlashFields.UnknownThrows` | src/data/dataflash/decoder.ts:240-318 | a complete FMT packet throws if and only if its format holds a character that names no field type |
| `DataFlashFields.ColumnIsPart` | src/data/dataflash/decoder.ts:320-333 | each column of a body written field by field reads back as its own part |
| `Rpc.PostMessageRpc.constructor` | src/core/bus/rpc.ts:62-79 | a new peer: no pending work, the next id 1, nothing posted |
| `Rpc.PostMessageRpc.PostFrame` | src/core/bus/rpc.ts:220-223 | posts unless disposed |
| `Rpc.PostMessageRpc.Invoke` | src/core/bus/rpc.ts:84-126 | call and stream: the fresh id is pending and its request posted, or rejected at once when posting throws, or nothing when the signal had fired |
| `Rpc.PostMessageRpc.SettlePending` | src/core/bus/rpc.ts:93-106 | settling removes the id from the pending maps |
| `Rpc.PostMessageRpc.OnAbort` | src/core/bus/rpc.ts:107-113 | a fired signal posts a cancel and rejects, only while the id is pending |
| `Rpc.PostMessageRpc.HandleRequest` | src/core/bus/rpc.ts:249-292 | an inbound request starts its handler under a new controller, or is answered by an error when there is none |
| `Rpc.PostMessageRpc.HandleCancel` | src/core/bus/rpc.ts:299-304 | a cancel aborts the controller of the id, once |
| `Rpc.PostMessageRpc.OnMessage` | src/core/bus/rpc.ts:225-247 | what each of the six frames does to each state, disposed included |
| `Rpc.PostMessageRpc.HandlerSends` | src/core/bus/rpc.ts:260-263 | a stream message is posted unless the run was aborted |
| `Rpc.PostMessageRpc.HandlerReturns` | src/core/bus/rpc.ts:264-291 | the terminal frame is posted unless aborted, and the id is no longer inbound |
| `Rpc.PostMessageRpc.RejectPending` | src/core/bus/rpc.ts:208-209 | every pending id is rejected, in order, once |
| `Rpc.PostMessageRpc.Close` | src/core/bus/rpc.ts:203-216 | dispose: rejects all pending work, aborts all handlers, drops the registrations, posts nothing |
| `Rpc.PostMessageRpc.Register` | src/core/bus/rpc.ts:186-199 | a name and kind is registered; RpcHandlers.RequestServed says what that means for requests; which function answers is not told apart |
| `RpcCallerSteps.CallKeeps` | src/core/bus/rpc.ts:84-126 | the invariant of one direction survives a new call or stream |
| `RpcCallerSteps.AbortKeeps` | src/core/bus/rpc.ts:107-113 | it survives an abort by the caller |
| `RpcCallerSteps.ReplyKeeps` | src/core/bus/rpc.ts:306-326 | it survives the delivery of a result, message, end or error |
| `RpcCallerSteps.DisposeKeeps` | src/core/bus/rpc.ts:203-216 | it survives disposal of the caller |
| `RpcHandlerSteps.RequestKeeps` | src/core/bus/rpc.ts:249-304 | it survives the delivery of a request or a cancel |
| `RpcHandlerSteps.SendKeeps` | src/core/bus/rpc.ts:260-263 | it survives a handler's send, also one after its return |
| `RpcHandlerSteps.ReturnKeeps` | src/core/bus/rpc.ts:264-291 | it survives the end of a handler |
| `RpcHandlerSteps.CloseKeeps` | src/core/bus/rpc.ts:203-216 | it survives disposal of the handling peer |
| `RpcProtocol.MirrorIsSwap` | src/core/bus/rpc.ts:62-79 | the two peers play the same part, so each theorem about one holds of the other |
| `RpcProtocol.CallerView` | src/core/bus/rpc.ts:225-247 | requests and replies of the two directions never cross: a move of a peer is a move of its caller half or leaves that half alone |
| `RpcProtocol.HandlerView` | src/core/bus/rpc.ts:225-247 | the same for its handler half |
| `RpcProtocol.AlwaysWell` | src/core/bus/rpc.ts:62-327 | in every run of two connected peers, with any handler behaviour, both directions keep the invariant |
| `RpcProtocol.OnePlace` | src/core/bus/rpc.ts:84-327 | while nobody is disposed the request of a pending id is in exactly one of three places: queued, with its handler, or answered and the answer queued |
| `RpcProtocol.DrainedMeansSettled` | src/core/bus/rpc.ts:84-327 | while nobody is disposed, once the channels are empty and the handlers have finished, no call and no stream is pending |
| `RpcProtocol.SettlesOnce` | src/core/bus/rpc.ts:91-125 | in every run each promise settles at most once, and nothing reaches its caller afterwards: late messages, cancels and disposal included |
| `RpcProtocol.PendingOrSettled` | src/core/bus/rpc.ts:91-125 | every id handed out is pending or has settled, never both and never neither |
| `RpcProtocol.ResultsAreAnswers` | src/core/bus/rpc.ts:282-308 | a call resolves only with what the handler run of its own request returned |
| `RpcProtocol.StreamsInOrder` | src/core/bus/rpc.ts:260-326 | the messages given to a stream's caller are a prefix, in order, of those sent; they are all of them once an end or an error of the handler has settled it, and that end or error is what the handler came to |
| `RpcDisposal.DisposedNeverPosts` | src/core/bus/rpc.ts:220-226 | in every run, once a peer is disposed no later move of either peer adds a frame to its channel, which only drains |
| `RpcDisposal.DisposalSettles` | src/core/bus/rpc.ts:203-216 | in every run, an id pending when its peer is disposed has settled exactly once from then on, by the rejection of the disposal |
| `RpcDisposal.DisposedCallWaits` | src/core/bus/rpc.ts:84-126 | a call made on a disposed peer is never posted, and for the rest of every run it is pending if and only if its own signal has not fired |
| `RpcDisposal.PendingUntilAborted` | src/core/bus/rpc.ts:107-113 | so is every id that is pending on a disposed peer |
| `RpcDisposal.WaitingForDisposed` | src/core/bus/rpc.ts:203-216 | when the serving peer is disposed and its channel is drained, exactly those ids still wait that it had not answered by then and whose callers have not given up |
| `RpcHandlers.RequestServed` | src/core/bus/rpc.ts:249-292 | in every run, a request that arrives is started as it was made if and only if a handler of its name and kind has been registered before; otherwise it is refused by the error reply |
| `RpcHandlers.ServesRegistered` | src/core/bus/rpc.ts:186-199 | a peer that is not disposed serves exactly what it has registered, calls and streams apart |
| `RpcHandlers.HistoryIsTrue` | src/core/bus/rpc.ts:84-326 | whatever callers and handlers have seen is just what some move of the run did: calls as made, messages and replies as the handlers gave them, settlements as their replies came |
| `RpcHandlers.ResolvedBy` | src/core/bus/rpc.ts:84-326 | a call that resolves was made by its caller, started under a registered handler, and answered with that value |
| `RpcHandlers.AbortReaches` | src/core/bus/rpc.ts:107-113 | when a caller's signal has fired and its channel is drained, the handler run of its request posts nothing more, whatever it does |
| `RpcHandlers.DisposalReaches` | src/core/bus/rpc.ts:211-212 | in every run, once a peer is disposed all its handler runs have been aborted |
| `RpcHandlers.DisposedServes` | src/core/bus/rpc.ts:213-214 | disposal forgets what was registered: only later registrations are there |
| `RpcProgress.AlwaysAnswerable` | src/core/bus/rpc.ts:84-326 | in every reachable state with nobody disposed, deliveries and at most one handler return settle any pending promise: nothing is stuck for good |
| `RpcProgress.CallResolves` | src/core/bus/rpc.ts:249-308 | witness: a registered call is made, handled and resolved with the value of its handler |
| `RpcProgress.StreamEnds` | src/core/bus/rpc.ts:249-320 | witness: a registered stream hears what its handler sends and ends |
| `Expression.ScanNumber` | src/data/log-query/expression.ts:226-272 | the end of the longest number: digits, a point, more digits, and an exponent only if it has digits |
| `Expression.ScanIdent` | src/data/log-query/expression.ts:208-217 | the end of the identifier |
| `Expression.Tokenize` | src/data/log-query/expression.ts:186-224 | the token loop gives the tokens of the recursive tokenizer, or an error at the first character or literal that is none |
| `Expression.Parser.MatchSymbol` | src/data/log-query/expression.ts:155-160 | consumes one symbol if it is the next token |
| `Expression.Parser.ParseAdditive` | src/data/log-query/expression.ts:110-118 | the sum loop: tree, position and failure of the recursive rule |
| `Expression.Parser.ParseMultiplicative` | src/data/log-query/expression.ts:120-128 | the product loop likewise |
| `Expression.Parser.ParseSigned` | src/data/log-query/expression.ts:130-134 | nested signs likewise |
| `Expression.Parser.ParseAtom` | src/data/log-query/expression.ts:136-153 | numbers, references and parentheses likewise |
| `Expression.ParseExpression` | src/data/log-query/expression.ts:28-33 | tokenizing and parsing a text, all of which must be used |
| `ExpressionGrammar.ParserIsGrammar` | src/data/log-query/expression.ts:96-181 | the parser accepts exactly the sentences of the left-associative grammar, and returns their tree |
| `ExpressionGrammar.Unambiguous` | src/data/log-query/expression.ts:96-181 | no token list has two trees: products bind before sums, both to the left |
| `ExpressionGrammar.ParsePrint` | src/data/log-query/expression.ts:96-181 | parsing the minimally parenthesised print of any expression gives the same tree back |
| `ExpressionGrammar.ShortestSum` | src/data/log-query/expression.ts:96-181 | of all token lists with the same tree the printed one is a shortest, so none of its parentheses can be left out |
| `ExpressionGrammar.TokenizeRender` | src/data/log-query/expression.ts:186-224 | tokenizing undoes writing tokens apart |
| `ExpressionGrammar.TextRoundTrip` | src/data/log-query/expression.ts:28-33 | parsing the printed text of an expression gives it back |
| `ExpressionTokens.LongestNumber` | src/data/log-query/expression.ts:226-272 | the scanner takes the longest number there is: digits with at most one point, and an exponent that has digits |
| `ExpressionTokens.NamesAreWords` | src/data/log-query/expression.ts:208-217 | names are the words of letters, digits and underscores that no digit begins |
| `ExpressionTokens.TokensSpellText` | src/data/log-query/expression.ts:186-224 | the tokens of an accepted text are finite numbers, names and symbols, and spell it out but for its white space |
| `ExpressionTokens.TokenTaken` | src/data/log-query/expression.ts:186-224 | a token at the front of a text is taken whatever comes after it, if that does not make it longer |
| `Expression.Visit` | src/data/log-query/expression.ts:79-94 | the traversal adds each reference it has not met |
| `Expression.CollectSeriesRefs` | src/data/log-query/expression.ts:36-46 | the references of an expression, each once |
| `Expression.RefsByFirstUse` | src/data/log-query/expression.ts:36-46 | exactly the references used, ordered by their first use |
| `Expression.EvaluateDependsOnRefs` | src/data/log-query/expression.ts:49-77 | the value depends on the collected references alone |
| `ExpressionMeaning.MachineAgrees` | src/data/log-query/expression.ts:49-77 | evaluation over any kind of number is what a stack machine does with the postfix form: left operand, right operand, operator |
| `ExpressionMeaning.EvaluateIsTerm` | src/data/log-query/expression.ts:49-77 | evaluated into expressions, an expression without plus signs is itself |
| `Downsample.LowerBound` | src/data/log-query/downsample.ts:5-15 | binary search: the number of samples before the target |
| `Downsample.UpperBound` | src/data/log-query/downsample.ts:18-28 | binary search: the number of samples not after the target |
| `Downsample.RangeBounds` | src/data/log-query/downsample.ts:31-42 | the slice of a range, for finite, infinite, missing, inverted and NaN ends |
| `Downsample.BoundsAreWindow` | src/data/log-query/downsample.ts:31-42 | the slice is exactly the samples in the inclusive window if and only if the range is not an infinite one the wrong way round, which selects everything |
| `Downsample.RangeIsInclusive` | src/data/log-query/downsample.ts:31-42 | both ends count as in the range; a missing or NaN end is no bound |
| `Downsample.FullResolutionPoints` | src/data/log-query/downsample.ts:67-89 | each sample as a point of its own |
| `Downsample.SummariseBucket` | src/data/log-query/downsample.ts:107-130 | minimum, maximum, first, last, mean and count of a bucket of finite samples in one pass |
| `Downsample.DownsampleMinMax` | src/data/log-query/downsample.ts:91-134 | the bucket loop gives the buckets between the floored edges |
| `Downsample.PointsForSlice` | src/data/log-query/downsample.ts:45-58 | the points of a slice for every maxPoints, missing, infinite and NaN included, and for a start past the end |
| `Downsample.PointsPartition` | src/data/log-query/downsample.ts:45-134 | of a non-empty slice nothing comes back exactly when maxPoints is NaN; otherwise as many points as the whole part of maxPoints, when that is from 1 to below the number of samples, or one for each sample; point k summarises the slice that starts after the counts of the earlier points |
| `Downsample.SharedEvenly` | src/data/log-query/downsample.ts:99-107 | bucket i of m is the summary of the samples between the whole parts of i / m and (i + 1) / m of their number |
| `Downsample.EdgeGrows` | src/data/log-query/downsample.ts:103-105 | the floored bucket edges run from 0 to n and are strictly increasing when there are no more buckets than samples, so the skip is never taken |
| `Downsample.DownsampleKeeps` | src/data/log-query/downsample.ts:91-134 | n samples to m < n points: exactly m buckets over consecutive slices, counting n samples between them, keeping the first and the last value and running forward in time |
| `Downsample.PartitionKeeps` | src/data/log-query/downsample.ts:91-134 | whatever points summarise consecutive slices count every sample once, keep the first and the last value, cover every value and run forward in time |
| `Downsample.ExtremesSurvive` | src/data/log-query/downsample.ts:114-130 | the least and the greatest sample of the slice are the least and the greatest over the buckets |
| `LogIndex.KeysCollide` | src/data/log-query/engine.ts:229-231 | exactly when two keys share a text: they are equal, or one message extends the other by a NUL and more, and that more begins the other field |
| `LogIndex.KeyTextIsKey` | src/data/log-query/engine.ts:229-231 | a key whose message and field hold no NUL shares its text with no other key, whatever that one holds |
| `LogNames.FmtClean` | src/data/dataflash/decoder.ts:225-238 | whatever bytes an FMT packet holds, the name and columns it defines hold no NUL |
| `LogNames.FeedAllClean` | src/data/dataflash/decoder.ts:64-132 | so do the names of all records returned, however the stream is cut and whatever the buffer bound |
| `LogNames.DecodedKeys` | src/data/log-query/engine.ts:229-231 | no field of a record decoded from any chunks shares its text key with any other key |
| `LogIndex.AddSample` | src/data/log-query/engine.ts:95-100 | a bucket gains a sample; its ordered flag is true exactly when its times arrived non-decreasing |
| `LogIndex.IngestRecord` | src/data/log-query/engine.ts:81-101 | the field loop adds the numeric fields of one record, in order, to their buckets |
| `LogIndex.Ingest` | src/data/log-query/engine.ts:74-102 | after the record loop there is a bucket for exactly the keys that have a sample, holding what a plain scan of the log finds |
| `LogMeaning.SamplesArePlaces` | src/data/log-query/engine.ts:74-102 | the scan, place by place: the samples of a key are just the fields of that name that hold a finite number, or an integer up to 9007199254740991, in the records of that name, in order, each at the first TimeUS of its record if that is a number and else at its position |
| `LogMeaning.StampIsTime` | src/data/log-query/engine.ts:215-219 | each record is stamped with its first TimeUS if that is a number, and else with its position |
| `LogIndex.InsertStable` | src/data/log-query/engine.ts:192-200 | stable insertion keeps the order of equal times |
| `LogIndex.SortIsStable` | src/data/log-query/engine.ts:192-200 | the frozen order is sorted, a permutation of what was ingested, and stable |
| `LogIndex.SortedStays` | src/data/log-query/engine.ts:184-190 | a series that arrived in order is its own stable sort, so both branches of freezing agree |
| `LogIndex.SortIndices` | src/data/log-query/engine.ts:192-200 | sorting the positions sorts the samples |
| `LogIndex.FreezeSeries` | src/data/log-query/engine.ts:178-213 | the columns of a frozen series are the stable sort of the ingested samples |
| `LogIndex.FromRecords` | src/data/log-query/engine.ts:70-106 | the index holds exactly the keys with a sample, each with the stable sort of its scan |
| `LogQuery.WindowOfSorted` | src/data/log-query/engine.ts:114-123 | selecting a window and sorting commute |
| `LogQuery.QuerySeries` | src/data/log-query/engine.ts:114-123 | a query is a slice of the sorted scan of the log, or an error for a series without samples |
| `LogQuery.QueryIsWindow` | src/data/log-query/engine.ts:114-123 | without downsampling it returns exactly the ingested samples of the inclusive window in stable time order, if and only if the range is not infinite the wrong way round |
| `LogQuery.NearestValue` | src/data/log-query/engine.ts:271-285 | reads the sample NearestIsNearest describes |
| `LogQuery.NearestIsNearest` | src/data/log-query/engine.ts:271-285 | no sample is nearer in time, an equally near one is not earlier, and among samples of the same time it is the one next to t |
| `LogQuery.ValueAtOk` | src/data/log-query/engine.ts:259-268 | evaluation meets an unknown series exactly when a reference of the expression is missing |
| `LogQuery.DerivedDependsOnRefs` | src/data/log-query/engine.ts:168-175 | the lookup of the collected references gives the samples the whole index would |
| `LogQuery.BuildReferenceLookup` | src/data/log-query/engine.ts:168-175 | a lookup of all the references, or an error exactly when one is unknown |
| `LogQuery.EvaluateOnBase` | src/data/log-query/engine.ts:251-269 | one sample for each base time whose value is finite, and never an unknown series |
| `LogMeaning.ValueIsEvaluation` | src/data/log-query/engine.ts:251-268 | with all its series there, the value of an expression is the expression evaluated over the values nearest in time |
| `LogMeaning.DerivedArePlaces` | src/data/log-query/engine.ts:251-269 | one derived sample for each base time in the range at which the expression has a finite value, that value, in order |
| `LogQuery.EvaluateDerived` | src/data/log-query/engine.ts:126-154 | the result and each error of a derived query; an unknown later reference is no error when no base time is selected |
| `Geometry.ScanLineSegments` | src/geo/survey/geometry.ts:87-117 | the edge loop, the sort and the pairing give the pairs of sorted crossings |
| `Geometry.SidesAndParity` | src/geo/survey/geometry.ts:95-107 | walking along the edges, the crossings so far are odd in number exactly when the walk has changed sides of the line |
| `Geometry.EvenCrossings` | src/geo/survey/geometry.ts:82-85 | every closed vertex list is crossed an even number of times: concave, self-intersecting or with repeated vertices |
| `Geometry.CrossedWhenStraddled` | src/geo/survey/geometry.ts:99-102 | there is a crossing exactly when one vertex is on or below the line and another above it |
| `Geometry.SegmentsAreInterior` | src/geo/survey/geometry.ts:87-117 | u is in some segment, its lower end included, if and only if an odd number of edges cross at or left of u: the segments are the even-odd interior |
| `Geometry.SegmentsInOrder` | src/geo/survey/geometry.ts:108-116 | the segments run left to right without overlap and use up all crossings |
| `Geometry.SegmentEndsOnBoundary` | src/geo/survey/geometry.ts:103-106 | both ends of every segment lie on an edge of the polygon, for the flight direction of any bearing |
| `Grid.SpacingFromOverlap` | src/geo/survey/camera.ts:72-78 | refuses a footprint that is not positive and an overlap outside [0, 100); otherwise the spacing is positive and at most the footprint |
| `Grid.AcrossExtent` | src/geo/survey/grid.ts:101-107 | the least and the greatest across coordinate, each attained |
| `Grid.LinesInside` | src/geo/survey/grid.ts:109-118 | every planned line is inside the across extent, and the bundle is symmetric about its middle |
| `Grid.PlannedLinesCover` | src/geo/survey/grid.ts:109-118 | every across coordinate of the polygon is within half a spacing of a planned line |
| `Grid.FlownBelowTop` | src/geo/survey/grid.ts:119-120 | a planned line inside the extent yields segments if and only if it is below the far edge |
| `Grid.FlownLinesCover` | src/geo/survey/grid.ts:109-120 | lines that yield segments cover the extent with a reach of at least half a spacing if and only if the extent is no whole number of spacings, or is positive and the reach a whole spacing |
| `Grid.SwathsCover` | src/geo/survey/grid.ts:88-120 | swaths as wide as the footprint cover the extent if and only if it is no whole number of spacings, or is positive and the sidelap at least half |
| `Grid.FlyLines` | src/geo/survey/grid.ts:113-133 | the line loop: legs, waypoints and photo count |
| `Grid.MeasurePath` | src/geo/survey/grid.ts:138-145 | the path length over consecutive waypoints |
| `Grid.GenerateGrid` | src/geo/survey/grid.ts:84-163 | lines, waypoints, photo count and path length of the plan from polygon, spacing and trigger distance; refused below three vertices |
| `Grid.LineFliesOneWay` | src/geo/survey/grid.ts:121-129 | even lines are flown forwards and odd ones backwards, no leg or connector of a line going back |
| `Grid.LegsFlyInterior` | src/geo/survey/grid.ts:119-129 | the legs of a line fly exactly over the even-odd interior of the polygon |
| `GridPlan.PlanIsFlown` | src/geo/survey/grid.ts:84-163 | the whole plan: the waypoints are, after any entry point, the two ends of each leg in turn; the legs go line by line across the polygon, forwards on even and backwards on odd lines, from edge to edge, over just its even-odd interior on each planned line |
| `GridPlan.WaypointsAreEnds` | src/geo/survey/grid.ts:128-131 | waypoints 2i and 2i + 1 are the start and the end of leg i |
| `GridPlan.LineEndsOnEdges` | src/geo/survey/grid.ts:119-127 | the legs of a line lie on it and end on edges of the polygon |
| `GridPlan.LegPhotos` | src/geo/survey/grid.ts:130-133 | a leg takes a photo at its start and at every whole trigger distance on it |
| `GridPlan.PhotosAdd` | src/geo/survey/grid.ts:130-133 | photo counts of legs add up |
| `GridPlan.PathAdds` | src/geo/survey/grid.ts:138-145 | a path through a point is as long as its two parts, and one of two points is their distance |
| `Tlog.BigEndianValue` | src/data/tlog/encoder.ts:48-48 | eight big-endian bytes hold a timestamp modulo 2 to the 64, exactly when it is smaller |
| `Tlog.EntryReads` | src/data/tlog/encoder.ts:28-51 | an entry gives back its raw frame, and the whole microseconds of a positive finite clock below 2 to the 64; any other clock that is not positive and finite is written as 0 |
| `Tlog.EncodeTlogEntry` | src/data/tlog/encoder.ts:45-51 | the bytes written are the timestamp and the frame |
| `Tlog.ConcatChunks` | src/data/tlog/encoder.ts:54-64 | the bytes written are the chunks one after the other |
| `Recorder.KeyTextIsKey` | src/data/tlog/recorder.ts:265-265 | the text of a chunk key identifies recording and chunk, whatever the recording id holds |
| `Recorder.TlogRecorder.FlushPending` | src/data/tlog/recorder.ts:257-276 | the buffer becomes one chunk at the end of the chain and is emptied |
| `Recorder.TlogRecorder.Receive` | src/data/tlog/recorder.ts:227-237 | a frame is encoded, counted and buffered, and flushed at the threshold; ignored when not recording |
| `Recorder.TlogRecorder.StartRecording` | src/data/tlog/recorder.ts:125-145 | start resets the buffer, the counts and the error and begins a new chain under the given id; refused when disposed or recording |
| `Recorder.TlogRecorder.StopRecording` | src/data/tlog/recorder.ts:152-156 | stop flushes what is buffered |
| `Recorder.TlogRecorder.TearDown` | src/data/tlog/recorder.ts:212-222 | dispose stops the recording, once |
| `RecorderRuns.NextKeeps` | src/data/tlog/recorder.ts:94-276 | every step of frames, writes, starts, stops, exports and disposal keeps the invariants |
| `RecorderRuns.Always` | src/data/tlog/recorder.ts:94-276 | they hold in every run with fresh recording ids |
| `RecorderRuns.BytesConserved` | src/data/tlog/recorder.ts:227-276 | under every interleaving, chunks handed over and buffer are the entries of all frames since start; while no write failed, so are the stored chunks in key order, the queued ones and the buffer; sizeBytes and frameCount count just those |
| `RecorderErrors.StoredWhen` | src/data/tlog/recorder.ts:257-276 | after every run, a chunk of the recording under way is stored if and only if it has left the chain and its own write did not fail, whatever became of other recordings |
| `RecorderErrors.ConservedUnlessFailed` | src/data/tlog/recorder.ts:227-276 | all chunks that have left the chain are stored if and only if no write of this recording failed; then stored chunks, queued ones and buffer are the entries of all frames since start |
| `RecorderRuns.ExportExact` | src/data/tlog/recorder.ts:181-195 | an export that completes returns exactly the entries of the frames received before it was called, whatever happens while it waits |
| `RecorderRuns.BufferBelowThreshold` | src/data/tlog/recorder.ts:227-237 | after each recorded frame the buffer is below chunkBytes if and only if chunkBytes is positive |
| `RecorderRuns.NoErrorMeansStored` | src/data/tlog/recorder.ts:152-158 | a stop or export that gets past its wait without an error, in the recording it was called in, finds every chunk stored with the bytes received |
| `RecorderErrors.ErrorIsFreshFailure` | src/data/tlog/recorder.ts:133-140 | after every run the error flag is up if and only if a write, of whichever recording, has failed since the last start |
| `RecorderErrors.LostIsFailed` | src/data/tlog/recorder.ts:264-275 | a chunk handed over is neither stored nor queued if and only if its write has failed |
| `RecorderErrors.StoredUnlessFailed` | src/data/tlog/recorder.ts:152-158 | past its wait, each chunk of a call is stored if and only if its write did not fail |
| `RecorderErrors.StoredIsRecorded` | src/data/tlog/recorder.ts:181-195 | then stored chunks and tail are the frames received before the call, whatever was started since |
| `RecorderErrors.WaitFailsWhen` | src/data/tlog/recorder.ts:152-158 | stop, or the wait of export, fails if and only if some write has failed since the last start |
| `RecorderErrors.SilentLoss` | src/data/tlog/recorder.ts:139-158 | stop resolves, or export goes on, although a chunk of the recording is lost, if and only if one of its writes failed and every failed write of any recording has had a start after it |
| `RecorderErrors.FalseAlarm` | src/data/tlog/recorder.ts:139-158 | it fails although all its chunks are stored if and only if none of its writes failed but another has since the last start |
| `RecorderErrors.ReadFailsWhen` | src/data/tlog/recorder.ts:186-195 | an export that has gone on fails at a chunk if and only if the write of that chunk failed |
| `RecorderErrors.OldFailureFailsNew` | src/data/tlog/recorder.ts:181-186 | witness of a false alarm: a late failed write of the former recording makes a complete export throw |
| `RecorderErrors.DisposedIsOver` | src/data/tlog/recorder.ts:125-129 | once disposed, a recorder starts no recording, takes no frame and hands over no chunk, whatever happens |
| `RecorderRuns.StartWipesError` | src/data/tlog/recorder.ts:139-158 | witness of a silent loss: with two frames and chunkBytes 1, a start while stop waits makes stop resolve although a chunk was never stored |
| `Recents.RecentsStore.DropBlobs` | src/core/recents/store.ts:106-112 | deletes the blobs of the given entries but for those that cannot be deleted |
| `Recents.RecentsStore.RecordFile` | src/core/recents/store.ts:133-186 | the new list, blobs and returned entry of a record |
| `Recents.RecentsStore.EnforceBudget` | src/core/recents/store.ts:169-178 | the eviction loop |
| `Recents.RecentsStore.RemoveEntry` | src/core/recents/store.ts:201-209 | the new list and blobs of a remove |
| `Recents.RecentsStore.ClearAll` | src/core/recents/store.ts:211-218 | the new list and blobs of a clear |
| `Recents.RecentsStore.OpenEntry` | src/core/recents/store.ts:188-199 | an entry's content if it is listed, cached and stored |
| `Recents.EvictedTo` | src/core/recents/store.ts:169-178 | the longest newest-first prefix whose cached content fits: any longer one does not |
| `Recents.EvictsOldest` | src/core/recents/store.ts:169-178 | eviction keeps that prefix as it is and uncaches all after it: a least set of oldest entries |
| `Recents.FitFits` | src/core/recents/store.ts:168-178 | whatever the list was, its cached bytes are within the budget afterwards |
| `Recents.EvictKeeps` | src/core/recents/store.ts:171-177 | eviction deletes no blob of an entry that stays cached, and leaves none behind |
| `Recents.RecordKeeps` | src/core/recents/store.ts:133-186 | after a record the list is within both limits whatever it was before, has one entry for each kind and name, and every cached entry's blob is what was recorded |
| `RecentsLists.RecordedList` | src/core/recents/store.ts:133-186 | the list after a record, entry by entry: the new entry in front, then every entry of another kind or name in its order, as many as there may be; the first of them as they were, as many as fit the budget, the rest without content |
| `RecentsLists.RemovedList` | src/core/recents/store.ts:201-209 | after a remove the entry is gone, with its content if that can be deleted; all other entries and contents are as they were |
| `RecentsLists.BytesAdd` | src/core/recents/store.ts:169-176 | what counts against the budget are the bytes of the cached entries |
| `Recents.RemoveKeeps` | src/core/recents/store.ts:201-209 | a remove keeps that |
| `Recents.AlwaysValid` | src/core/recents/store.ts:93-218 | it holds after every run of mutations with fresh ids; and if blobs can be deleted, the blob store holds the cached entries' blobs and no others |
| `Recents.NewEntrySurvives` | src/core/recents/store.ts:160-184 | record returns its new entry unevicted, and it is first in the list if and only if maxEntries is at least 1; otherwise the list is empty although the returned entry may say cached |
| `Recents.OpenGivesRecorded` | src/core/recents/store.ts:188-199 | opening a listed entry gives the content recorded under it, or nothing when uncached |
| `Fence.FenceToMission` | src/geo/fence/convert.ts:69-97 | the encoding loops: return point, polygons vertex by vertex, circles, numbered by position |
| `Fence.EncodedNumbers` | src/geo/fence/convert.ts:69-97 | items are numbered by position, the return point first, with frame 0, autocontinue 1 and no other parameters |
| `Fence.ShapeOnWire` | src/geo/fence/convert.ts:79-94 | a polygon is its vertices in order, each with their count; a circle one item with its radius; commands 5001 to 5004 tell kind and side |
| `Fence.ShapeSkipped` | src/geo/fence/convert.ts:81-91 | a shape is left out if and only if it is a polygon of no vertices or a circle without positive radius |
| `Fence.FenceFromMission` | src/geo/fence/convert.ts:117-168 | the decoding loops give shapes and return point, on the streams on which they end |
| `Fence.DecodingEnds` | src/geo/fence/convert.ts:122-145 | the decoding loop ends if and only if no polygon opens with a NaN count; which vertices open one is defined from commands and counts alone |
| `Fence.StuckIsNaNOpening` | src/geo/fence/convert.ts:130-145 | the loop meets a vertex it cannot pass exactly when some opening vertex has a NaN count |
| `Fence.OneVertexSticks` | src/geo/fence/convert.ts:130-145 | witness: a stream of one vertex with a NaN count is never decoded past its start |
| `Fence.NumbersDoNotStick` | src/geo/fence/convert.ts:134-142 | it ends on every stream whose vertex counts are numbers |
| `Fence.FenceRoundTrip` | src/geo/fence/convert.ts:69-168 | decoding an encoded fence ends and gives the return point and the shapes back in order, adjacent polygons of one kind kept apart, minus those without encoding, with positions rounded to the wire's grid |
| `Fence.SnappedIsSame` | src/geo/fence/convert.ts:79-94 | nothing is lost if and only if every polygon has a vertex, every radius is positive and every position is on the grid |
| `Fence.EveryItemRead` | src/geo/fence/convert.ts:122-159 | on any stream on which decoding ends, each vertex item is in exactly one polygon of its kind and each circle item is one circle, in stream order |
| `Base64.BitOps` | src/core/secrets/base64.ts:32-35 | the shifts, masks and ors of the codec on 32-bit words are the arithmetic the model uses |
| `Base64.AlphabetInverse` | src/core/secrets/base64.ts:13-22 | the lookup table inverts the alphabet, and = is not in it |
| `Base64.ToBase64` | src/core/secrets/base64.ts:25-51 | the output is the encoding of section 4 of RFC 4648, stated as a regrouping of bits |
| `Base64.EncodedLength` | src/core/secrets/base64.ts:25-51 | its length is four times the number of bytes over three, rounded up |
| `Base64.FromBase64` | src/core/secrets/base64.ts:59-80 | decoding regroups the bits of the characters, and fails if and only if a character before the trailing = signs is outside the alphabet |
| `Base64.ShiftIn` | src/core/secrets/base64.ts:72-73 | whatever the wrapping 32-bit accumulator loses at the top, it keeps all bits still to be read |
| `Base64.TakeOut` | src/core/secrets/base64.ts:74-77 | the byte taken out is the next eight bits, and the bits below it stay |
| `Base64.Base64RoundTrip` | src/core/secrets/base64.ts:25-80 | decoding undoes encoding for every byte string |
| `Base64.CanonicalTexts` | src/core/secrets/base64.ts:25-80 | encoding the bytes of an accepted text gives the text back if and only if its characters before the padding are not one over a group of four, = signs fill up just the last group, and the bits left over are zero |
| `Mission.DeleteItem` | src/geo/mission/model.ts:108-115 | the items before the deleted one stay, those after it come down by one, and the pointer stays with its item, or with its place when its item is deleted, unless that was the last; out of range nothing happens |
| `Mission.InsertItem` | src/geo/mission/model.ts:99-106 | the new item is at the clamped index, the items from there on move up by one, and the pointer with its item |
| `Mission.AddItem` | src/geo/mission/model.ts:90-96 | the new item is behind all others |
| `Mission.SetItem` | src/geo/mission/model.ts:137-145 | one item is patched and no other |
| `Mission.SetCurrent` | src/geo/mission/model.ts:158-161 | the pointer goes to the index, clamped into the list |
| `Mission.Reorder` | src/geo/mission/model.ts:118-134 | the two splices bring the item at the clamped source to the clamped destination, the others keeping their order, and the pointer goes with its item |
| `Mission.RearrangedKeeps` | src/geo/mission/model.ts:124-127 | a reorder is a permutation |
| `Mission.ReorderUndone` | src/geo/mission/model.ts:118-134 | the reverse reorder restores list and pointer, for any two indices, clamped or not |
| `Mission.EditInRange` | src/geo/mission/model.ts:99-161 | every edit leaves the pointer in range if and only if it is not an insert into an empty mission, which leaves it at 1 past the only item |
| `Mission.EditKeepsCurrent` | src/geo/mission/model.ts:99-145 | an edit keeps the pointer on the same item unless it deletes that item |
| `Mission.CurrentIsKept` | src/geo/mission/model.ts:99-145 | so does every run of edits of a non-empty mission |
| `Mission.DeleteCurrent` | src/geo/mission/model.ts:108-115 | deleting the current item moves the pointer to the next, or to the last |
| `Mission.OneCurrent` | src/geo/mission/convert.ts:86-93 | the wire form of a mission with items flags exactly one of them current and numbers them by position |
| `Mission.MissionRoundTrip` | src/geo/mission/convert.ts:31-93 | the wire form maps back to the same items on the grid and to the clamped pointer, so to the same mission if and only if it was on the grid with its pointer in range and the defaults of its first item |
| `Mission.WireRoundTrip` | src/geo/mission/convert.ts:31-93 | wire items read and written again keep everything but numbers and flags, which become positions and a single 1 |
| `Mission.EmptyMission` | src/geo/mission/convert.ts:68-80 | a mission without items is read with the defaults 50 m and frame 6 |
| `MissionItems.GridIsWhole` | src/geo/mission/convert.ts:21-28 | a coordinate survives the wire exactly when it is a whole number of 1e-7 degrees |
| `MissionItems.ScaledRoundTrip` | src/geo/mission/convert.ts:21-28 | a wire coordinate read and written again is unchanged |
| `Coords.DegreesAreExact` | src/data/missionfile/coords.ts:55-66 | the decimal string of an integer denotes exactly e7 / 10000000 and is mapped back to it, digit by digit: sign, whole part, padding and stripped zeros |
| `Coords.StripKeeps` | src/data/missionfile/coords.ts:64-64 | stripping trailing zeros keeps the value of a fraction |
| `Coords.ShortestForE7` | src/data/missionfile/coords.ts:44-51 | of all decimals, of either sign and any length, that read as e7, the written one has the fewest places |
| `Wpl.ParseWpl` | src/data/missionfile/wpl.ts:67-95 | the line loop: header, rows, blank lines and every error |
| `WplTexts.ParseAccepts` | src/data/missionfile/wpl.ts:67-95 | a text is a mission file if and only if its first line that is not blank is the header and each other one begins with twelve finite numbers; its items are those, in order |
| `Wpl.HeaderSpelling` | src/data/missionfile/wpl.ts:78-80 | the header is the three words QGC and WPL, in any case, and 110 |
| `WplTexts.LineEndsAlike` | src/data/missionfile/wpl.ts:68-68 | line feeds, carriage returns and both together end lines alike |
| `WplTexts.WordThenRun` | src/data/missionfile/wpl.ts:84-84 | a word ends where white space begins, however much of it there is |
| `Wpl.WordsOfJoin` | src/data/missionfile/wpl.ts:84-84 | splitting a row at white space undoes joining its columns by tabs |
| `Wpl.LinesWritten` | src/data/missionfile/wpl.ts:125-128 | written text splits into the header, one line for each item, and an empty rest |
| `Wpl.RowRoundTrip` | src/data/missionfile/wpl.ts:41-58 | a written row reads back as its item, unless a number in it is not finite, given that each number text reads back as its number and degrees within half of 1e-7 of the decimal written |
| `Wpl.WplRoundTrip` | src/data/missionfile/wpl.ts:67-128 | parsing a serialized mission gives the same items if and only if all their numbers are finite, and is refused otherwise, under the same condition on the numbers written |
| `Terrain.SamplePath` | src/geo/terrain/profile.ts:57-85 | the samples of a path: none, one point, one point for zero length, or the walk of the segments |
| `Terrain.Walk` | src/geo/terrain/profile.ts:75-84 | over exact reals the sampling loop ends for every spacing, never reads past the last segment, and samples each multiple of the step below the total and the last point; with doubles a step too small to change the chainage would never advance |
| `Terrain.ChainageRises` | src/geo/terrain/profile.ts:64-71 | the chainage never falls, and goes up by the distance between neighbours |
| `Terrain.ChainagesRise` | src/geo/terrain/profile.ts:75-84 | sample chainages rise strictly from 0 to the total with gaps of at most the step |
| `Terrain.PathSpacing` | src/geo/terrain/profile.ts:74-84 | the chainages are the multiples of a positive spacing below the total, and the total; without a positive spacing just the two ends |
| `Terrain.SampleInSegment` | src/geo/terrain/profile.ts:79-102 | each sample before the last is taken from a segment that holds its chainage, at the right fraction of it |
| `Text.TrimIs` | src/data/dataflash/decoder.ts:335-344 | trimming takes the white space at both ends of a text and nothing else |
| `Text.SpaceCodes` | src/data/dataflash/decoder.ts:335-344 | the characters that count as white space, by their codes in ECMAScript |
| `Numbers.LessIsOrder` | src/data/log-query/downsample.ts:31-42 | less than is a strict order of all numbers but NaN, from minus to plus infinity |

## Left out

- The user interface, application wiring, settings store, extension host and broker: mostly plumbing.
- IndexedDB, WebCrypto, XML, audio, canvas and network code: blob stores are maps whose operations may fail.
- Rpc handlers that throw before they return a promise, responses that cannot be cloned, and the message text of errors thrown by handlers.
- Rpc promises that are still to be observed: settling is the call of resolve or reject, not the later microtask.
- The real numbers that single and double precision fields denote: their bits are kept. Unit, multiplier and format-unit metadata and the callbacks of the decoder are not modelled.
- DataFlash formats with an unknown character: a feed that meets one throws, and the lemmas say what it leaves; what a caller may do with that decoder afterwards is not pursued.
- The numeric value of expression literals and the rounding of expression arithmetic: both are parameters of evaluation.
- Units of series, the list of descriptors and its locale order, and the order in which a JavaScript object lists its keys.
- Survey camera formulas, polygon area and the projection to latitude and longitude: positions and distances are parameters.
- The sidecar record of a recording, its duration statistics, saving to a file, and starting and stopping on connection state, which calls the modelled start and stop.
- Recents subscriptions and persistence of the list, loading it, negative limits, and opening an entry while a mutation is between two of its steps.
- Fence altitude limits and breach action, which do not travel in the items; positions that are not finite.
- Mission indices that are not integers, default altitude and frame setters, and distance and time estimates.
- Terrain elevations and collision checks, which are pointwise.
- The other mission file formats, the MAVLink codec and the log replay parser: the last two are not part of this model.
- Terrain.SamplePath: the ground distance is any non-negative function, because the haversine series is not modelled.
- Wpl.RowRoundTrip: assumes that the text of each number written reads back as it, because printing of arbitrary floating-point numbers is not modelled.
- Wpl.WplRoundTrip: assumes the same of the numbers of each item.
- Fence.FenceFromMission: required to be given a stream in which no polygon opens with a NaN count, because the loop ends on no other; DecodingEnds proves that.
- DataFlash.DecodeRecord: keeps each field as its raw bytes, because what they mean depends on the format character alone; DataFlashFields.DecodeValue says what.
- DataFlash.DataFlashDecoder.TakePacket: does not put unit and multiplier ids on records, capture metadata or call back, because none of that affects decoding.
- Rpc.PostMessageRpc.Invoke: when the signal had already fired nothing is recorded of the immediate rejection, because that call never becomes pending.
- Rpc.PostMessageRpc.Register: cannot tell one handler function from another of the same name and kind, because what a handler does is left to the run.
- Downsample.SummariseBucket: takes finite samples only, because only those are indexed or derived.
- Grid.GenerateGrid: does not give the resolved sensor, the area and the duration, because they are single formulas.
- Recorder.TlogRecorder.StartRecording: takes the id as an argument and writes no sidecar, because the id factory and the sidecar store are outside; runs assume ids fresh.
- Recorder.TlogRecorder.TearDown: does not unsubscribe or wait for the chain, because frames are ignored once it is not recording and nothing follows the wait.
- Terrain.Walk: does not say what a step below the resolution of a double does, because chainages are exact reals.
