# Telegram client core: a Dafny model and its proofs

The project models the algorithmic core of a Telegram MTProto client and of the generators beside it, and proves what
each part is for. One module stands for one component:

| module | component |
|---|---|
| NumberTheory, Prime | factoring of pq by Brent's batched rho, total correctness included |
| Spans, Markup, HtmlLexer, HtmlRender, HtmlParser, HtmlUnparse, HtmlRoundTrip, HtmlTheorems | message entities: surrogate pairs, crossing spans, the HTML writer, a lexer of HTML text and the HTML reader |
| Streaming | the chunk download behind a shared budget of slots, parallel or for a file of unknown size one chunk at a time, as a step system |
| UpdateStates | pts and qts marks, and the coalescing of a batch of updates |
| TlPrimitives, TlCodec, FilePart, SortArgs | the TL byte layout, the generated writer and reader of every schema, the hand-written shortcut for file parts, argument order |
| IdEncoding, FileId | file ids: zero run lengths, base64url, the variant-rich record inside |
| Srp, SplitText | the password check, and the cutting of long texts |
| RateLimiter | token buckets, the adaptive bucket, the two-bucket limiter |
| ReplayWindow, Invoke | the bounded window of message ids, and the retry and flood budget of a request |
| FakeTls, HelloParts, ClientHello, Greeting | the back-patching writer, its random parts, a TLS parser, and the greeting that is written |
| WriteQueue | the write-behind queue of the hybrid storage |
| Dispatcher | handler groups and propagation |
| Coverage | the worklists of the API coverage report |

Code that changes state is a class or a loop proved against a specification function, and the promises are lemmas about
that function. Random draws, clock readings, the network's answers and callbacks are arguments, so every statement holds
for all of them; hashes are uninterpreted functions; floats of the rate limiter are exact reals.

What turned out not to hold is stated as such, with the exact condition beside it:

- `Prime.CompositeUnfactored`: the factor found may be pq itself although pq is composite.
- `HtmlRoundTrip.RoundTrip`: entities come back exactly when no code lies inside a pre, no pre with a language lies inside
  a code, and no link looks like a mention, with digits of any script; `HtmlTheorems.CodeInPreLost`,
  `HtmlTheorems.LanguagePreInCodeLost` and `HtmlTheorems.MentionLinkLost` show each failing.
- `HtmlRender.ValueExactly`: addresses, languages and date formats are written into quotes unescaped; such a value comes
  back exactly when it has no quote and no character reference in it.
- `TlCodec.ReadWriteExactly`: with anything behind it, an object of any schema line comes back exactly when a bit is set
  just for the fields that are written, which for capitalised vectors means that fields on one bit are present together;
  with nothing behind it the only exception left open is an announced empty vector that another vector follows.
  `TlCodec.PollSolution` shows it at inputMediaPoll (compiler/api/source/main_api.tl:53), where a solution without
  entities, or entities without a solution, never comes back; `TlCodec.LowercaseVectorLost` at a vector spelled with a
  small letter.
- `FileId.EncodeDecodes`: an id comes back exactly when its versions are unsigned and, below major 4, the minor is 0 and a
  photo's thumbnail source is the legacy one; `FileId.VersionsLost` shows ids with other versions.
- `Streaming.CompleteMeansAll`: a transfer that ends normally is complete exactly when its launch was given sessions and
  workers or one chunk was all there was; `Streaming.StarvedTruncates` shows one that ends normally after one chunk of
  two. Settings of at least 1 for pool and workers rule this out: a pool that gets no session raises instead.
- `SplitText.TurnProgresses`: a limit of 0 never gets anywhere on a longer text.
- `HelloParts.GreasePairs`: the comment at pyrogram/crypto/faketls.py:266-267 says that neighbouring GREASE values differ;
  only the pairs (0,1), (2,3) and (4,5) do, and `HelloParts.NeighboursMayRepeat` shows two equal ones.
- `Greeting.GreetingReads`: the comment at pyrogram/crypto/faketls.py:60-61 says that padding hides the domain's length;
  the greeting is always past the padding target, so no padding is written and the length shows the domain's length.

`dafny verify dfyconfig.toml` checks the whole project.

## Model

| member | source | states |
|---|---|---|
| Prime.GcdLoop | pyrogram/crypto/prime.py:38-42 | the loop computes the greatest common divisor, whose defining properties NumberTheory proves |
| Prime.Decompose | pyrogram/crypto/prime.py:45-82 | ends for every pq of at least 2 and every draw; the result is above 1, at most pq and divides pq; for odd pq it is the value the batches give at the first difference that shares a factor |
| Prime.Round | pyrogram/crypto/prime.py:54-72 | one round of doubling length either finds every difference of the round coprime to pq or stops in the batch of the first that is not, with ys at that batch's start |
| Prime.Batch | pyrogram/crypto/prime.py:63-67 | one batch advances y along its orbit and multiplies q by exactly the differences on the way, modulo pq |
| Prime.Advance | pyrogram/crypto/prime.py:57-58 | r turns move y r places along the orbit |
| Prime.Fallback | pyrogram/crypto/prime.py:74-80 | restarted at ys, ends within the batch, at the first difference that shares a factor |
| Prime.BatchedRefinesUnbatched | pyrogram/crypto/prime.py:62-82 | the batched result divides pq, is divisible by the factor an unbatched search shares at the same place, and is pq exactly when that factor is |
| Prime.OrbitCycles | pyrogram/crypto/prime.py:58-66 | every orbit repeats within pq steps |
| Prime.RoundMeets | pyrogram/crypto/prime.py:57-67 | a round at least pq long meets a difference that is 0 |
| Prime.CleanRoundsShort | pyrogram/crypto/prime.py:54-72 | rounds without a shared factor are shorter than pq, so the outer loop ends |
| Prime.FirstSharedExists | pyrogram/crypto/prime.py:54-72 | some round and place shares a factor, for every start |
| Prime.FirstSharedUnique | pyrogram/crypto/prime.py:54-72 | the first such round and place are unique |
| Prime.CleanProduct | pyrogram/crypto/prime.py:67-69 | a product of differences coprime to pq is coprime to pq |
| Prime.Factor | pyrogram/session/auth.py:126-128 | the two numbers formed from the result multiply back to pq, smaller one first |
| Prime.CompositeUnfactored | pyrogram/crypto/prime.py:74-82 | for pq = 9 there are draws whose result is 9 |
| Spans.SurrogateRoundTrip | pyrogram/parser/utils.py:26-37 | removing surrogates undoes adding them exactly for text without surrogates of its own |
| Spans.RemoveSplits | pyrogram/parser/utils.py:35-37 | decodable text stays decodable when cut at an offset that tears no pair |
| Spans.RemoveConcat | pyrogram/parser/utils.py:35-37 | decoding a concatenation is the concatenation of the decodings |
| Spans.ClampToCodePoint | pyrogram/parser/utils.py:48-65 | the loop computes the offset ClampNearest describes |
| Spans.ClampNearest | pyrogram/parser/utils.py:48-65 | a clamped offset tears no pair, stays in bounds, and is the nearest such offset on its side |
| Spans.SortSorted | pyrogram/parser/utils.py:69-81 | the sort orders by start, longer spans first, and keeps every span |
| Spans.SortStable | pyrogram/parser/utils.py:81 | spans with one key keep their order |
| Spans.FindCrossing | pyrogram/parser/utils.py:88-97 | the nested loops find the first crossing pair, or there is none |
| Spans.SplitCrossingSpans | pyrogram/parser/utils.py:68-99 | the loop ends and returns the spans SplitSpansCorrect describes |
| Spans.SplitSpansCorrect | pyrogram/parser/utils.py:85-99 | the result is sorted, no two spans cross, and it refines the clamped entities |
| Spans.PiecesPartition | pyrogram/parser/utils.py:85-99 | every position of an entity's clamped interval lies in exactly one of its pieces, every other position in none |
| Spans.NothingTorn | pyrogram/parser/utils.py:85-99 | no boundary of the result, old or newly cut, lies inside a surrogate pair |
| Spans.SpansInBounds | pyrogram/parser/utils.py:72-99 | entities inside the text give spans inside the text |
| Markup.OpeningReads | pyrogram/parser/html.py:46-109 | which entity the reader opens for the tag the writer emits for each kind, and exactly when that is the kind written, whatever characters count as decimal digits besides 0 to 9 |
| Markup.StyleTags | pyrogram/parser/html.py:50-84 | exactly which tags open bold, italic, underline, strike, code and spoiler |
| Markup.BlockTags | pyrogram/parser/html.py:58-105 | what blockquote, pre, a, emoji and time tags open, by their attributes |
| Markup.OtherTags | pyrogram/parser/html.py:106-107 | no other tag opens anything |
| Markup.LookupLast | pyrogram/parser/html.py:47 | of attributes with one name the last counts |
| Markup.DateFormatExactly | pyrogram/parser/html.py:136-159 | which letters of a date format set which flag |
| Markup.IntRoundTrip | pyrogram/parser/html.py:258-266 | a decimal numeral reads back as its number |
| Markup.MentionRoundTrip | pyrogram/parser/html.py:254-257 | a written mention link is recognised as a mention of that user |
| Markup.LinkReadAsMention | pyrogram/parser/html.py:35-109 | a link with the mention prefix and a digit of any script opens a mention of that number |
| HtmlParser.Parser.HandleStartTag | pyrogram/parser/html.py:46-112 | the method does to the parser's fields what the step function does to its state |
| HtmlParser.CodeInsidePre | pyrogram/parser/html.py:46-109 | a code inside an open pre names its language or does nothing |
| HtmlParser.Parser.HandleDataText | pyrogram/parser/html.py:114-121 | the same for text: every open entity grows by the text's length in code units |
| HtmlParser.Parser.HandleEndTag | pyrogram/parser/html.py:123-133 | the same for an end tag: the latest open entity of the tag is closed |
| HtmlParser.Feed | pyrogram/parser/html.py:169-174 | feeding tokens to a fresh parser is folding the step function |
| HtmlParser.AlwaysConsistent | pyrogram/parser/html.py:109-133 | for any tokens, well nested or not, every open entity reaches the end of the text and every closed one covers exactly the text between its start tag and an end tag |
| HtmlParser.DataSplits | pyrogram/parser/html.py:114-121 | text may arrive in any number of parts |
| HtmlParser.KeepInside | pyrogram/parser/html.py:196-207 | the clipping loop keeps what ClippedInside describes |
| HtmlParser.ClippedInside | pyrogram/parser/html.py:196-207 | kept entities are exactly the clipped ones that are non-empty and inside the message |
| HtmlUnparse.Unparser.Recursive | pyrogram/parser/html.py:272-283 | the recursion appends the tags of the specification and skips exactly the spans it covered |
| HtmlUnparse.Unparser.All | pyrogram/parser/html.py:289-293 | the outer loop leaves the tag list of the specification |
| HtmlUnparse.EmittedBalanced | pyrogram/parser/html.py:272-293 | the tag list is a balanced bracket word whose offsets never decrease |
| HtmlUnparse.Splice | pyrogram/parser/html.py:295-302 | the backward splicing gives the forward concatenation of tags and escaped text |
| HtmlUnparse.SplitWellFormed | pyrogram/parser/html.py:285-293 | the split spans are in the order, and nested as, the recursion needs them |
| HtmlUnparse.Unparse | pyrogram/parser/html.py:215-302 | the whole writer gives the rendering of the token stream, before the final decoding; with readable values the lexer reads it back as those tokens |
| HtmlRender.EscapedText | pyrogram/parser/html.py:298-302 | escaped text holds no `<`, `>` or quote, and unescaping it, whatever follows, gives the text |
| HtmlRender.ValueExactly | pyrogram/parser/html.py:232-266 | a value written between quotes reads back exactly when it has no quote and no character reference in it |
| HtmlRender.KindReadable | pyrogram/parser/html.py:216-270 | every tag of an entity reads back as it was written exactly when its address, language or format does |
| HtmlRender.RenderReads | pyrogram/parser/html.py:216-302 | lexing the written text gives the tokens back, adjacent text joined |
| HtmlRoundTrip.RoundTrip | pyrogram/parser/html.py:272-304 | feeding the writer's tokens to a fresh reader always gives the text back, and exactly the spans if and only if nothing clashes and no link reads as a mention |
| HtmlRoundTrip.CleanRun | pyrogram/parser/html.py:46-133 | without a clash every end tag closes its own start tag and nothing stays open |
| HtmlRoundTrip.ClashingRun | pyrogram/parser/html.py:46-133 | with a clash the entities are not those that were written |
| HtmlRoundTrip.ClosesOnce | pyrogram/parser/html.py:272-283 | every supported span is closed exactly once |
| HtmlTheorems.UnparseDecodes | pyrogram/parser/html.py:285-304 | for text without surrogates of its own and entities inside it, the final decoding cannot raise |
| HtmlTheorems.HtmlComesBack | pyrogram/parser/html.py:169-304 | from text to text: for any text without surrogates and any entities inside it with readable values, what unparse returns can be lexed and parsed, the text comes back, and the pieces of the entities do if and only if nothing clashes and no link reads as a mention |
| HtmlTheorems.EntitiesRoundTrip | pyrogram/parser/html.py:215-304 | the round trip from the caller's entities: the pieces of the split come back if and only if nothing clashes and no link reads as a mention |
| HtmlTheorems.CodeInPreLost | pyrogram/parser/html.py:46-112 | a code inside a pre does not come back |
| HtmlTheorems.LanguagePreInCodeLost | pyrogram/parser/html.py:46-112 | a pre with a language inside a code does not come back |
| HtmlTheorems.MentionLinkLost | pyrogram/parser/html.py:35-109 | a link with a mention's prefix and a digit does not come back as a link |
| HtmlTheorems.ParseKeepsInside | pyrogram/parser/html.py:169-212 | every entity left after clipping is non-empty, inside the message, and part of one that covered its own tags' text |
| Streaming.Budget.constructor | pyrogram/client.py:124-132 | a budget starts with its size of free slots |
| Streaming.ReadAhead.Acquire | pyrogram/client.py:149-151 | held and free change as in the step that takes a slot |
| Streaming.ReadAhead.Release | pyrogram/client.py:153-156 | held and free change as in the steps that release one: their sum is kept and nothing is given back twice |
| Streaming.ReadAhead.ReleaseAll | pyrogram/client.py:158-160 | held and free change as in the step that ends a transfer: every held slot is given back |
| Streaming.EventInv | pyrogram/client.py:1660-1906 | every step of worker, launcher or consumer, of the sequential fetching, and of workers while they are being dropped keeps the transfer's invariant |
| Streaming.AlwaysInv | pyrogram/client.py:1660-1906 | so does every interleaving of steps |
| Streaming.AlwaysPrefix | pyrogram/client.py:1881-1901 | at every moment the chunks handed out are the file's first bytes from the start offset, each chunk once and in order, and free plus held slots is what it was |
| Streaming.CompleteMeansAll | pyrogram/client.py:1727-1906 | a transfer that ends normally, its size known or not, has handed out exactly what was promised if and only if its launch was given sessions and workers or one chunk was all there was |
| Streaming.EndsAs | pyrogram/client.py:1734-1906 | told by the events alone: an error exactly if the first chunk, the launch or a chunk fetched in turn failed or the consumer gave up after a worker had failed; abandoned exactly if it was; any other end is normal |
| Streaming.HandsOut | pyrogram/client.py:1821-1901 | the chunk awaited is handed out next, and the transfer ends normally then exactly if it was short or the last of the limit |
| Streaming.NeverStuck | pyrogram/client.py:1660-1906 | a transfer that has not ended can always take a step of its own that is no failure, unless other transfers hold slots |
| Streaming.StarvedTruncates | pyrogram/client.py:1734-1755 | without sessions, or with no workers configured, a transfer of two chunks ends normally after the first |
| Streaming.PromisedIsFile | pyrogram/client.py:1727-1846 | with the size right or unknown, that is the file up to the limit |
| Streaming.GiveUpComplete | pyrogram/client.py:1887-1888 | when every worker is done and none failed, the chunk waited for does not exist |
| Streaming.HolderProgresses | pyrogram/client.py:1662-1723 | while nothing failed, a transfer that holds a slot has its next needed chunk in flight or received |
| UpdateStates.CoalescedEqualsSequential | pyrogram/client.py:1165-1229 | saving only the coalesced states, in any order, leaves the marks and the stored rows that saving every update in order leaves |
| UpdateStates.PendingDoesAll | pyrogram/client.py:1165-1196 | for every peer the coalesced state does what all its saves do |
| UpdateStates.SavesOf | pyrogram/client.py:1165-1196 | which numbers of an update are saved, for which peer: not those that are missing, zero or only reported as too long |
| UpdateStates.MergePts | pyrogram/client.py:1187-1190 | saving a pending state and one more pts is saving the higher of both |
| UpdateStates.MergeQts | pyrogram/client.py:1193-1196 | the same for qts |
| UpdateStates.MarksRise | pyrogram/client.py:1125-1148 | until a peer is forgotten its marks only rise and end at or above every number saved, under any interleaving |
| UpdateStates.SavesExactly | pyrogram/client.py:1131-1148 | one save changes nothing if every number it gives is below its mark, and otherwise sets mark and row to the numbers that are not, and the row's date and sequence number to those given |
| UpdateStates.ForgetsExactly | pyrogram/client.py:1126-1129 | forgetting takes one peer's mark and row |
| UpdateStates.AlwaysMirrored | pyrogram/client.py:1125-1148 | every marked number is the stored one, under any interleaving |
| UpdateStates.Client.SaveUpdateState | pyrogram/client.py:1131-1148 | the method updates marks and rows as the save function does |
| UpdateStates.Client.ForgetUpdateState | pyrogram/client.py:1126-1129 | an int forgets the peer |
| UpdateStates.Client.SavePending | pyrogram/client.py:1228-1229 | the loop saves every pending state once |
| UpdateStates.Client.HandleUpdates | pyrogram/client.py:1165-1229 | the batching leaves the state of saving every number in order |
| TlPrimitives.IntRoundTrip | pyrogram/raw/core/primitives/int.py:31-60 | signed integers of any width read back, followed by any bytes |
| TlPrimitives.WideRoundTrip | pyrogram/raw/core/primitives/int.py:56-69 | the wide integers, whose reading takes what is there, read back too |
| TlPrimitives.WideAtEnd | pyrogram/raw/core/primitives/int.py:53-69 | at the end of the data a wide number is read from what is there |
| TlPrimitives.BytesRoundTrip | pyrogram/raw/core/primitives/bytes.py:25-56 | the length-prefixed, padded layout reads back, on both sides of 253 bytes |
| TlPrimitives.Layouts | pyrogram/raw/core/primitives/int.py:31-40 | numbers, booleans and short bytes on examples, byte by byte |
| TlPrimitives.LongLayout | pyrogram/raw/core/primitives/bytes.py:49-56 | the bytes of a value of 254 bytes or more |
| TlPrimitives.TestSetBit | compiler/api/compiler.py:563-566 | setting a bit of a word sets that bit and no other |
| TlCodec.WordBits | compiler/api/compiler.py:550-572 | a bit of the flags word is set exactly when some argument on it sets it |
| TlCodec.ReadWrite | compiler/api/compiler.py:545-634 | for every schema and every object whose fields agree with its flags, the reader applied to the writer's bytes and any suffix gives the object and the suffix |
| TlCodec.TogetherAgrees | compiler/api/compiler.py:556-566 | with capitalised vectors, fields agree with their flags exactly when those on one bit are present together |
| TlCodec.ReadWriteExactly | compiler/api/compiler.py:545-634 | for every schema line and object: if fields agree with their bits it comes back, and if it comes back they agree, unless nothing follows it and an announced empty vector is followed by another vector; with capitalised vectors agreeing is being present together |
| TlCodec.ObjectReadsWrongly | compiler/api/compiler.py:574-603 | an object whose first disagreeing field is any kind of field, a vector included, does not come back when anything follows it, and when nothing does only if the field is a vector and the bytes behind it begin with the vector id |
| TlCodec.ReadsFieldWrongly | compiler/api/compiler.py:574-603 | a field that is announced and not written is read back as it was only if it is a vector and an empty vector follows, which is swallowed |
| TlCodec.FieldsTake | compiler/api/compiler.py:574-634 | whatever bytes read as an object's fields, with something left over, are at least as many as the writer would have used |
| TlCodec.PollSolution | compiler/api/source/main_api.tl:53 | a poll comes back, whatever follows it, if and only if it has a solution exactly when it has solution entities |
| TlCodec.LowercaseVectorLost | compiler/api/compiler.py:563-596 | an empty flagged vector spelled with a small letter is announced but not written, and reading fails |
| TlCodec.ReadsVector | compiler/api/compiler.py:585-596 | vectors of core types and of objects read back with the suffix untouched |
| TlCodec.BareVector | pyrogram/raw/core/primitives/vector.py:33-68 | a vector of numbers read without its type comes back by the size of what is there |
| FilePart.SameAsGenerated | pyrogram/session/session.py:49-68 | the hand-written serialization of both file part requests is byte for byte the generated writer's |
| SortArgs.SortArgs | compiler/api/compiler.py:150-162 | removing by value leaves the required arguments in order, followed by the optional ones in order |
| SortArgs.NothingLost | compiler/api/compiler.py:150-162 | no argument is lost or doubled but the flags words |
| IdEncoding.RleEncodeLoop | pyrogram/file_id.py:57-83 | the loop computes the run-length coding, or fails on a run too long for a byte |
| IdEncoding.RleDecodeLoop | pyrogram/file_id.py:86-110 | the loop computes the expansion |
| IdEncoding.RleRoundTrip | pyrogram/file_id.py:57-110 | encoding succeeds exactly when no 256 zeros stand in a row, and decoding undoes it |
| IdEncoding.B64RoundTrip | pyrogram/file_id.py:31-54 | unpadded base64url decodes to what was encoded, for all bytes, and uses alphabet characters only |
| FileId.PackUnpack | pyrogram/file_id.py:230-263 | packed fields of any widths unpack to their values with the rest untouched |
| FileId.FieldsDecode | pyrogram/file_id.py:214-426 | every variant's fields are read back whatever follows them |
| FileId.RawDecodes | pyrogram/file_id.py:214-426 | the raw record reads back as the fields its variant carries exactly under the stated versions |
| FileId.EncodeDecodes | pyrogram/file_id.py:214-426 | encoding succeeds exactly when the variant's fields are there, fit and give no long zero run, and decoding then gives them back exactly under the stated versions |
| FileId.RawLayout | pyrogram/file_id.py:348-426 | the record byte for byte: flagged type, data centre, reference, ids, what the kind adds, versions |
| FileId.KindLayout | pyrogram/file_id.py:365-421 | what a document and what a photo of any of the five types adds, byte for byte |
| FileId.UnknownRefused | pyrogram/file_id.py:214-275 | a file type or a thumbnail source outside the enumerations is refused |
| FileId.VersionsLost | pyrogram/file_id.py:214-426 | an id encoded with a negative version, or with a minor version below major 4, does not come back |
| Srp.SecretsAgree | pyrogram/utils.py:619-645 | the client's secret equals the server's for all secrets, salts, multipliers and any positive modulus |
| Srp.Unmasked | pyrogram/utils.py:641 | taking the masked verifier off the server's value leaves g to its secret |
| Srp.BtoiItob | pyrogram/utils.py:574-579 | big-endian bytes read back as their number |
| Srp.BigEndian | pyrogram/utils.py:574-580 | the first byte counts most |
| Srp.HashesOver | pyrogram/utils.py:582-657 | each hash of the exchange is over its own inputs, in this order |
| Srp.ComputePasswordCheck | pyrogram/utils.py:602-659 | the loop takes the first draw with a scrambler above zero, and the proof is the one the server expects from its verifier alone |
| SplitText.Split | pyrogram/utils.py:746-779 | the loop ends and returns the chunks of the cuts PiecesRight describes |
| SplitText.PiecesRight | pyrogram/utils.py:756-777 | chunks and dropped separators give back the text, and every cut is where it should be: at the window's last newline, else its last space past the middle, else at the limit |
| SplitText.WellCutUnique | pyrogram/utils.py:756-777 | there is only one way to cut a text so |
| SplitText.SplitKeeps | pyrogram/utils.py:746-779 | no chunk of a long text is empty or over the limit, and only newlines and spaces are dropped, at most one per chunk |
| SplitText.TurnProgresses | pyrogram/utils.py:760-775 | a turn shortens the text exactly when the limit is positive |
| RateLimiter.RefillTwice | pyrogram/methods/rate_limiter.py:47-51 | a refill in between changes nothing a later one shows |
| RateLimiter.RunBounded | pyrogram/methods/rate_limiter.py:47-59 | over any run tokens stay within the burst and what was taken is at most what was there plus the integral of the rate |
| RateLimiter.IntervalBound | pyrogram/methods/rate_limiter.py:33-59 | in any interval, wherever it lies between refills, at most the burst plus the integral of the rate, and burst plus ceiling times the time |
| RateLimiter.WaitExact | pyrogram/methods/rate_limiter.py:61-65 | for an amount within the burst the tokens are there from the end of the wait on and not before |
| RateLimiter.SecondReadingServes | pyrogram/methods/rate_limiter.py:73-82 | after a sleep as long as asked for the amount is there |
| RateLimiter.TokenBucket.RefillNow | pyrogram/methods/rate_limiter.py:47-51 | the method refills as the function says |
| RateLimiter.TokenBucket.RetuneTo | pyrogram/methods/rate_limiter.py:37-40 | the rate setter refills at the old rate first |
| RateLimiter.TokenBucket.Available | pyrogram/methods/rate_limiter.py:42-45 | the reading is the refilled amount |
| RateLimiter.TokenBucket.TryConsume | pyrogram/methods/rate_limiter.py:53-59 | takes the amount exactly when it is there |
| RateLimiter.TokenBucket.Acquire | pyrogram/methods/rate_limiter.py:67-82 | takes at the first clock reading at which the amount is there |
| RateLimiter.CallsAreEvents | pyrogram/methods/rate_limiter.py:108-119 | successes and floods are rate changes that never leave the ceiling, also for a rate that started under its floor |
| RateLimiter.AdaptiveBound | pyrogram/methods/rate_limiter.py:90-119 | wherever the rate started below the ceiling: in any interval at most burst plus ceiling times the time, the rate never below the lower of floor and start nor over the ceiling, and rising above the higher of floor and start by at most a step a second |
| RateLimiter.FloodSlows | pyrogram/methods/rate_limiter.py:114-119 | a flood a second or more after the last slows down to the backed-off rate or the floor, any other changes nothing |
| RateLimiter.SuccessSpeeds | pyrogram/methods/rate_limiter.py:108-112 | a success speeds up by a step or to the ceiling exactly when a second has passed since the last change and two since the last flood |
| RateLimiter.RateLimiter.constructor | pyrogram/methods/rate_limiter.py:139-158 | a full bucket for every configured category and the global one |
| RateLimiter.ConfiguredExactly | pyrogram/methods/rate_limiter.py:152-156 | every category but the global one has a full bucket with what was last configured for it |
| RateLimiter.RateLimiter.AcquireNowait | pyrogram/methods/rate_limiter.py:168-183 | the method changes both buckets as the function says, others not at all |
| RateLimiter.RateLimiter.UpdateLimits | pyrogram/methods/rate_limiter.py:206-218 | replaces one bucket by the renewed one |
| RateLimiter.GrantedByBoth | pyrogram/methods/rate_limiter.py:168-183 | granted exactly when both buckets have the amount, and then both give it |
| RateLimiter.LeavesExactly | pyrogram/methods/rate_limiter.py:168-183 | what a granted call, a refusal by either bucket, and a call once closed leave in every bucket |
| RateLimiter.RefusedLeavesNoTrace | pyrogram/methods/rate_limiter.py:168-183 | a refused call changes no later reading of any bucket |
| RateLimiter.AlikeRuns | pyrogram/methods/rate_limiter.py:168-183 | buckets no reading tells apart behave alike in every later run |
| RateLimiter.ReplacedGivesNothing | pyrogram/methods/rate_limiter.py:206-218 | new limits hand out no tokens and keep the total |
| RateLimiter.UpdatesExactly | pyrogram/methods/rate_limiter.py:206-218 | the new bucket has the new rate and burst, the old tokens up to the burst and the old total, or is full; no other bucket changes |
| ReplayWindow.Bisect | pyrogram/session/session.py:493 | the binary search finds the place before or behind equal elements |
| ReplayWindow.Session.Receive | pyrogram/session/session.py:477-529 | the locked section does to the session's fields what the step function says |
| ReplayWindow.HandleRefines | pyrogram/session/session.py:477-529 | the window's verdict is the unbounded set's except at and below the floor; a fresh id above the floor is refused only for its clock; the window stays sorted, without repetition, at most 2001 long and above the floor |
| ReplayWindow.VerdictExactly | pyrogram/session/session.py:477-529 | refused as a replay exactly if the id is in the window or not above its floor; otherwise accepted exactly if it is the first, a notification, or from 300 seconds behind the clock to 30 ahead |
| ReplayWindow.LeftBehind | pyrogram/session/session.py:480-529 | what each verdict leaves in window, floor, breach counter and clock |
| ReplayWindow.BreachesCount | pyrogram/session/session.py:508-528 | over any run the counter is the number of skewed messages since the last accepted one, modulo three |
| ReplayWindow.EveryThirdSkewSyncs | pyrogram/session/session.py:508-524 | a skewed message moves the clock exactly if it is the third since the last accepted one, and a fresh id of its second is then accepted |
| ReplayWindow.RunRefines | pyrogram/session/session.py:477-529 | over any run no id is accepted twice and the floor never falls |
| ReplayWindow.NoReplayEver | pyrogram/session/session.py:477-529 | the same from a reset session |
| ReplayWindow.ThirdBreachSyncs | pyrogram/session/session.py:508-524 | the third breach moves the clock to the message's, and an id of that second is then in step |
| Invoke.Run | pyrogram/session/session.py:831-888 | the loop ends at the first answer that ends it, and never by running out of retries |
| Invoke.GoingOn | pyrogram/session/session.py:831-888 | while it goes on: fewer failures than tries, no flood over the threshold, all floods within ten thresholds |
| Invoke.GivenUp | pyrogram/session/session.py:831-888 | floods of a second or more and failures are given up after a bounded number of sends |
| Invoke.EndsExactly | pyrogram/session/session.py:831-888 | an answer is the last exactly if it is the result or no answer to retry, completes the tries, or is a flood over the threshold or over ten times it with those before |
| FakeTls.Shuffled | pyrogram/crypto/faketls.py:337-344 | the in-place swaps compute the shuffle of the draws |
| FakeTls.ShuffleKeeps | pyrogram/crypto/faketls.py:337-344 | a shuffle keeps every part |
| FakeTls.EveryOrder | pyrogram/crypto/faketls.py:337-344 | every order of the parts, and nothing else, is some draw's shuffle |
| FakeTls.HelloWriter.WriteOp | pyrogram/crypto/faketls.py:361-408 | the method writes one op as the specification says |
| FakeTls.HelloWriter.CloseScope | pyrogram/crypto/faketls.py:410-414 | patches the size into the reserved bytes, or fails |
| FakeTls.HelloWriter.WritePermutation | pyrogram/crypto/faketls.py:416-426 | each part by a writer of its own, then the shuffle |
| FakeTls.HelloWriter.PadOut | pyrogram/crypto/faketls.py:428-440 | pads up to the target, or writes nothing beyond it |
| FakeTls.HelloWriter.RenderOps | pyrogram/crypto/faketls.py:355-359 | the loop renders the op list |
| FakeTls.ClosesScope | pyrogram/crypto/faketls.py:391-414 | opening, filling and closing a scope appends its contents behind their size |
| FakeTls.RenderMatches | pyrogram/crypto/faketls.py:355-426 | from any state the back-patching writer reaches what the recursive encoder reaches, and fails exactly when it fails |
| FakeTls.PatchingIsRecursion | pyrogram/crypto/faketls.py:355-440 | rendering a balanced op list is recursive encoding |
| HelloParts.GenerateGrease | pyrogram/crypto/faketls.py:256-272 | every value the loops leave |
| HelloParts.GreasePairs | pyrogram/crypto/faketls.py:263-270 | every value is a GREASE byte; pairs differ, and values across pairs coincide exactly when the later draw's high nibble is the earlier's, flipped if the earlier pair drew one nibble twice |
| HelloParts.NeighboursMayRepeat | pyrogram/crypto/faketls.py:266-270 | draws for which two neighbours are equal |
| HelloParts.PackAll | pyrogram/crypto/faketls.py:317-334 | the loop packs all pairs and appends the seed |
| HelloParts.UnpackPacked | pyrogram/crypto/faketls.py:324-331 | twelve bits at a time the key unpacks to the drawn numbers modulo 3329 |
| ClientHello.ExtensionsRead | pyrogram/crypto/faketls.py:185-246 | a block of extensions parses to exactly those extensions |
| ClientHello.EncodesScope | pyrogram/crypto/faketls.py:410-414 | a scope in an op list encodes to its contents behind their size |
| Greeting.KeySharePart | pyrogram/crypto/faketls.py:222-230 | the lengths written out by hand around the key shares are right |
| Greeting.EncryptedHelloPart | pyrogram/crypto/faketls.py:232-243 | the encrypted-hello part is the extension it is meant to be |
| Greeting.EveryPart | pyrogram/crypto/faketls.py:185-246 | every part of the permutation is the extension it is meant to be, written lengths included |
| Greeting.OpsClose | pyrogram/crypto/faketls.py:157-253 | the op list closes every scope it opens |
| Greeting.GreetingReads | pyrogram/crypto/faketls.py:157-253 | for every domain, draw and order: one record with one ClientHello that parses to the drawn fields and the meant extensions, the random at bytes 11 to 43, and a length that is the domain's and the payload's plus a constant |
| Greeting.ServerNameReads | pyrogram/crypto/faketls.py:187-197 | the server name extension names the domain and nothing else |
| Greeting.StampInPlace | pyrogram/crypto/faketls.py:457-461 | the loop mixes the clock into the last four bytes |
| Greeting.BuildClientHello | pyrogram/crypto/faketls.py:448-465 | the record is the greeting with its random field replaced by the stamped code |
| Greeting.ProxyReads | pyrogram/crypto/faketls.py:454-465 | with the random field zeroed again, the code's first 28 bytes match and the rest give back the clock modulo 2^32 |
| WriteQueue.VictimPolicy | pyrogram/storage/hybrid_storage.py:181-207 | a session or state write is evicted only when nothing droppable is queued, and then the oldest; the rest stay in order |
| WriteQueue.TakenIn | pyrogram/storage/hybrid_storage.py:168-207 | an open queue puts a write last, and drops one counted victim exactly when it was full; a closed one takes nothing |
| WriteQueue.Answered | pyrogram/storage/hybrid_storage.py:225-242 | a write the backend took is applied; a failed one goes to the tail, and is given up exactly when there is no room |
| WriteQueue.WriterEnds | pyrogram/storage/hybrid_storage.py:217-310 | the oldest write is taken, the sentinel ends the writer, and what is left at the end is lost, counted or not |
| WriteQueue.FirstDelivered | pyrogram/storage/hybrid_storage.py:168-231 | the first write of all is taken and reaches the backend |
| WriteQueue.AcceptsAll | pyrogram/storage/hybrid_storage.py:168-179 | over any run exactly the writes that come in before the first close are accepted, in order |
| WriteQueue.FlushDelivers | pyrogram/storage/hybrid_storage.py:257-268 | with no failure and nothing lost, a finished flush means that the backend has every write that came in, in order |
| WriteQueue.StepInv | pyrogram/storage/hybrid_storage.py:168-242 | every step keeps: unfinished is queued plus in flight, the queue is within its bound, if it has one, and every accepted write is exactly one of applied, given up, queued or in flight |
| WriteQueue.AlwaysConserved | pyrogram/storage/hybrid_storage.py:168-242 | under every interleaving |
| WriteQueue.FlushMeansSettled | pyrogram/storage/hybrid_storage.py:257-268 | nothing unfinished means every accepted write was applied or given up |
| WriteQueue.RunInOrder | pyrogram/storage/hybrid_storage.py:168-242 | while the backend never fails, what is applied is a subsequence of what was accepted |
| WriteQueue.FlushedInOrder | pyrogram/storage/hybrid_storage.py:257-268 | and if nothing was given up, a finished flush means the backend has every write in order |
| WriteQueue.HybridStorage.Add | pyrogram/storage/hybrid_storage.py:168-179 | the method takes a write in as the step says: last, behind the old queue or the old queue less its victim when that was full |
| WriteQueue.HybridStorage.MakeRoom | pyrogram/storage/hybrid_storage.py:181-207 | drains, finds the victim and puts the rest back, checking each item off once |
| WriteQueue.HybridStorage.FindVictim | pyrogram/storage/hybrid_storage.py:198 | the search finds the oldest droppable write, or the oldest |
| WriteQueue.HybridStorage.TakeNext | pyrogram/storage/hybrid_storage.py:217-223 | the writer takes the oldest write, or ends on the sentinel |
| WriteQueue.HybridStorage.Finish | pyrogram/storage/hybrid_storage.py:225-242 | a failed write goes back to the tail if there is room |
| WriteQueue.HybridStorage.Drain | pyrogram/storage/hybrid_storage.py:337-349 | empties the queue and counts every write but not the sentinel |
| WriteQueue.HybridStorage.Shut | pyrogram/storage/hybrid_storage.py:295-310 | what is left at the end is counted as lost |
| Dispatcher.AddKeeps | pyrogram/dispatcher.py:514-533 | groups stay sorted and without repetition; the handler goes last in its group unless it was there; no other group changes |
| Dispatcher.TakeKeeps | pyrogram/dispatcher.py:535-556 | removing fails exactly for a handler its group does not have, and takes an emptied group with it |
| Dispatcher.AddThenRemove | pyrogram/dispatcher.py:514-556 | removing a handler just added gives the groups back |
| Dispatcher.Dispatch.AddHandler | pyrogram/dispatcher.py:524-531 | the method edits the groups as the function says |
| Dispatcher.Dispatch.RemoveHandler | pyrogram/dispatcher.py:548-554 | the same for removing |
| Dispatcher.Dispatch.Handle | pyrogram/dispatcher.py:642-691 | the group loop makes the callbacks of the recursive specification |
| Dispatcher.Dispatch.HandleGroup | pyrogram/dispatcher.py:643-687 | the handler loop makes those of one group |
| Dispatcher.Dispatch.HandleException | pyrogram/dispatcher.py:693-743 | the calls are those of the matching error handlers, and the failure counts as dealt with exactly when one called did not raise |
| Dispatcher.GroupReaches | pyrogram/dispatcher.py:643-687 | in a group exactly the eligible handlers up to the first that does not pass on run, and propagation stops exactly when that one says so |
| Dispatcher.GroupsReach | pyrogram/dispatcher.py:639-689 | groups go in order up to the first that stops, and nothing runs after it |
| Dispatcher.UnhandledMeansAllRaised | pyrogram/dispatcher.py:693-743 | a failure counts as dealt with exactly when some error handler that was called did not raise in turn |
| Dispatcher.FailureReaches | pyrogram/dispatcher.py:704-738 | a failure calls exactly the matching error handlers of each group up to the first that does not pass it on, group by group up to the first that stops |
| Dispatcher.UpdateTraced | pyrogram/dispatcher.py:639-691 | all callbacks of one update: those of the handlers reached, each followed by those its failure leads to |
| Coverage.RequiredTypes | compiler/botapi/coverage.py:638-669 | the worklist ends with exactly the known types reachable from the roots |
| Coverage.InheritedParams | compiler/botapi/coverage.py:452-468 | own parameters and exactly those of every known class above |
| Coverage.DerivesFromObject | compiler/botapi/coverage.py:470-489 | true exactly when a class of that name is reachable, known or not |

## Left out

- Prime.Decompose: random draws are arguments in the drawn range; pq = 1, for which drawing raises, cannot be passed.
- Markup.OpeningReads: `int()` is modelled on plain signed decimals, without blanks or underscores. A valueless attribute reads as empty text; in the source a valueless `href`, or a valueless `class` inside an open pre, raises.
- HtmlParser.Feed: tokens are start tag, text and end tag; comments and declarations are not part of the model.
- HtmlRender.RenderReads: the lexer stands in for the tokenizer of the standard library on lower-case tags with values in double quotes; besides the five character references the writer uses, any table of references that begin with an ampersand and are no shorter than what they stand for.
- HtmlTheorems.ParseKeepsInside: the resolution of mentioned users, which may drop an entity, and the final sort by offset are not modelled.
- Streaming.EventInv: write mode, CDN redirects, pacing, floods and progress reports are not modelled; the file does not change while it is read.
- UpdateStates.Client.HandleUpdates: fetching peers, the recovery of a channel that is too long and the hand-over to the dispatcher are not modelled; storage writes take effect in call order.
- TlCodec.ReadWrite: text is bytes already, a double is its eight bytes, vectors of vectors and legacy constructor ids are not modelled.
- TlCodec.ReadWriteExactly: whether an object can come back by accident when nothing follows it and an announced empty vector is followed by another vector is left open; reading past the end gives short values there.
- FileId.EncodeDecodes: ids with a web location, whose writer and reader use different layouts, and unique ids are not modelled.
- Srp.ComputePasswordCheck: the hashes are arbitrary functions, and the byte width is a parameter where the source has 256.
- SplitText.Split: the limit is at least 1; with 0 the source does not return.
- RateLimiter.TokenBucket.Acquire: the lock that serialises waiters is not modelled; reals do not round.
- RateLimiter.RateLimiter.constructor: categories come resolved; the merging of defaults is not modelled.
- ReplayWindow.Session.Receive: acknowledgements, salts and results, which are handled outside the window's lock, are not modelled.
- Invoke.Run: waiting for the session, sleeping and restarting between retries are not modelled.
- Greeting.GreetingReads: key shares are any 32 bytes; the drawing of a point on the curve is not modelled. The domain and the payload together are at most 63968 bytes, as the two-byte sizes demand.
- WriteQueue.HybridStorage.MakeRoom: what a write does inside the backend is not modelled.
- WriteQueue.HybridStorage.Shut: the cancelled writer's last act is taken together with the draining.
- Dispatcher.Dispatch.Handle: the groups do not change while an update is dispatched; workers, locks and listeners' waits are not modelled.
- Dispatcher.Dispatch.RemoveHandler: an unknown group is ignored, as outside an event loop; inside one the source logs an error, and the groups stay the same too.
- Coverage.RequiredTypes: reading the specification and naming the roots are not modelled.
- The Markdown parser, plugin loading, the login dialogue, filters, enumerations, documentation and error compilers, storage drivers and cryptographic primitives would add easy members or foreign code.
- Relief workers of the dispatcher leave their set only in a later callback, so no step invariant is stated for them.
