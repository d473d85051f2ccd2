# Token buffer: expanded tokens, spelled tokens and the records between them

This project models, in Dafny, the token-mapping engine of clang's syntax
library (`clang/lib/Tooling/Syntax/Tokens.cpp`). The engine relates the
preprocessor's **expanded** token stream to each file's **spelled**
(raw-lexed) tokens. It does this with per-file mapping records: four indices
`[beginSpelled, endSpelled)` into the file's spelled tokens and
`[beginExpanded, endExpanded)` into the expanded stream. Every stretch that
no record covers corresponds one token for one token.

The model has three parts, one module each, on top of small shared modules:

- `Recorder` (recorder.dfy): the live recorder attached to a preprocessing
  pass. The token watcher appends every non-annotation token to the
  expanded stream. The macro-expansion callback keeps only top-level
  expansions: their end is a file location strictly after the last kept
  end. `Disable` detaches it. `Replay` runs a sequence of callbacks.
- `Builder` (builder.dfy): the offline pass that builds the buffer.
  `BuildSpelledTokens` discovers every file and its slice of the expanded
  stream. `Discard` skips spelled tokens that expanded to nothing.
  `Advance` consumes one run of expanded tokens. `Build` interleaves the
  two with one expanded cursor and one spelled cursor per file, then drains
  every file to its end.
- `Queries` (queries.dfy): the read-only lookups on a built buffer. Most
  are a partition-point search (`Search.PartitionPoint`, a binary search)
  followed by index arithmetic. `MacroExpansions` is one linear pass over a
  file's records, and `SpelledIdentifierTouching` looks through the at most
  two touching tokens.

Shared modules: `Wrappers` (Option, Result), `Locations` (file and macro
locations, raw location order), `Tokens` (tokens, file ranges), `Search`
(partition point) and `Buffer` (records, files, the buffer and its
well-formedness).

Locations are abstracted. A location is `FileLoc(pos)` or `MacroLoc(id,
pos)`, where `pos` is a file position `(file, offset)`. For a macro location
`pos` is its expansion location, so `getExpansionLoc` and `getFileID` are
field reads. The raw `<` and `<=` that the source applies to locations of
one file are the order of offsets within a file. `isBeforeInTranslationUnit`
is a parameter `before` of the members that use it; lemmas state the order
properties they need (transitive, strict and total). The source manager's
raw lexer and file sizes are a `Sources` parameter of the builder; a file's
spelled tokens are the raw lexer's output as `tokenize` stores it
(`Sources.Tokenize`, through `Tokens.StoreLexed`). The builder asks that the
lexer yields only file locations (`Builder.Lexed`), as the raw lexer does;
`Token::range` asserts the same of spelled tokens (Tokens.cpp:57).

Results that the source returns as pointers or array slices are indices
here: a `Span` of expanded tokens, a `SpelledSlice` of one file's spelled
tokens, or an index into a file's spelled tokens.

## Model

| member | source | states |
|---|---|---|
| Tokens.RangeFromOffsets | gnu/llvm/clang/lib/Tooling/Syntax/Tokens.cpp:78-82 | A file range built from two ordered offsets lies in the given file, begins at the first offset, is valid and covers exactly the offsets between them. |
| Tokens.RangeFromLength | gnu/llvm/clang/lib/Tooling/Syntax/Tokens.cpp:84-91 | A range from a file location and a length starts at that location's offset, in its file, and is `length` bytes long. |
| Tokens.RangeBetween | gnu/llvm/clang/lib/Tooling/Syntax/Tokens.cpp:92-103 | A range between two file locations of one file, given in order, lies in their file, begins at the first one's offset and covers exactly the offsets from the first up to the second. |
| Tokens.TokenRange | gnu/llvm/clang/lib/Tooling/Syntax/Tokens.cpp:56-62 | A spelled token's range lies in the token's file, begins at its offset, covers exactly the bytes from its start to its end, and its length is the token's length. |
| Tokens.TokensRange | gnu/llvm/clang/lib/Tooling/Syntax/Tokens.cpp:64-72 | The range of two ordered tokens of one file lies in their file, begins at the first one's start and ends at the last one's end, so it contains both tokens' ranges and nothing outside them. |
| Tokens.StoreLexed | gnu/llvm/clang/lib/Tooling/Syntax/Tokens.cpp:313-320 | The lexer's final token is dropped exactly when it is the end-of-file token; nothing else changes. When the lexer yields that token only last, no stored token is an end-of-file token. |
| Search.PartitionPoint | gnu/llvm/clang/lib/Tooling/Syntax/Tokens.cpp:125-132 | On a sequence where a predicate holds on a prefix, the result is the length of that prefix. |
| Search.PartitionPointUnique | gnu/llvm/clang/lib/Tooling/Syntax/Tokens.cpp:158-160 | Any index that splits the sequence into a holding prefix and a failing suffix is the partition point. |
| Buffer.OrderedPairwise | gnu/llvm/clang/lib/Tooling/Syntax/Tokens.cpp:158-166 | Records ordered neighbour by neighbour do not overlap at all, so the last record starting at or before a token is the only one that can hold it. |
| Queries.ExpandedTokensIn | gnu/llvm/clang/lib/Tooling/Syntax/Tokens.cpp:122-136 | An invalid range gives no tokens; otherwise an expanded token is in the result exactly when it is neither before the range's begin nor after its end. |
| Queries.ExpandedTokensReversed | gnu/llvm/clang/lib/Tooling/Syntax/Tokens.cpp:133-134 | A range whose end comes before its begin selects no tokens. |
| Queries.SpelledForExpandedToken | gnu/llvm/clang/lib/Tooling/Syntax/Tokens.cpp:158-176 | With no record starting at or before the token, the answer is its offset from the file's slice start. Inside a record, it is that record's first spelled token and the record. After a record, it counts on from that record's end. A record is returned exactly when one contains the token. |
| Queries.SpelledForExpandedTokenIsWalk | gnu/llvm/clang/lib/Tooling/Syntax/Tokens.cpp:157-176 | The binary search agrees with walking the records in order and counting one for one from the last known correspondence. |
| Queries.SpelledForExpandedTokenIdentity | gnu/llvm/clang/lib/Tooling/Syntax/Tokens.cpp:162-165 | In a file with no records each expanded token maps to the spelled token at the same offset within the file. |
| Queries.SpelledForExpanded | gnu/llvm/clang/lib/Tooling/Syntax/Tokens.cpp:190-229 | There is an answer exactly when the range is non-empty, both ends lie in one file, and no record of that file straddles the range's begin or its end. An answer lies in that file. An end outside every record maps to that token's own spelled token, one past it at the end. |
| Queries.BeginCutByHit | gnu/llvm/clang/lib/Tooling/Syntax/Tokens.cpp:216-220 | The record found for a range's first token starts before it exactly when some record straddles the range's begin. |
| Queries.EndCutByHit | gnu/llvm/clang/lib/Tooling/Syntax/Tokens.cpp:221-222 | The record found for a range's last token runs past the range exactly when some record straddles the range's end. |
| Queries.SpelledForExpandedRejectsBeginCut | gnu/llvm/clang/lib/Tooling/Syntax/Tokens.cpp:216-220 | A range that begins strictly inside a macro expansion's output has no answer. |
| Queries.SpelledForExpandedRejectsEndCut | gnu/llvm/clang/lib/Tooling/Syntax/Tokens.cpp:221-222 | A range that stops strictly inside a macro expansion's output has no answer. |
| Queries.SpelledForExpandedWidens | gnu/llvm/clang/lib/Tooling/Syntax/Tokens.cpp:224-228 | An answered range starts and ends on record boundaries, and its spelled form begins at the first record's first spelled token and ends after the last record's last spelled token. |
| Queries.SpelledForWholeExpansion | gnu/llvm/clang/lib/Tooling/Syntax/Tokens.cpp:199-228 | Asking for exactly one expansion's output gives exactly that invocation's spelled tokens. |
| Queries.SpelledForExpandedIdentity | gnu/llvm/clang/lib/Tooling/Syntax/Tokens.cpp:224-228 | In a file with no records an expanded range maps to the spelled range at the same offsets within the file. |
| Queries.ExpansionStartingAt | gnu/llvm/clang/lib/Tooling/Syntax/Tokens.cpp:242-254 | There is an answer exactly when some record begins at the spelled token; it is that record's spelled and expanded tokens. |
| Queries.NoExpansionStartsMidInvocation | gnu/llvm/clang/lib/Tooling/Syntax/Tokens.cpp:243-247 | A spelled token strictly inside a macro invocation starts no expansion. |
| Queries.SpelledTokensTouching | gnu/llvm/clang/lib/Tooling/Syntax/Tokens.cpp:257-269 | The result is a contiguous run of at most two spelled tokens. A token is in it exactly when it is the first token not before the location and starts there, or the last token before it and ends at or after it. |
| Queries.TouchingInsideToken | gnu/llvm/clang/lib/Tooling/Syntax/Tokens.cpp:263-268 | A location strictly inside a token touches only that token. |
| Queries.TouchingBoundary | gnu/llvm/clang/lib/Tooling/Syntax/Tokens.cpp:263-268 | The boundary between two adjacent tokens touches both. |
| Queries.SpelledIdentifierTouching | gnu/llvm/clang/lib/Tooling/Syntax/Tokens.cpp:271-279 | The result is a touching identifier with no touching identifier before it; there is no result exactly when no touching token is an identifier. |
| Queries.MacroExpansions | gnu/llvm/clang/lib/Tooling/Syntax/Tokens.cpp:281-294 | A spelled token is listed exactly when some record begins at it and it is an identifier. There is one entry per such record, and over ordered records the entries never go backwards. |
| Queries.IdentifierStartsCount | gnu/llvm/clang/lib/Tooling/Syntax/Tokens.cpp:288-292 | The pass over the records yields exactly one entry per record whose first spelled token is an identifier. |
| Queries.IdentifierStartsSorted | gnu/llvm/clang/lib/Tooling/Syntax/Tokens.cpp:288-292 | Over records whose first spelled tokens rise, the entries come out in spelled order, none before the first record's start. |
| Recorder.Disable | gnu/llvm/clang/lib/Tooling/Syntax/Tokens.cpp:329-332 | Detaching keeps the captured tokens and expansions and leaves the recorder detached. |
| Recorder.OnToken | gnu/llvm/clang/lib/Tooling/Syntax/Tokens.cpp:395-406 | While attached, a non-annotation token is appended to the expanded stream; an annotation token, or any token once detached, changes nothing. |
| Recorder.MacroExpands | gnu/llvm/clang/lib/Tooling/Syntax/Tokens.cpp:334-372 | Detached, a non-file end, or an end not strictly after the last kept end: nothing changes. Otherwise the end is filed under the begin's expansion location, other entries stay, and it becomes the last kept end. The last kept end only ever moves forward. |
| Recorder.MacroExpandsKeepsEndsBounded | gnu/llvm/clang/lib/Tooling/Syntax/Tokens.cpp:355-371 | Every recorded end is at or before the last kept end, before and after each event. |
| Recorder.ReplayDetached | gnu/llvm/clang/lib/Tooling/Syntax/Tokens.cpp:329-337 | Once detached, no sequence of events changes the recorder. |
| Recorder.ReplayKeepsEndsBounded | gnu/llvm/clang/lib/Tooling/Syntax/Tokens.cpp:355-371 | The bound on recorded ends holds after any sequence of events. |
| Recorder.ReplayCollectsTokens | gnu/llvm/clang/lib/Tooling/Syntax/Tokens.cpp:395-406 | While attached, the expanded stream grows by exactly the non-annotation tokens seen, in order. |
| Recorder.ReplayFromStart | gnu/llvm/clang/lib/Tooling/Syntax/Tokens.cpp:329-406 | A freshly attached recorder keeps every recorded end at or before the last kept end through any events, and until detached its expanded stream is exactly the non-annotation tokens seen. |
| Builder.DiscoverOneKeeps | gnu/llvm/clang/lib/Tooling/Syntax/Tokens.cpp:567-581 | Looking at one more expanded token keeps every file's slice exact: it begins at the file's first token and ends after its last one, leaving out the end-of-input token. |
| Builder.BuildSpelledTokens | gnu/llvm/clang/lib/Tooling/Syntax/Tokens.cpp:566-582 | Every file that owns an expanded token is found once, lexed, has no records yet and has its exact slice. |
| Builder.Discard | gnu/llvm/clang/lib/Tooling/Syntax/Tokens.cpp:460-503 | The spelled cursor only moves forward and stops at a token not before the target, or at the end. The emitted records tile the skipped tokens, none is empty on the spelled side, all sit at the given expanded position, and each is a run with no captured start or exactly one captured expansion. Every record starts before the target, every token of a plain run is before it, and a plain run is always followed by a captured expansion, so only a captured expansion reaches past the target. |
| Builder.EmittedPartitions | gnu/llvm/clang/lib/Tooling/Syntax/Tokens.cpp:476-502 | Every spelled token the discard skipped lies in exactly one of the records it emitted. |
| Builder.EmittedAppend | gnu/llvm/clang/lib/Tooling/Syntax/Tokens.cpp:477-482 | Flushing a non-empty run that starts where the last one ended keeps the emitted records a tiling. |
| Builder.Advance | gnu/llvm/clang/lib/Tooling/Syntax/Tokens.cpp:508-548 | A file token starts a lockstep run of equal locations and emits no record. A captured macro token emits one record of the spelled tokens up to the captured end and the expanded tokens with its expansion location. An uncaptured one fails. |
| Builder.DiscardStep | gnu/llvm/clang/lib/Tooling/Syntax/Tokens.cpp:437-439 | Discarding before the next expanded token changes only that token's file: the file gains exactly the records discard emits at the expanded cursor, which tile the tokens from its old spelled cursor to its new one and stop as `Discard` stops, and its cursor moves there. No other file or cursor changes, the expanded cursor stays, and the build state still holds. |
| Builder.AdvanceStep | gnu/llvm/clang/lib/Tooling/Syntax/Tokens.cpp:440-445 | One advance fails exactly when the run at the cursor is stuck: a file token whose file's spelled cursor is at the end or at another location, or a macro token whose expansion was not captured. Otherwise only that run's file changes: a file run moves both cursors in lockstep over equal locations and adds no record, a macro run adds the one record of its whole expansion. The expanded cursor moves strictly forward and the build state still holds. |
| Builder.AppendKeeps | gnu/llvm/clang/lib/Tooling/Syntax/Tokens.cpp:436-446 | Records appended to one file in order, at that file's cursor, keep every file's records ordered and behind the cursors. |
| Builder.DrainFile | gnu/llvm/clang/lib/Tooling/Syntax/Tokens.cpp:447-450 | Draining file `f` changes only `f`: it gains exactly the records discard emits at the end of its slice, which tile the tokens from its old cursor to its new one, and its cursor moves past every token before the end of the file. No other file or cursor changes. |
| Builder.Drain | gnu/llvm/clang/lib/Tooling/Syntax/Tokens.cpp:447-450 | After draining, every file's cursor is past every token before its end of file. Each file gained only records, placed at the end of its slice, which tile exactly the tokens its cursor skipped; the build state still holds. |
| Builder.SettledWellFormed | gnu/llvm/clang/lib/Tooling/Syntax/Tokens.cpp:425-453 | A finished build state whose records lie inside their slices is a well-formed buffer. |
| Builder.Build | gnu/llvm/clang/lib/Tooling/Syntax/Tokens.cpp:425-453 | On success the buffer keeps the expanded stream, tracks every file of it with that file's lexed tokens and exact slice, and is well-formed when the end-of-input token stands apart. Every record is empty on the expanded side or holds one whole captured macro expansion, and every macro token before the end-of-input token lies in a record of its own file. When lexed tokens lie inside their files, every spelled token lies in a record or was copied to the expanded stream. A stream that copies one file's tokens location for location always builds, and that file gets no records. A failure names a stuck token before the end-of-input token. |
| Builder.MacroTokenInOneRecord | gnu/llvm/clang/lib/Tooling/Syntax/Tokens.cpp:526-546 | In a built, well-formed buffer every macro token before the end-of-input token has a captured expansion and lies in exactly one record of its file, which holds that whole expansion. |
| Builder.MacroRunAbsorbsFileToken | gnu/llvm/clang/lib/Tooling/Syntax/Tokens.cpp:538-542 | A file token that follows a macro's output at the macro's own expansion location is taken into that macro's record. |
| Builder.FileTokenInNoRecord | gnu/llvm/clang/lib/Tooling/Syntax/Tokens.cpp:515-546 | A file token whose position is not a captured expansion location lies in no record. |
| Builder.DiscardOne | gnu/llvm/clang/lib/Tooling/Syntax/Tokens.cpp:476-499 | A token before the target that starts a captured expansion closes the pending plain run and gets a record of its whole expansion; any other token joins the pending run. Either way the cursor moves forward and the emitted records stay a tiling that halts before the target. |
| Builder.Rounds | gnu/llvm/clang/lib/Tooling/Syntax/Tokens.cpp:436-446 | Rounds of discard and advance run until the expanded cursor reaches the end-of-input token, keeping the build state, the records' classification and the spelled coverage. A failure names a stuck token and never happens on a stream that copies one file. |
| Builder.CoveredDiscard | gnu/llvm/clang/lib/Tooling/Syntax/Tokens.cpp:476-503 | After a discard every spelled token behind its file's cursor still lies in a record or was copied, because the new records tile the skipped tokens. |
| Builder.CoveredAdvance | gnu/llvm/clang/lib/Tooling/Syntax/Tokens.cpp:515-546 | After an advance every spelled token behind its file's cursor still lies in a record or was copied: a file run copies the tokens it passes, a macro run records them. |
| Builder.CoveredDrained | gnu/llvm/clang/lib/Tooling/Syntax/Tokens.cpp:447-450 | After draining every spelled token behind its file's cursor lies in a record or was copied. |
| Builder.CopiedNotStuck | gnu/llvm/clang/lib/Tooling/Syntax/Tokens.cpp:515-523 | While the expanded stream copies one file, the file's cursor sits at the next expanded token's location, so the run there is never stuck. |
| Builder.CopiedDrained | gnu/llvm/clang/lib/Tooling/Syntax/Tokens.cpp:447-450 | A copied file whose cursor reached its end gets no records from draining. |
| Builder.CopiedFileMapsToItself | gnu/llvm/clang/lib/Tooling/Syntax/Tokens.cpp:157-176 | For a file the build copied through unchanged, every expanded token before the end-of-input token maps back to the spelled token at the same index, which has its location. |

## Left out

- Source manager internals (`getDecomposedLoc`, `getFileID`, `getExpansionLoc`, `getLocForEndOfFile`, `isBeforeInTranslationUnit`) are not modelled: locations carry their file, offset and expansion location, the translation-unit order is a parameter, and file sizes come from `Sources`.
- Raw lexing and keyword canonicalisation in `tokenize` are foreign code: the raw lexer's output for each file is the `Sources.lex` input. Only the rule that a trailing end-of-file token is never stored is modelled (`Tokens.StoreLexed`, applied by `Sources.Tokenize`). The raw lexer always yields at least one token; an empty `lex` output is stored as no tokens.
- Preprocessor wiring (installing the token watcher and callbacks, and `consume`, which detaches and then builds) is callback plumbing; its effects are `Recorder.OnToken`, `Recorder.Disable` and `Builder.Build`.
- Text access (`Token::text`, `FileRange::text`, `toCharRange`) reads memory buffers and is not modelled.
- Debug and formatting output (`str`, `operator<<`, `dumpForTests`, the context dump in `diagnoseAdvanceFailure`) is I/O; the failure itself is `BuildError.AdvanceFailure`.
- The `Token` constructors' assertions (valid location, not an annotation) hold by construction: every model location is valid, and annotation tokens are dropped by `Recorder.OnToken` before they could become tokens.
- Offsets and indices are unbounded naturals: the 32-bit unsigned wrap-around of `offset + length` and of index arithmetic is not modelled.
- Recorder.MacroExpands: the debug assertion that a span starting inside a macro overwrites an existing entry is not a precondition; the entry is written either way, as in a release build.
- Builder.Advance: an uncaptured macro expansion is a failure, following the debug assertion; a release build would read an invalid end location and go on.
- Builder.Discard: requires every captured end to be at or after its start (`Forward`). Without it the source's discard loop would not advance past a captured start and would not terminate. This is an assumption about the preprocessor's ranges: `Recorder.MacroExpands` files any end strictly after the last kept one, whatever the begin.
- Builder.Build: the buffer is proved well-formed only when the end-of-input token is the only one of its kind and no other token shares its expansion location (`SentinelApart`); otherwise a record could reach past a file's slice.
- Builder.Build: spelled-side coverage is proved as "every spelled token lies in a record or has its location in the expanded stream", under `WithinFiles` (every lexed token lies in its own file before the file's end, so draining reaches the last token). That no spelled token is both copied and inside a record is not proved. A file token lies outside every record only when its position is not a captured expansion location (`FileTokenInNoRecord`); one at a macro's expansion location joins that macro's record (`MacroRunAbsorbsFileToken`).
- Builder.Build: success is proved for a stream that copies one file (`CopiesFile`). In general the build fails exactly where an advance is stuck (`AdvanceStep`), and no condition on the recorder's output that rules this out is stated.
- Builder.Drain: files are drained in the order they were discovered, while the source walks its file map in that map's own order (Tokens.cpp:449); each drain touches only its own file's records and cursor, so the order does not change the result.
- Queries.SpelledForExpanded: the widened ends of a range that begins or ends inside a record are stated in `SpelledForExpandedWidens` rather than in its own contract.
- Queries: the lookups assume nothing about a file's expanded slice beyond `Traceable`/`SpelledTraceable` (the file is tracked, well-formed, and its slice starts at or before the token). No contiguity is assumed: a slice may hold other files' tokens, as after an include.
- Queries.SpelledForExpandedToken: the result index is not proved to lie inside the file's spelled tokens; that needs the one-for-one stretches between records to be as long on the spelled side as on the expanded side, which the coverage above does not state.
