/**
 * The offline builder: turns the recorder's expanded stream and expansion
 * spans into a token buffer. It lexes every file that contributed tokens,
 * then walks the expanded stream once with a cursor into it and one cursor
 * per file into that file's spelled tokens, appending records in order.
 */
module Builder {
  import opened Wrappers
  import opened Locations
  import opened Tokens
  import opened Buffer
  import Queries

  /** What the builder asks of the source manager: each file's raw lexer output and its size in bytes. */
  datatype Sources = Sources(lex: FileId -> seq<Token>, size: FileId -> nat)
  {
    /**
     * A file's spelled tokens: the raw lexer's output with a final
     * end-of-file marker dropped. The raw lexer always hands over at least
     * one token; an empty output stores nothing.
     */
    function Tokenize(f: FileId): seq<Token>
    {
      if |lex(f)| == 0 then [] else StoreLexed(lex(f))
    }
  }

  /**
   * The two internal-consistency failures: a macro token whose expansion
   * was never captured, and a step that could not move past a token.
   */
  datatype BuildError = UncapturedExpansion(index: nat) | AdvanceFailure(index: nat)

  /** Every captured span ends at or after the location it is filed under. */
  ghost predicate Forward(expansions: map<FilePos, FilePos>)
  {
    forall k :: k in expansions ==> RawAtOrBefore(k, expansions[k])
  }

  // ---------------------------------------------------------------------------
  // File discovery.

  /** Where a file's expanded slice ends, given the index of one of its tokens: the end-of-input token is left out. */
  function SliceEnd(expanded: seq<Token>, i: nat): nat
    requires i < |expanded|
  {
    if expanded[i].kind == Eof then i else i + 1
  }

  /**
   * `mf` holds file `f`'s slice of the first `n` expanded tokens: it begins
   * at the file's first token and ends after its last one, except that an
   * end-of-input token is left out of the slice.
   */
  ghost predicate SliceOf(expanded: seq<Token>, n: nat, f: FileId, mf: MarkedFile)
    requires n <= |expanded|
  {
    var b := mf.beginExpanded;
    var e := mf.endExpanded;
    && b < n && FileOf(expanded[b].loc) == f
    && (forall j :: 0 <= j < b ==> FileOf(expanded[j].loc) != f)
    && b <= e <= n
    && ((0 < e && FileOf(expanded[e - 1].loc) == f && expanded[e - 1].kind != Eof) ||
        (e < n && FileOf(expanded[e].loc) == f && expanded[e].kind == Eof))
    && (forall i :: e <= i < n && FileOf(expanded[i].loc) == f ==> i == e && expanded[i].kind == Eof)
  }

  /**
   * `files` and `order` are what discovery produces from the first `n`
   * expanded tokens: one entry per file seen, in order of first sight,
   * holding that file's spelled tokens, no records yet, and its slice.
   */
  ghost predicate Discovered(expanded: seq<Token>, n: nat, src: Sources, files: map<FileId, MarkedFile>, order: seq<FileId>)
    requires n <= |expanded|
  {
    && Sighted(expanded, n, files)
    && Registry(files, order)
    && Sliced(expanded, n, src, files)
  }

  /** Every one of the first `n` expanded tokens has its file discovered. */
  ghost predicate Sighted(expanded: seq<Token>, n: nat, files: map<FileId, MarkedFile>)
    requires n <= |expanded|
  {
    forall i :: 0 <= i < n ==> FileOf(expanded[i].loc) in files
  }

  /** `order` lists the discovered files, each once. */
  ghost predicate Registry(files: map<FileId, MarkedFile>, order: seq<FileId>)
  {
    && (forall i, j :: 0 <= i < j < |order| ==> order[i] != order[j])
    && (forall f :: f in files <==> f in order)
  }

  /** Every discovered file holds its spelled tokens, no records yet, and its slice of the first `n` tokens. */
  ghost predicate Sliced(expanded: seq<Token>, n: nat, src: Sources, files: map<FileId, MarkedFile>)
    requires n <= |expanded|
  {
    forall f :: f in files ==>
      && files[f].spelled == src.Tokenize(f)
      && files[f].mappings == []
      && SliceOf(expanded, n, f, files[f])
  }

  lemma SliceOfOther(expanded: seq<Token>, n: nat, f: FileId, mf: MarkedFile)
    requires n < |expanded| && SliceOf(expanded, n, f, mf) && FileOf(expanded[n].loc) != f
    ensures SliceOf(expanded, n + 1, f, mf)
  {
  }

  lemma SliceOfSame(expanded: seq<Token>, n: nat, f: FileId, mf: MarkedFile)
    requires n < |expanded| && SliceOf(expanded, n, f, mf) && FileOf(expanded[n].loc) == f
    ensures SliceOf(expanded, n + 1, f, mf.(endExpanded := SliceEnd(expanded, n)))
  {
  }

  lemma SliceOfFresh(expanded: seq<Token>, n: nat, f: FileId, mf: MarkedFile)
    requires n < |expanded| && FileOf(expanded[n].loc) == f
    requires forall j :: 0 <= j < n ==> FileOf(expanded[j].loc) != f
    requires mf.beginExpanded == n && mf.endExpanded == SliceEnd(expanded, n)
    ensures SliceOf(expanded, n + 1, f, mf)
  {
  }

  /** The discovery state after looking at one more expanded token. */
  function DiscoverOne(expanded: seq<Token>, i: nat, src: Sources, files: map<FileId, MarkedFile>, order: seq<FileId>)
    : (map<FileId, MarkedFile>, seq<FileId>)
    requires i < |expanded|
  {
    var f := FileOf(expanded[i].loc);
    if f in files then (files[f := files[f].(endExpanded := SliceEnd(expanded, i))], order)
    else (files[f := MarkedFile(src.Tokenize(f), [], i, SliceEnd(expanded, i))], order + [f])
  }

  /** Token `i` of a file seen before extends that file's slice. */
  lemma DiscoverSeen(expanded: seq<Token>, i: nat, src: Sources, files: map<FileId, MarkedFile>, order: seq<FileId>)
    requires i < |expanded| && Discovered(expanded, i, src, files, order)
    requires FileOf(expanded[i].loc) in files
    ensures var f := FileOf(expanded[i].loc);
            Discovered(expanded, i + 1, src, files[f := files[f].(endExpanded := SliceEnd(expanded, i))], order)
  {
    var f := FileOf(expanded[i].loc);
    var files' := files[f := files[f].(endExpanded := SliceEnd(expanded, i))];
    SeenSlices(expanded, i, src, files, order);
    assert files'.Keys == files.Keys;
    SightedStep(expanded, i, files, files'[f]);
    assert Registry(files', order);
  }

  lemma SeenSlices(expanded: seq<Token>, i: nat, src: Sources, files: map<FileId, MarkedFile>, order: seq<FileId>)
    requires i < |expanded| && Sliced(expanded, i, src, files)
    requires FileOf(expanded[i].loc) in files
    ensures var f := FileOf(expanded[i].loc);
            Sliced(expanded, i + 1, src, files[f := files[f].(endExpanded := SliceEnd(expanded, i))])
  {
    var f := FileOf(expanded[i].loc);
    var files' := files[f := files[f].(endExpanded := SliceEnd(expanded, i))];
    forall g | g in files'
      ensures files'[g].spelled == src.Tokenize(g) && files'[g].mappings == [] && SliceOf(expanded, i + 1, g, files'[g])
    {
      if g == f {
        SliceOfSame(expanded, i, f, files[f]);
      } else {
        SliceOfOther(expanded, i, g, files[g]);
      }
    }
  }

  /** Token `i` of a file not seen before opens that file's slice and lexes the file. */
  lemma DiscoverFresh(expanded: seq<Token>, i: nat, src: Sources, files: map<FileId, MarkedFile>, order: seq<FileId>)
    requires i < |expanded| && Discovered(expanded, i, src, files, order)
    requires FileOf(expanded[i].loc) !in files
    ensures var f := FileOf(expanded[i].loc);
            Discovered(expanded, i + 1, src, files[f := MarkedFile(src.Tokenize(f), [], i, SliceEnd(expanded, i))],
                       order + [f])
  {
    var f := FileOf(expanded[i].loc);
    var files' := files[f := MarkedFile(src.Tokenize(f), [], i, SliceEnd(expanded, i))];
    FreshSlices(expanded, i, src, files);
    FreshOrder(files, order, f, files'[f]);
    SightedStep(expanded, i, files, files'[f]);
  }

  lemma FreshSlices(expanded: seq<Token>, i: nat, src: Sources, files: map<FileId, MarkedFile>)
    requires i < |expanded| && Sliced(expanded, i, src, files) && Sighted(expanded, i, files)
    requires FileOf(expanded[i].loc) !in files
    ensures var f := FileOf(expanded[i].loc);
            Sliced(expanded, i + 1, src, files[f := MarkedFile(src.Tokenize(f), [], i, SliceEnd(expanded, i))])
  {
    var f := FileOf(expanded[i].loc);
    var files' := files[f := MarkedFile(src.Tokenize(f), [], i, SliceEnd(expanded, i))];
    forall g | g in files'
      ensures files'[g].spelled == src.Tokenize(g) && files'[g].mappings == [] && SliceOf(expanded, i + 1, g, files'[g])
    {
      if g == f {
        SliceOfFresh(expanded, i, f, files'[f]);
      } else {
        SliceOfOther(expanded, i, g, files[g]);
      }
    }
  }

  lemma SightedStep(expanded: seq<Token>, i: nat, files: map<FileId, MarkedFile>, mf: MarkedFile)
    requires i < |expanded| && Sighted(expanded, i, files)
    ensures Sighted(expanded, i + 1, files[FileOf(expanded[i].loc) := mf])
  {
  }

  lemma FreshOrder(files: map<FileId, MarkedFile>, order: seq<FileId>, f: FileId, mf: MarkedFile)
    requires Registry(files, order) && f !in files
    ensures Registry(files[f := mf], order + [f])
  {
    var order' := order + [f];
    forall a, b | 0 <= a < b < |order'|
      ensures order'[a] != order'[b]
    {
      if b < |order| {
        assert order'[a] == order[a] && order'[b] == order[b];
      } else {
        assert order'[a] == order[a] && order'[b] == f;
      }
    }
    assert forall g :: g in order' <==> g in order || g == f;
  }

  lemma DiscoverOneKeeps(expanded: seq<Token>, i: nat, src: Sources, files: map<FileId, MarkedFile>, order: seq<FileId>)
    requires i < |expanded| && Discovered(expanded, i, src, files, order)
    ensures Discovered(expanded, i + 1, src, DiscoverOne(expanded, i, src, files, order).0,
                       DiscoverOne(expanded, i, src, files, order).1)
  {
    var next := DiscoverOne(expanded, i, src, files, order);
    if FileOf(expanded[i].loc) in files {
      DiscoverSeen(expanded, i, src, files, order);
      assert next.1 == order;
    } else {
      DiscoverFresh(expanded, i, src, files, order);
    }
  }

  /** Lexes every file that contributed expanded tokens and records its slice of the expanded stream. */
  method BuildSpelledTokens(expanded: seq<Token>, src: Sources) returns (files: map<FileId, MarkedFile>, order: seq<FileId>)
    ensures Discovered(expanded, |expanded|, src, files, order)
  {
    files := map[];
    order := [];
    var i := 0;
    while i < |expanded|
      invariant 0 <= i <= |expanded|
      invariant Discovered(expanded, i, src, files, order)
    {
      DiscoverOneKeeps(expanded, i, src, files, order);
      var next := DiscoverOne(expanded, i, src, files, order);
      files, order := next.0, next.1;
      i := i + 1;
    }
  }

  // ---------------------------------------------------------------------------
  // Discarding spelled tokens that expanded to nothing.

  /** `ms` covers [lo, hi) without gap or overlap, in order. */
  ghost predicate Tiles(ms: seq<Mapping>, lo: nat, hi: nat)
  {
    && (|ms| == 0 ==> lo == hi)
    && (|ms| > 0 ==> ms[0].beginSpelled == lo && ms[|ms| - 1].endSpelled == hi)
    && (forall k :: 0 < k < |ms| ==> ms[k - 1].endSpelled == ms[k].beginSpelled)
  }

  /** None of the spelled tokens of `m` starts a captured expansion. */
  ghost predicate PlainRun(spelled: seq<Token>, expansions: map<FilePos, FilePos>, m: Mapping)
  {
    && m.endSpelled <= |spelled|
    && forall j :: m.beginSpelled <= j < m.endSpelled ==> spelled[j].loc.pos !in expansions
  }

  /**
   * `m` is exactly one captured expansion's spelled tokens: it starts at a
   * captured start and runs through every token up to the captured end.
   */
  ghost predicate CapturedRun(spelled: seq<Token>, expansions: map<FilePos, FilePos>, m: Mapping)
  {
    && m.beginSpelled < m.endSpelled <= |spelled|
    && spelled[m.beginSpelled].loc.pos in expansions
    && var end := expansions[spelled[m.beginSpelled].loc.pos];
       && (forall j :: m.beginSpelled <= j < m.endSpelled ==> RawAtOrBefore(spelled[j].loc.pos, end))
       && (m.endSpelled == |spelled| || !RawAtOrBefore(spelled[m.endSpelled].loc.pos, end))
  }

  /** The records discard emits: non-empty spelled runs, no expanded tokens, at position `at`. */
  ghost predicate EmptyRecords(ms: seq<Mapping>, at: nat)
  {
    forall k :: 0 <= k < |ms| ==>
      ms[k].beginSpelled < ms[k].endSpelled && ms[k].beginExpanded == at && ms[k].endExpanded == at
  }

  lemma TilesOrdered(ms: seq<Mapping>, lo: nat, hi: nat, at: nat)
    requires Tiles(ms, lo, hi) && EmptyRecords(ms, at)
    ensures Ordered(ms)
  {
  }

  /** Each emitted record is a plain run or one captured expansion. */
  ghost predicate Runs(spelled: seq<Token>, expansions: map<FilePos, FilePos>, ms: seq<Mapping>)
  {
    forall k :: 0 <= k < |ms| ==> PlainRun(spelled, expansions, ms[k]) || CapturedRun(spelled, expansions, ms[k])
  }

  /** What discard has emitted so far: empty records at `at` tiling [start, upTo) of the spelled tokens. */
  ghost predicate Emitted(spelled: seq<Token>, expansions: map<FilePos, FilePos>, ms: seq<Mapping>,
                          start: nat, upTo: nat, at: nat)
  {
    && Tiles(ms, start, upTo)
    && EmptyRecords(ms, at)
    && (forall k :: 0 <= k < |ms| ==> start <= ms[k].beginSpelled && ms[k].endSpelled <= upTo)
    && Runs(spelled, expansions, ms)
  }

  lemma EmittedOrdered(spelled: seq<Token>, expansions: map<FilePos, FilePos>, ms: seq<Mapping>,
                       start: nat, upTo: nat, at: nat)
    requires Emitted(spelled, expansions, ms, start, upTo, at)
    ensures Ordered(ms)
    ensures forall k :: 0 <= k < |ms| ==>
              start <= ms[k].beginSpelled && ms[k].endSpelled <= upTo &&
              ms[k].beginExpanded == at && ms[k].endExpanded == at
  {
    TilesOrdered(ms, start, upTo, at);
  }

  lemma EmittedAppend(spelled: seq<Token>, expansions: map<FilePos, FilePos>, ms: seq<Mapping>,
                      start: nat, upTo: nat, at: nat, m: Mapping)
    requires Emitted(spelled, expansions, ms, start, upTo, at)
    requires m.beginSpelled == upTo < m.endSpelled && m.beginExpanded == at && m.endExpanded == at
    requires PlainRun(spelled, expansions, m) || CapturedRun(spelled, expansions, m)
    ensures Emitted(spelled, expansions, ms + [m], start, m.endSpelled, at)
  {
    var ms' := ms + [m];
    assert ms'[|ms|] == m;
    forall k | 0 <= k < |ms|
      ensures ms'[k] == ms[k]
    {
    }
  }

  /** Record `m` holds spelled token `j`. */
  predicate SpelledIn(m: Mapping, j: nat)
  {
    m.beginSpelled <= j < m.endSpelled
  }

  /** Some record of `ms` holds spelled token `j`. */
  ghost predicate SpelledCovered(ms: seq<Mapping>, j: nat)
  {
    exists k :: 0 <= k < |ms| && SpelledIn(ms[k], j)
  }

  /** Tiling records leave no token of [lo, hi) outside every record. */
  lemma {:induction false} TilesCover(ms: seq<Mapping>, lo: nat, hi: nat)
    requires Tiles(ms, lo, hi)
    requires forall k :: 0 <= k < |ms| ==> ms[k].beginSpelled <= ms[k].endSpelled
    ensures forall j :: lo <= j < hi ==> SpelledCovered(ms, j)
  {
    if |ms| > 0 {
      var last := ms[|ms| - 1];
      var init := ms[..|ms| - 1];
      assert forall k :: 0 <= k < |init| ==> init[k] == ms[k];
      assert Tiles(init, lo, last.beginSpelled);
      TilesCover(init, lo, last.beginSpelled);
      forall j | lo <= j < hi
        ensures SpelledCovered(ms, j)
      {
        if j < last.beginSpelled {
          assert SpelledCovered(init, j);
          var k :| 0 <= k < |init| && SpelledIn(init[k], j);
          assert ms[k] == init[k];
        } else {
          assert SpelledIn(ms[|ms| - 1], j);
        }
      }
    }
  }

  /**
   * Every spelled token discard passes over lies in exactly one of the
   * records it emits.
   */
  lemma EmittedPartitions(spelled: seq<Token>, expansions: map<FilePos, FilePos>, ms: seq<Mapping>,
                          start: nat, upTo: nat, at: nat)
    requires Emitted(spelled, expansions, ms, start, upTo, at)
    ensures forall j :: start <= j < upTo ==> SpelledCovered(ms, j)
    ensures forall j, k, k' ::
              0 <= k < |ms| && 0 <= k' < |ms| && SpelledIn(ms[k], j) && SpelledIn(ms[k'], j) ==> k == k'
  {
    TilesOrdered(ms, start, upTo, at);
    OrderedPairwise(ms);
    TilesCover(ms, start, upTo);
  }

  /**
   * Where discard stops: every record starts before `target`, every token
   * of a plain run is before it, and a plain run is only ever followed by a
   * captured expansion. Only a captured expansion may reach past `target`.
   */
  ghost predicate Halts(spelled: seq<Token>, expansions: map<FilePos, FilePos>, ms: seq<Mapping>, target: FilePos)
  {
    && (forall k :: 0 <= k < |ms| ==>
          ms[k].beginSpelled < |spelled| && RawBefore(spelled[ms[k].beginSpelled].loc.pos, target))
    && (forall k, j ::
          0 <= k < |ms| && PlainRun(spelled, expansions, ms[k]) && ms[k].beginSpelled <= j < ms[k].endSpelled ==>
            RawBefore(spelled[j].loc.pos, target))
    && (forall k :: 0 < k < |ms| && PlainRun(spelled, expansions, ms[k - 1]) ==>
          CapturedRun(spelled, expansions, ms[k]))
  }

  lemma HaltsAppend(spelled: seq<Token>, expansions: map<FilePos, FilePos>, ms: seq<Mapping>, target: FilePos,
                    m: Mapping)
    requires Halts(spelled, expansions, ms, target)
    requires m.beginSpelled < m.endSpelled <= |spelled| && RawBefore(spelled[m.beginSpelled].loc.pos, target)
    requires PlainRun(spelled, expansions, m) ==>
               forall j :: m.beginSpelled <= j < m.endSpelled ==> RawBefore(spelled[j].loc.pos, target)
    requires |ms| > 0 ==> CapturedRun(spelled, expansions, ms[|ms| - 1]) || CapturedRun(spelled, expansions, m)
    ensures Halts(spelled, expansions, ms + [m], target)
  {
    var ms' := ms + [m];
    assert ms'[|ms|] == m;
    forall k | 0 <= k < |ms|
      ensures ms'[k] == ms[k]
    {
    }
    if |ms| > 0 && CapturedRun(spelled, expansions, ms[|ms| - 1]) {
      var last := ms[|ms| - 1];
      assert spelled[last.beginSpelled].loc.pos in expansions;
      assert !PlainRun(spelled, expansions, last);
    }
  }

  /** Skips spelled tokens from `from` while they are at or before `end`. */
  method SkipThrough(spelled: seq<Token>, from: nat, end: FilePos) returns (next: nat)
    requires from <= |spelled|
    ensures from <= next <= |spelled|
    ensures forall j :: from <= j < next ==> RawAtOrBefore(spelled[j].loc.pos, end)
    ensures next == |spelled| || !RawAtOrBefore(spelled[next].loc.pos, end)
  {
    next := from;
    while next < |spelled| && RawAtOrBefore(spelled[next].loc.pos, end)
      invariant from <= next <= |spelled|
      invariant forall j :: from <= j < next ==> RawAtOrBefore(spelled[j].loc.pos, end)
      decreases |spelled| - next
    {
      next := next + 1;
    }
  }

  /** Discard's loop state: records emitted for [start, runStart), and a pending plain run [runStart, next). */
  ghost predicate Discarding(spelled: seq<Token>, expansions: map<FilePos, FilePos>, emitted: seq<Mapping>,
                             start: nat, runStart: nat, next: nat, target: FilePos, at: nat)
  {
    && start <= runStart <= next <= |spelled|
    && Emitted(spelled, expansions, emitted, start, runStart, at)
    && Halts(spelled, expansions, emitted, target)
    && (|emitted| > 0 ==> CapturedRun(spelled, expansions, emitted[|emitted| - 1]))
    && (forall j :: runStart <= j < next ==>
          spelled[j].loc.pos !in expansions && RawBefore(spelled[j].loc.pos, target))
  }

  /** The pending plain run [runStart, next), appended as a record when it is not empty. */
  function Flush(emitted: seq<Mapping>, runStart: nat, next: nat, at: nat): (r: seq<Mapping>)
    ensures |r| == |emitted| + (if runStart == next then 0 else 1)
  {
    if runStart == next then emitted else emitted + [Mapping(runStart, next, at, at)]
  }

  lemma FlushKeeps(spelled: seq<Token>, expansions: map<FilePos, FilePos>, emitted: seq<Mapping>,
                   start: nat, runStart: nat, next: nat, target: FilePos, at: nat)
    requires Discarding(spelled, expansions, emitted, start, runStart, next, target, at)
    ensures Emitted(spelled, expansions, Flush(emitted, runStart, next, at), start, next, at)
    ensures Halts(spelled, expansions, Flush(emitted, runStart, next, at), target)
  {
    if runStart != next {
      var m := Mapping(runStart, next, at, at);
      assert PlainRun(spelled, expansions, m);
      EmittedAppend(spelled, expansions, emitted, start, runStart, at, m);
      HaltsAppend(spelled, expansions, emitted, target, m);
    }
  }

  /** A token before `target` that starts no captured expansion joins the pending plain run. */
  lemma PlainKeeps(spelled: seq<Token>, expansions: map<FilePos, FilePos>, emitted: seq<Mapping>,
                   start: nat, runStart: nat, next: nat, target: FilePos, at: nat)
    requires Discarding(spelled, expansions, emitted, start, runStart, next, target, at)
    requires next < |spelled| && spelled[next].loc.pos !in expansions && RawBefore(spelled[next].loc.pos, target)
    ensures Discarding(spelled, expansions, emitted, start, runStart, next + 1, target, at)
  {
  }

  /** Flushing the pending run and then recording one captured expansion [next, after) keeps discard's loop state. */
  lemma CapturedKeeps(spelled: seq<Token>, expansions: map<FilePos, FilePos>, emitted: seq<Mapping>,
                      start: nat, runStart: nat, next: nat, target: FilePos, at: nat, after: nat)
    requires Discarding(spelled, expansions, emitted, start, runStart, next, target, at)
    requires next < after <= |spelled|
    requires spelled[next].loc.pos in expansions && RawBefore(spelled[next].loc.pos, target)
    requires forall j :: next <= j < after ==> RawAtOrBefore(spelled[j].loc.pos, expansions[spelled[next].loc.pos])
    requires after == |spelled| || !RawAtOrBefore(spelled[after].loc.pos, expansions[spelled[next].loc.pos])
    ensures Discarding(spelled, expansions, Flush(emitted, runStart, next, at) + [Mapping(next, after, at, at)],
                       start, after, after, target, at)
  {
    var flushed := Flush(emitted, runStart, next, at);
    FlushKeeps(spelled, expansions, emitted, start, runStart, next, target, at);
    var m := Mapping(next, after, at, at);
    assert CapturedRun(spelled, expansions, m);
    if |flushed| > 0 && runStart != next {
      assert flushed[|flushed| - 1] == Mapping(runStart, next, at, at);
      assert PlainRun(spelled, expansions, flushed[|flushed| - 1]);
    }
    EmittedAppend(spelled, expansions, flushed, start, next, at, m);
    HaltsAppend(spelled, expansions, flushed, target, m);
    var ms := flushed + [m];
    assert ms[|ms| - 1] == m;
  }

  /**
   * Skips spelled tokens from `start` until one is not before `target`,
   * emitting empty records for what it skips. A skipped token that starts
   * a captured expansion gets a record of its own running to the captured
   * end, so that empty macro expansions keep their boundaries.
   */
  method Discard(spelled: seq<Token>, expansions: map<FilePos, FilePos>, start: nat, target: FilePos, at: nat)
    returns (next: nat, emitted: seq<Mapping>)
    requires start <= |spelled|
    requires Forward(expansions)
    ensures start <= next <= |spelled|
    ensures next == |spelled| || !RawBefore(spelled[next].loc.pos, target)
    ensures Emitted(spelled, expansions, emitted, start, next, at)
    ensures Halts(spelled, expansions, emitted, target)
  {
    var runStart;
    next, runStart, emitted := DiscardRuns(spelled, expansions, start, target, at);
    FlushKeeps(spelled, expansions, emitted, start, runStart, next, target, at);
    emitted := Flush(emitted, runStart, next, at);
  }

  /** Discard's loop: stops at a token not before `target`, with a plain run [runStart, next) still pending. */
  method DiscardRuns(spelled: seq<Token>, expansions: map<FilePos, FilePos>, start: nat, target: FilePos, at: nat)
    returns (next: nat, runStart: nat, emitted: seq<Mapping>)
    requires start <= |spelled|
    requires Forward(expansions)
    ensures Discarding(spelled, expansions, emitted, start, runStart, next, target, at)
    ensures next == |spelled| || !RawBefore(spelled[next].loc.pos, target)
  {
    next := start;
    emitted := [];
    runStart := start;
    while next < |spelled| && RawBefore(spelled[next].loc.pos, target)
      invariant Discarding(spelled, expansions, emitted, start, runStart, next, target, at)
      decreases |spelled| - next
    {
      next, runStart, emitted := DiscardOne(spelled, expansions, start, target, at, next, runStart, emitted);
    }
  }

  /**
   * One turn of discard's loop at a token before `target`: a captured start
   * flushes the pending run and records its whole expansion; any other
   * token joins the pending run.
   */
  method DiscardOne(spelled: seq<Token>, expansions: map<FilePos, FilePos>, start: nat, target: FilePos, at: nat,
                    next: nat, runStart: nat, emitted: seq<Mapping>)
    returns (next': nat, runStart': nat, emitted': seq<Mapping>)
    requires Forward(expansions)
    requires Discarding(spelled, expansions, emitted, start, runStart, next, target, at)
    requires next < |spelled| && RawBefore(spelled[next].loc.pos, target)
    ensures Discarding(spelled, expansions, emitted', start, runStart', next', target, at)
    ensures next < next'
  {
    var key := spelled[next].loc.pos;
    if key in expansions {
      var after := SkipThrough(spelled, next, expansions[key]);
      CapturedKeeps(spelled, expansions, emitted, start, runStart, next, target, at, after);
      emitted' := Flush(emitted, runStart, next, at) + [Mapping(next, after, at, at)];
      next', runStart' := after, after;
    } else {
      PlainKeeps(spelled, expansions, emitted, start, runStart, next, target, at);
      next', runStart', emitted' := next + 1, runStart, emitted;
    }
  }

  // ---------------------------------------------------------------------------
  // Advancing over one run of expanded tokens.

  /** Where one advance step leaves the cursors, and the record it emitted, if any. */
  datatype Step = Step(nextExpanded: nat, nextSpelled: nat, mapping: Option<Mapping>)

  /** A run of file tokens: expanded and spelled tokens agree one for one, as far as they can. */
  ghost predicate FileRun(expanded: seq<Token>, ne: nat, spelled: seq<Token>, ns: nat, st: Step)
    requires ne <= st.nextExpanded <= |expanded| && ns <= st.nextSpelled <= |spelled|
  {
    && st.mapping.None?
    && st.nextExpanded - ne == st.nextSpelled - ns
    && (forall k :: ne <= k < st.nextExpanded ==> spelled[ns + (k - ne)].loc == expanded[k].loc)
    && (st.nextExpanded == |expanded| || st.nextSpelled == |spelled| ||
        spelled[st.nextSpelled].loc != expanded[st.nextExpanded].loc)
  }

  /**
   * One macro expansion: every expanded token rooted at the same expansion
   * location, and the spelled tokens up to and including the captured end.
   */
  ghost predicate MacroRun(expanded: seq<Token>, ne: nat, spelled: seq<Token>, ns: nat,
                           end: FilePos, st: Step)
    requires ne < |expanded|
    requires ne <= st.nextExpanded <= |expanded| && ns <= st.nextSpelled <= |spelled|
  {
    var x := ExpansionLoc(expanded[ne].loc);
    && st.mapping == Some(Mapping(ns, st.nextSpelled, ne, st.nextExpanded))
    && ne < st.nextExpanded
    && (forall k :: ne <= k < st.nextExpanded ==> ExpansionLoc(expanded[k].loc) == x)
    && (st.nextExpanded == |expanded| || ExpansionLoc(expanded[st.nextExpanded].loc) != x)
    && (forall j :: ns <= j < st.nextSpelled ==> RawAtOrBefore(spelled[j].loc.pos, end))
    && (st.nextSpelled == |spelled| || !RawAtOrBefore(spelled[st.nextSpelled].loc.pos, end))
  }

  /**
   * Consumes the expanded token at `ne` and the rest of its run. A file
   * token starts a run of tokens copied through unchanged, which needs no
   * record; a macro token starts an expansion, which gets one record.
   */
  method Advance(expanded: seq<Token>, ne: nat, spelled: seq<Token>, ns: nat, expansions: map<FilePos, FilePos>)
    returns (r: Result<Step, BuildError>)
    requires ne < |expanded| && ns <= |spelled|
    ensures r.Failure? <==> expanded[ne].loc.MacroLoc? && ExpansionLoc(expanded[ne].loc) !in expansions
    ensures r.Failure? ==> r.error == UncapturedExpansion(ne)
    ensures r.Success? ==>
              ne <= r.value.nextExpanded <= |expanded| && ns <= r.value.nextSpelled <= |spelled|
    ensures r.Success? && expanded[ne].loc.FileLoc? ==> FileRun(expanded, ne, spelled, ns, r.value)
    ensures r.Success? && expanded[ne].loc.MacroLoc? ==>
              MacroRun(expanded, ne, spelled, ns, expansions[ExpansionLoc(expanded[ne].loc)], r.value)
  {
    var tok := expanded[ne];
    var x := ExpansionLoc(tok.loc);
    var e := ne;
    var s := ns;
    if tok.loc.FileLoc? {
      while s < |spelled| && e < |expanded| && spelled[s].loc == expanded[e].loc
        invariant ne <= e <= |expanded| && ns <= s <= |spelled|
        invariant e - ne == s - ns
        invariant forall k :: ne <= k < e ==> spelled[ns + (k - ne)].loc == expanded[k].loc
        decreases |spelled| - s
      {
        s := s + 1;
        e := e + 1;
      }
      return Success(Step(e, s, None));
    }
    if x !in expansions {
      return Failure(UncapturedExpansion(ne));
    }
    var end := expansions[x];
    while s < |spelled| && RawAtOrBefore(spelled[s].loc.pos, end)
      invariant ns <= s <= |spelled|
      invariant forall j :: ns <= j < s ==> RawAtOrBefore(spelled[j].loc.pos, end)
      decreases |spelled| - s
    {
      s := s + 1;
    }
    while e < |expanded| && ExpansionLoc(expanded[e].loc) == x
      invariant ne <= e <= |expanded|
      invariant forall k :: ne <= k < e ==> ExpansionLoc(expanded[k].loc) == x
      decreases |expanded| - e
    {
      e := e + 1;
    }
    r := Success(Step(e, s, Some(Mapping(ns, s, ne, e))));
  }

  // ---------------------------------------------------------------------------
  // The whole build.

  /**
   * The expanded stream ends in its only end-of-input token, and no other
   * token has that token's expansion location. Under this condition every
   * record stays inside its file's expanded slice.
   */
  ghost predicate SentinelApart(expanded: seq<Token>)
  {
    && |expanded| > 0
    && (forall i :: 0 <= i < |expanded| - 1 ==> expanded[i].kind != Eof)
    && (forall i :: 0 <= i < |expanded| - 1 ==>
          ExpansionLoc(expanded[i].loc) != ExpansionLoc(expanded[|expanded| - 1].loc))
  }

  /** A file's spelled-token cursor; files not visited yet are at their first token. */
  function Cursor(ns: map<FileId, nat>, f: FileId): nat
  {
    if f in ns then ns[f] else 0
  }

  /**
   * One file's build state: the discovered file with records appended in
   * order, every record behind the file's cursor on the spelled side, not
   * before the file's slice and not past `bound` on the expanded side.
   */
  ghost predicate FileSettled(seen: MarkedFile, file: MarkedFile, cursor: nat, bound: nat)
  {
    && file == seen.(mappings := file.mappings)
    && cursor <= |file.spelled|
    && Ordered(file.mappings)
    && (forall k :: 0 <= k < |file.mappings| ==>
          && file.mappings[k].endSpelled <= cursor
          && seen.beginExpanded <= file.mappings[k].beginExpanded
          && file.mappings[k].endExpanded <= bound)
  }

  /** The builder's state, file by file. */
  ghost predicate Settled(found: map<FileId, MarkedFile>, files: map<FileId, MarkedFile>, ns: map<FileId, nat>, bound: nat)
  {
    && files.Keys == found.Keys
    && forall f :: f in files ==> FileSettled(found[f], files[f], Cursor(ns, f), bound)
  }

  /** The discovered files, changed only in their records, with every cursor inside its file. */
  ghost predicate Shape(found: map<FileId, MarkedFile>, files: map<FileId, MarkedFile>, ns: map<FileId, nat>)
  {
    && files.Keys == found.Keys
    && forall f :: f in files ==>
         files[f] == found[f].(mappings := files[f].mappings) && Cursor(ns, f) <= |files[f].spelled|
  }

  lemma AppendShape(found: map<FileId, MarkedFile>, files: map<FileId, MarkedFile>, ns: map<FileId, nat>,
                    f: FileId, extra: seq<Mapping>, next: nat)
    requires Shape(found, files, ns) && f in files
    requires next <= |files[f].spelled|
    ensures Shape(found, files[f := files[f].(mappings := files[f].mappings + extra)], ns[f := next])
  {
  }

  lemma FileWeaken(seen: MarkedFile, file: MarkedFile, cursor: nat, bound: nat, bound': nat)
    requires FileSettled(seen, file, cursor, bound) && bound <= bound'
    ensures FileSettled(seen, file, cursor, bound')
  {
  }

  lemma SettledWeaken(found: map<FileId, MarkedFile>, files: map<FileId, MarkedFile>, ns: map<FileId, nat>,
                      bound: nat, bound': nat)
    requires Settled(found, files, ns, bound) && bound <= bound'
    ensures Settled(found, files, ns, bound')
  {
    forall f | f in files
      ensures FileSettled(found[f], files[f], Cursor(ns, f), bound')
    {
      FileWeaken(found[f], files[f], Cursor(ns, f), bound, bound');
    }
  }

  lemma SettledShape(found: map<FileId, MarkedFile>, files: map<FileId, MarkedFile>, ns: map<FileId, nat>, bound: nat)
    requires Settled(found, files, ns, bound)
    ensures Shape(found, files, ns)
  {
    forall f | f in files
      ensures files[f] == found[f].(mappings := files[f].mappings) && Cursor(ns, f) <= |files[f].spelled|
    {
      assert FileSettled(found[f], files[f], Cursor(ns, f), bound);
    }
  }

  /** Records appended at the cursor, in order after the last one, keep a file settled. */
  lemma FileAppend(seen: MarkedFile, file: MarkedFile, cursor: nat, bound: nat,
                   extra: seq<Mapping>, next: nat, bound': nat)
    requires FileSettled(seen, file, cursor, bound)
    requires bound <= bound'
    requires cursor <= next <= |file.spelled|
    requires Ordered(extra)
    requires forall k :: 0 <= k < |extra| ==>
               extra[k].endSpelled <= next && seen.beginExpanded <= extra[k].beginExpanded &&
               extra[k].endExpanded <= bound'
    requires |extra| > 0 ==> cursor <= extra[0].beginSpelled
    requires |extra| > 0 && |file.mappings| > 0 ==>
               file.mappings[|file.mappings| - 1].endExpanded <= extra[0].beginExpanded
    ensures FileSettled(seen, file.(mappings := file.mappings + extra), next, bound')
  {
    var ms := file.mappings;
    OrderedAppend(ms, extra);
    forall k | 0 <= k < |ms + extra|
      ensures (ms + extra)[k].endSpelled <= next
      ensures seen.beginExpanded <= (ms + extra)[k].beginExpanded
      ensures (ms + extra)[k].endExpanded <= bound'
    {
      if k < |ms| {
        assert (ms + extra)[k] == ms[k];
      } else {
        assert (ms + extra)[k] == extra[k - |ms|];
      }
    }
  }

  /** Appending to one file keeps the whole state settled. */
  lemma AppendKeeps(found: map<FileId, MarkedFile>, files: map<FileId, MarkedFile>, ns: map<FileId, nat>, bound: nat,
                    f: FileId, extra: seq<Mapping>, next: nat, bound': nat)
    requires Settled(found, files, ns, bound) && f in files
    requires bound <= bound'
    requires Cursor(ns, f) <= next <= |files[f].spelled|
    requires Ordered(extra)
    requires forall k :: 0 <= k < |extra| ==>
               extra[k].endSpelled <= next && found[f].beginExpanded <= extra[k].beginExpanded &&
               extra[k].endExpanded <= bound'
    requires |extra| > 0 ==> Cursor(ns, f) <= extra[0].beginSpelled
    requires |extra| > 0 && |files[f].mappings| > 0 ==>
               files[f].mappings[|files[f].mappings| - 1].endExpanded <= extra[0].beginExpanded
    ensures Settled(found, files[f := files[f].(mappings := files[f].mappings + extra)], ns[f := next], bound')
  {
    var files' := files[f := files[f].(mappings := files[f].mappings + extra)];
    var ns' := ns[f := next];
    forall g | g in files'
      ensures FileSettled(found[g], files'[g], Cursor(ns', g), bound')
    {
      if g == f {
        assert Cursor(ns', f) == next;
        FileAppend(found[f], files[f], Cursor(ns, f), bound, extra, next, bound');
      } else {
        assert files'[g] == files[g] && Cursor(ns', g) == Cursor(ns, g);
        FileWeaken(found[g], files[g], Cursor(ns, g), bound, bound');
      }
    }
    assert files'.Keys == found.Keys;
  }

  /** Every record lies inside its file's expanded slice. */
  ghost predicate InSlice(files: map<FileId, MarkedFile>)
  {
    forall f :: f in files ==>
      forall k :: 0 <= k < |files[f].mappings| ==> files[f].mappings[k].endExpanded <= files[f].endExpanded
  }

  lemma AppendInSlice(files: map<FileId, MarkedFile>, f: FileId, extra: seq<Mapping>)
    requires InSlice(files) && f in files
    requires forall k :: 0 <= k < |extra| ==> extra[k].endExpanded <= files[f].endExpanded
    ensures InSlice(files[f := files[f].(mappings := files[f].mappings + extra)])
  {
    var ms := files[f].mappings;
    forall k | 0 <= k < |ms + extra|
      ensures (ms + extra)[k].endExpanded <= files[f].endExpanded
    {
      if k < |ms| {
        assert (ms + extra)[k] == ms[k];
      } else {
        assert (ms + extra)[k] == extra[k - |ms|];
      }
    }
  }

  /** Every expanded token's file was discovered, with its slice. */
  ghost predicate Located(expanded: seq<Token>, found: map<FileId, MarkedFile>)
  {
    && (forall i :: 0 <= i < |expanded| ==> FileOf(expanded[i].loc) in found)
    && (forall f :: f in found ==> SliceOf(expanded, |expanded|, f, found[f]))
  }

  /** The expanded token at `ne` lies in its file's slice, strictly inside it when the sentinel stands apart. */
  lemma SliceBounds(expanded: seq<Token>, found: map<FileId, MarkedFile>, ne: nat)
    requires Located(expanded, found) && ne < |expanded| - 1
    ensures FileOf(expanded[ne].loc) in found
    ensures found[FileOf(expanded[ne].loc)].beginExpanded <= ne
    ensures SentinelApart(expanded) ==> ne < found[FileOf(expanded[ne].loc)].endExpanded
  {
    var f := FileOf(expanded[ne].loc);
    assert SliceOf(expanded, |expanded|, f, found[f]);
  }

  /** A macro run that starts before the sentinel ends inside its file's slice when the sentinel stands apart. */
  lemma MacroRunInSlice(expanded: seq<Token>, found: map<FileId, MarkedFile>, ne: nat, e: nat)
    requires Located(expanded, found) && SentinelApart(expanded)
    requires ne < |expanded| - 1 && ne < e <= |expanded|
    requires forall k :: ne <= k < e ==> ExpansionLoc(expanded[k].loc) == ExpansionLoc(expanded[ne].loc)
    ensures e <= found[FileOf(expanded[ne].loc)].endExpanded
  {
    var f := FileOf(expanded[ne].loc);
    var last := e - 1;
    assert ExpansionLoc(expanded[last].loc) == ExpansionLoc(expanded[ne].loc);
    assert last < |expanded| - 1;
    assert FileOf(expanded[last].loc) == f;
    assert SliceOf(expanded, |expanded|, f, found[f]);
  }

  // ---------------------------------------------------------------------------
  // Coverage of the expanded stream.

  /** The lexer's output: every spelled token sits at a file location. */
  ghost predicate Lexed(src: Sources)
  {
    forall f, j :: 0 <= j < |src.Tokenize(f)| ==> src.Tokenize(f)[j].loc.FileLoc?
  }

  /** Every discovered file's spelled tokens sit at file locations. */
  ghost predicate SpelledAtFiles(found: map<FileId, MarkedFile>)
  {
    forall f, j :: f in found && 0 <= j < |found[f].spelled| ==> found[f].spelled[j].loc.FileLoc?
  }

  /**
   * `m` holds one whole macro expansion: it opens with a macro token whose
   * expansion was captured, and holds exactly the maximal run of expanded
   * tokens rooted at that token's expansion location.
   */
  ghost predicate MacroRecord(expanded: seq<Token>, expansions: map<FilePos, FilePos>, m: Mapping)
  {
    && m.beginExpanded < m.endExpanded <= |expanded|
    && expanded[m.beginExpanded].loc.MacroLoc?
    && ExpansionLoc(expanded[m.beginExpanded].loc) in expansions
    && (forall k :: m.beginExpanded <= k < m.endExpanded ==>
          ExpansionLoc(expanded[k].loc) == ExpansionLoc(expanded[m.beginExpanded].loc))
    && (m.endExpanded == |expanded| ||
        ExpansionLoc(expanded[m.endExpanded].loc) != ExpansionLoc(expanded[m.beginExpanded].loc))
  }

  /** Every record is empty on the expanded side or holds one whole macro expansion. */
  ghost predicate Records(expanded: seq<Token>, expansions: map<FilePos, FilePos>, files: map<FileId, MarkedFile>)
  {
    forall f, k :: f in files && 0 <= k < |files[f].mappings| ==>
      files[f].mappings[k].beginExpanded == files[f].mappings[k].endExpanded ||
      MacroRecord(expanded, expansions, files[f].mappings[k])
  }

  /** Expanded token `i` lies in a record of its own file. */
  ghost predicate Recorded(expanded: seq<Token>, files: map<FileId, MarkedFile>, i: nat)
    requires i < |expanded|
  {
    var f := FileOf(expanded[i].loc);
    f in files && exists k :: 0 <= k < |files[f].mappings| && InExpanded(files[f].mappings[k], i)
  }

  /** Every macro token before `n` lies in a record of its own file. */
  ghost predicate Consumed(expanded: seq<Token>, files: map<FileId, MarkedFile>, n: nat)
  {
    forall i :: 0 <= i < n && i < |expanded| && expanded[i].loc.MacroLoc? ==> Recorded(expanded, files, i)
  }

  /** `files'` is `files` with records appended at the ends, none holding an expanded token. */
  ghost predicate Extends(files: map<FileId, MarkedFile>, files': map<FileId, MarkedFile>)
  {
    && files'.Keys == files.Keys
    && forall f :: f in files ==>
         var was := files[f].mappings;
         var now := files'[f].mappings;
         && |was| <= |now|
         && now[..|was|] == was
         && forall k :: |was| <= k < |now| ==> now[k].beginExpanded == now[k].endExpanded
  }

  lemma ExtendsSame(files: map<FileId, MarkedFile>)
    ensures Extends(files, files)
  {
    forall f | f in files
      ensures files[f].mappings[..|files[f].mappings|] == files[f].mappings
    {
    }
  }

  lemma ExtendsTrans(a: map<FileId, MarkedFile>, b: map<FileId, MarkedFile>, c: map<FileId, MarkedFile>)
    requires Extends(a, b) && Extends(b, c)
    ensures Extends(a, c)
  {
    forall f | f in a
      ensures c[f].mappings[..|a[f].mappings|] == a[f].mappings
    {
      var x, y, z := a[f].mappings, b[f].mappings, c[f].mappings;
      assert z[..|x|] == z[..|y|][..|x|];
    }
  }

  lemma ExtendsAppend(files: map<FileId, MarkedFile>, f: FileId, empties: seq<Mapping>)
    requires f in files
    requires forall k :: 0 <= k < |empties| ==> empties[k].beginExpanded == empties[k].endExpanded
    ensures Extends(files, files[f := files[f].(mappings := files[f].mappings + empties)])
  {
    var files' := files[f := files[f].(mappings := files[f].mappings + empties)];
    forall g | g in files
      ensures files'[g].mappings[..|files[g].mappings|] == files[g].mappings
      ensures forall k :: |files[g].mappings| <= k < |files'[g].mappings| ==>
                files'[g].mappings[k].beginExpanded == files'[g].mappings[k].endExpanded
    {
      if g == f {
        var ms := files[f].mappings;
        assert files'[g].mappings == ms + empties;
        assert forall k :: |ms| <= k < |ms + empties| ==> (ms + empties)[k] == empties[k - |ms|];
      }
    }
  }

  /** Appending empty records keeps every record classified and every consumed macro token recorded. */
  lemma ExtendsKeeps(expanded: seq<Token>, expansions: map<FilePos, FilePos>,
                     files: map<FileId, MarkedFile>, files': map<FileId, MarkedFile>, n: nat)
    requires Extends(files, files')
    requires Records(expanded, expansions, files) && Consumed(expanded, files, n)
    ensures Records(expanded, expansions, files') && Consumed(expanded, files', n)
  {
    forall f, k | f in files' && 0 <= k < |files'[f].mappings|
      ensures files'[f].mappings[k].beginExpanded == files'[f].mappings[k].endExpanded ||
              MacroRecord(expanded, expansions, files'[f].mappings[k])
    {
      var ms := files[f].mappings;
      if k < |ms| {
        assert files'[f].mappings[k] == files'[f].mappings[..|ms|][k];
      }
    }
    forall i | 0 <= i < n && i < |expanded| && expanded[i].loc.MacroLoc?
      ensures Recorded(expanded, files', i)
    {
      var f := FileOf(expanded[i].loc);
      assert Recorded(expanded, files, i);
      var k :| 0 <= k < |files[f].mappings| && InExpanded(files[f].mappings[k], i);
      assert files'[f].mappings[k] == files'[f].mappings[..|files[f].mappings|][k];
    }
  }

  /** A run of file tokens holds no macro token, so nothing new needs a record. */
  lemma FileRunConsumed(expanded: seq<Token>, files: map<FileId, MarkedFile>, ne: nat,
                        spelled: seq<Token>, ns: nat, st: Step)
    requires ne <= st.nextExpanded <= |expanded| && ns <= st.nextSpelled <= |spelled|
    requires forall j :: 0 <= j < |spelled| ==> spelled[j].loc.FileLoc?
    requires FileRun(expanded, ne, spelled, ns, st)
    requires Consumed(expanded, files, ne)
    ensures Consumed(expanded, files, st.nextExpanded)
  {
    forall i | ne <= i < st.nextExpanded
      ensures expanded[i].loc.FileLoc?
    {
      assert spelled[ns + (i - ne)].loc == expanded[i].loc;
    }
  }

  /** The record of a macro run holds one whole expansion and records every token of the run. */
  lemma MacroRunConsumed(expanded: seq<Token>, expansions: map<FilePos, FilePos>, files: map<FileId, MarkedFile>,
                         ne: nat, spelled: seq<Token>, ns: nat, st: Step)
    requires ne < |expanded| && expanded[ne].loc.MacroLoc? && ExpansionLoc(expanded[ne].loc) in expansions
    requires ne <= st.nextExpanded <= |expanded| && ns <= st.nextSpelled <= |spelled|
    requires MacroRun(expanded, ne, spelled, ns, expansions[ExpansionLoc(expanded[ne].loc)], st)
    requires FileOf(expanded[ne].loc) in files
    requires Records(expanded, expansions, files) && Consumed(expanded, files, ne)
    ensures var f := FileOf(expanded[ne].loc);
            var files' := files[f := files[f].(mappings := files[f].mappings + [st.mapping.value])];
            Records(expanded, expansions, files') && Consumed(expanded, files', st.nextExpanded)
  {
    var f := FileOf(expanded[ne].loc);
    var m := st.mapping.value;
    var ms := files[f].mappings;
    var files' := files[f := files[f].(mappings := ms + [m])];
    assert MacroRecord(expanded, expansions, m);
    assert forall k :: 0 <= k < |ms| ==> (ms + [m])[k] == ms[k];
    assert (ms + [m])[|ms|] == m;
    forall i | 0 <= i < st.nextExpanded && expanded[i].loc.MacroLoc?
      ensures Recorded(expanded, files', i)
    {
      if i < ne {
        assert Recorded(expanded, files, i);
        var g := FileOf(expanded[i].loc);
        var k :| 0 <= k < |files[g].mappings| && InExpanded(files[g].mappings[k], i);
        assert InExpanded(files'[g].mappings[k], i);
      } else {
        assert ExpansionLoc(expanded[i].loc) == ExpansionLoc(expanded[ne].loc);
        assert InExpanded(files'[f].mappings[|ms|], i);
      }
    }
  }

  /** The record of one advance step, if any, keeps the state settled and inside the slices. */
  lemma AdvanceSettles(expanded: seq<Token>, found: map<FileId, MarkedFile>, files: map<FileId, MarkedFile>,
                       ns: map<FileId, nat>, ne: nat, f: FileId, step: Step, extra: seq<Mapping>)
    requires ne < |expanded| - 1 && f == FileOf(expanded[ne].loc)
    requires Located(expanded, found)
    requires Settled(found, files, ns, ne) && f in files
    requires SentinelApart(expanded) ==> InSlice(files)
    requires ne < step.nextExpanded <= |expanded| && Cursor(ns, f) <= step.nextSpelled <= |files[f].spelled|
    requires step.mapping.Some? ==>
               && step.mapping.value == Mapping(Cursor(ns, f), step.nextSpelled, ne, step.nextExpanded)
               && forall k :: ne <= k < step.nextExpanded ==>
                    ExpansionLoc(expanded[k].loc) == ExpansionLoc(expanded[ne].loc)
    requires extra == if step.mapping.Some? then [step.mapping.value] else []
    ensures Settled(found, files[f := files[f].(mappings := files[f].mappings + extra)], ns[f := step.nextSpelled],
                    step.nextExpanded)
  {
    if step.mapping.Some? {
      var m := step.mapping.value;
      SliceBounds(expanded, found, ne);
      assert FileSettled(found[f], files[f], Cursor(ns, f), ne);
      assert extra == [m] && Ordered(extra);
      assert m.endSpelled <= step.nextSpelled && found[f].beginExpanded <= m.beginExpanded;
      AppendKeeps(found, files, ns, ne, f, extra, step.nextSpelled, step.nextExpanded);
    } else {
      assert extra == [];
      AppendKeeps(found, files, ns, ne, f, [], step.nextSpelled, step.nextExpanded);
    }
  }

  /** With the sentinel apart, the record of a macro run stays inside its file's slice. */
  lemma AdvanceInSlice(expanded: seq<Token>, found: map<FileId, MarkedFile>, files: map<FileId, MarkedFile>,
                       ns: map<FileId, nat>, ne: nat, f: FileId, step: Step, extra: seq<Mapping>)
    requires ne < |expanded| - 1 && f == FileOf(expanded[ne].loc)
    requires Located(expanded, found)
    requires Settled(found, files, ns, ne) && f in files
    requires SentinelApart(expanded) && InSlice(files)
    requires ne < step.nextExpanded <= |expanded| && Cursor(ns, f) <= step.nextSpelled <= |files[f].spelled|
    requires step.mapping.Some? ==>
               && step.mapping.value == Mapping(Cursor(ns, f), step.nextSpelled, ne, step.nextExpanded)
               && forall k :: ne <= k < step.nextExpanded ==>
                    ExpansionLoc(expanded[k].loc) == ExpansionLoc(expanded[ne].loc)
    requires extra == if step.mapping.Some? then [step.mapping.value] else []
    ensures InSlice(files[f := files[f].(mappings := files[f].mappings + extra)])
  {
    assert FileSettled(found[f], files[f], Cursor(ns, f), ne);
    if step.mapping.Some? {
      MacroRunInSlice(expanded, found, ne, step.nextExpanded);
    }
    AppendInSlice(files, f, extra);
  }

  /** One advance step, file run or macro run, keeps every record classified and records every macro token it passes. */
  lemma AdvanceConsumed(expanded: seq<Token>, expansions: map<FilePos, FilePos>, files: map<FileId, MarkedFile>,
                        ne: nat, f: FileId, ns: nat, step: Step, extra: seq<Mapping>)
    requires ne < |expanded| && f == FileOf(expanded[ne].loc) && f in files
    requires forall j :: 0 <= j < |files[f].spelled| ==> files[f].spelled[j].loc.FileLoc?
    requires ne <= step.nextExpanded <= |expanded| && ns <= step.nextSpelled <= |files[f].spelled|
    requires expanded[ne].loc.FileLoc? ==> FileRun(expanded, ne, files[f].spelled, ns, step)
    requires expanded[ne].loc.MacroLoc? ==>
               && ExpansionLoc(expanded[ne].loc) in expansions
               && MacroRun(expanded, ne, files[f].spelled, ns, expansions[ExpansionLoc(expanded[ne].loc)], step)
    requires extra == if step.mapping.Some? then [step.mapping.value] else []
    requires Records(expanded, expansions, files) && Consumed(expanded, files, ne)
    ensures var files' := files[f := files[f].(mappings := files[f].mappings + extra)];
            Records(expanded, expansions, files') && Consumed(expanded, files', step.nextExpanded)
  {
    var files' := files[f := files[f].(mappings := files[f].mappings + extra)];
    if expanded[ne].loc.FileLoc? {
      ExtendsAppend(files, f, extra);
      ExtendsKeeps(expanded, expansions, files, files', ne);
      FileRunConsumed(expanded, files', ne, files[f].spelled, ns, step);
    } else {
      MacroRunConsumed(expanded, expansions, files, ne, files[f].spelled, ns, step);
    }
  }

  /** A settled file keeps the spelled tokens discovery gave it. */
  lemma SettledSpelled(found: map<FileId, MarkedFile>, files: map<FileId, MarkedFile>, ns: map<FileId, nat>,
                       bound: nat, f: FileId)
    requires Settled(found, files, ns, bound) && f in files
    ensures f in found && files[f].spelled == found[f].spelled
  {
    assert FileSettled(found[f], files[f], Cursor(ns, f), bound);
  }

  /** The cursors and records in the middle of a build. */
  datatype State = State(files: map<FileId, MarkedFile>, ns: map<FileId, nat>, ne: nat)

  /**
   * File `f` of `files` gained exactly the records `emitted` and its cursor
   * moved to where they end; no other file and no other cursor changed. The
   * records are what discard emits at `at` for the skipped tokens, stopping
   * before `target`.
   */
  ghost predicate DiscardedInto(expansions: map<FilePos, FilePos>, files: map<FileId, MarkedFile>, ns: map<FileId, nat>,
                                f: FileId, emitted: seq<Mapping>, files': map<FileId, MarkedFile>, ns': map<FileId, nat>,
                                target: FilePos, at: nat)
  {
    && f in files
    && files' == files[f := files[f].(mappings := files[f].mappings + emitted)]
    && ns' == ns[f := Cursor(ns', f)]
    && Emitted(files[f].spelled, expansions, emitted, Cursor(ns, f), Cursor(ns', f), at)
    && Halts(files[f].spelled, expansions, emitted, target)
  }

  /**
   * The first half of a round: in the file of the expanded token at the
   * cursor, discards the spelled tokens before that token's expansion
   * location, appending empty records at the cursor.
   */
  method DiscardStep(expanded: seq<Token>, expansions: map<FilePos, FilePos>, found: map<FileId, MarkedFile>, st: State)
    returns (r: State, emitted: seq<Mapping>)
    requires st.ne < |expanded| - 1
    requires Located(expanded, found) && Forward(expansions)
    requires Settled(found, st.files, st.ns, st.ne)
    requires SentinelApart(expanded) ==> InSlice(st.files)
    ensures r.ne == st.ne
    ensures DiscardedInto(expansions, st.files, st.ns, FileOf(expanded[st.ne].loc), emitted, r.files, r.ns,
                          ExpansionLoc(expanded[st.ne].loc), st.ne)
    ensures Settled(found, r.files, r.ns, r.ne)
    ensures SentinelApart(expanded) ==> InSlice(r.files)
    ensures Extends(st.files, r.files)
    ensures var f := FileOf(expanded[st.ne].loc);
            var c := Cursor(r.ns, f);
            c == |r.files[f].spelled| || !RawBefore(r.files[f].spelled[c].loc.pos, ExpansionLoc(expanded[st.ne].loc))
  {
    SliceBounds(expanded, found, st.ne);
    var f := FileOf(expanded[st.ne].loc);
    var files, ns := st.files, st.ns;
    var next;
    next, emitted := Discard(files[f].spelled, expansions, Cursor(ns, f), ExpansionLoc(expanded[st.ne].loc), st.ne);
    EmittedOrdered(files[f].spelled, expansions, emitted, Cursor(ns, f), next, st.ne);
    AppendKeeps(found, files, ns, st.ne, f, emitted, next, st.ne);
    if SentinelApart(expanded) {
      AppendInSlice(files, f, emitted);
    }
    ExtendsAppend(files, f, emitted);
    r := State(files[f := files[f].(mappings := files[f].mappings + emitted)], ns[f := next], st.ne);
    assert Cursor(r.ns, f) == next;
  }

  /**
   * The run at the expanded cursor cannot be consumed: a file token whose
   * file's spelled cursor is at the end or at a token of another location,
   * or a macro token whose expansion was never captured.
   */
  ghost predicate Stuck(expanded: seq<Token>, expansions: map<FilePos, FilePos>, st: State)
    requires st.ne < |expanded|
  {
    var f := FileOf(expanded[st.ne].loc);
    var c := Cursor(st.ns, f);
    || (&& expanded[st.ne].loc.FileLoc?
        && f in st.files
        && (c >= |st.files[f].spelled| || st.files[f].spelled[c].loc != expanded[st.ne].loc))
    || (expanded[st.ne].loc.MacroLoc? && ExpansionLoc(expanded[st.ne].loc) !in expansions)
  }

  /**
   * `r` is `st` after one advance over the run at the expanded cursor: only
   * the cursors and records of that run's file change. A file run moves both
   * cursors in lockstep over equal locations and adds no record; a macro run
   * adds the one record of its whole expansion.
   */
  ghost predicate Advanced(expanded: seq<Token>, expansions: map<FilePos, FilePos>, st: State, r: State)
    requires st.ne < |expanded|
  {
    var f := FileOf(expanded[st.ne].loc);
    && f in st.files
    && var spelled := st.files[f].spelled;
       var c := Cursor(st.ns, f);
       var n := Cursor(r.ns, f);
       && st.ne <= r.ne <= |expanded| && c <= n <= |spelled|
       && r.ns == st.ns[f := n]
       && (expanded[st.ne].loc.FileLoc? ==>
             r.files == st.files && FileRun(expanded, st.ne, spelled, c, Step(r.ne, n, None)))
       && (expanded[st.ne].loc.MacroLoc? ==>
             && ExpansionLoc(expanded[st.ne].loc) in expansions
             && r.files == st.files[f := st.files[f].(mappings := st.files[f].mappings + [Mapping(c, n, st.ne, r.ne)])]
             && MacroRun(expanded, st.ne, spelled, c, expansions[ExpansionLoc(expanded[st.ne].loc)],
                         Step(r.ne, n, Some(Mapping(c, n, st.ne, r.ne)))))
  }

  /**
   * The second half of a round: advances over the run that starts at the
   * cursor, appending a record when it is a macro expansion. Fails exactly
   * when the run is stuck: the expansion was not captured, or the cursor
   * would not move.
   */
  method AdvanceStep(expanded: seq<Token>, expansions: map<FilePos, FilePos>, found: map<FileId, MarkedFile>, st: State)
    returns (r: Result<State, BuildError>)
    requires st.ne < |expanded| - 1
    requires Located(expanded, found)
    requires Settled(found, st.files, st.ns, st.ne)
    requires SentinelApart(expanded) ==> InSlice(st.files)
    requires SpelledAtFiles(found)
    requires Records(expanded, expansions, st.files) && Consumed(expanded, st.files, st.ne)
    ensures r.Failure? <==> Stuck(expanded, expansions, st)
    ensures r.Success? ==> st.ne < r.value.ne <= |expanded| && Advanced(expanded, expansions, st, r.value)
    ensures r.Success? ==> Settled(found, r.value.files, r.value.ns, r.value.ne)
    ensures r.Success? && SentinelApart(expanded) ==> InSlice(r.value.files)
    ensures r.Success? ==>
              Records(expanded, expansions, r.value.files) && Consumed(expanded, r.value.files, r.value.ne)
    ensures r.Failure? ==> r.error.index == st.ne
    ensures r.Failure? && r.error.AdvanceFailure? ==> expanded[st.ne].loc.FileLoc?
    ensures r.Failure? && r.error.UncapturedExpansion? ==>
              expanded[st.ne].loc.MacroLoc? && ExpansionLoc(expanded[st.ne].loc) !in expansions
  {
    SliceBounds(expanded, found, st.ne);
    var f := FileOf(expanded[st.ne].loc);
    var files, ns, ne := st.files, st.ns, st.ne;
    var res := Advance(expanded, ne, files[f].spelled, Cursor(ns, f), expansions);
    if res.Failure? {
      return Failure(res.error);
    }
    var step := res.value;
    if step.nextExpanded == ne {
      StuckFileRun(expanded, ne, files[f].spelled, Cursor(ns, f), step);
      return Failure(AdvanceFailure(ne));
    }
    var extra: seq<Mapping> := if step.mapping.Some? then [step.mapping.value] else [];
    AdvanceKeeps(expanded, expansions, found, st, f, step, extra);
    r := Success(State(files[f := files[f].(mappings := files[f].mappings + extra)], ns[f := step.nextSpelled],
                       step.nextExpanded));
  }

  /** A run that moved the expanded cursor leaves a state that keeps every property of the build. */
  lemma AdvanceKeeps(expanded: seq<Token>, expansions: map<FilePos, FilePos>, found: map<FileId, MarkedFile>,
                     st: State, f: FileId, step: Step, extra: seq<Mapping>)
    requires st.ne < |expanded| - 1 && f == FileOf(expanded[st.ne].loc)
    requires Located(expanded, found)
    requires Settled(found, st.files, st.ns, st.ne) && f in st.files
    requires SentinelApart(expanded) ==> InSlice(st.files)
    requires SpelledAtFiles(found)
    requires Records(expanded, expansions, st.files) && Consumed(expanded, st.files, st.ne)
    requires st.ne < step.nextExpanded <= |expanded| && Cursor(st.ns, f) <= step.nextSpelled <= |st.files[f].spelled|
    requires expanded[st.ne].loc.FileLoc? ==> FileRun(expanded, st.ne, st.files[f].spelled, Cursor(st.ns, f), step)
    requires expanded[st.ne].loc.MacroLoc? ==>
               && ExpansionLoc(expanded[st.ne].loc) in expansions
               && MacroRun(expanded, st.ne, st.files[f].spelled, Cursor(st.ns, f),
                           expansions[ExpansionLoc(expanded[st.ne].loc)], step)
    requires extra == if step.mapping.Some? then [step.mapping.value] else []
    ensures var r := State(st.files[f := st.files[f].(mappings := st.files[f].mappings + extra)],
                           st.ns[f := step.nextSpelled], step.nextExpanded);
            && !Stuck(expanded, expansions, st)
            && Advanced(expanded, expansions, st, r)
            && Settled(found, r.files, r.ns, r.ne)
            && (SentinelApart(expanded) ==> InSlice(r.files))
            && Records(expanded, expansions, r.files) && Consumed(expanded, r.files, r.ne)
  {
    UnstuckRun(expanded, expansions, st, step);
    AdvanceSettles(expanded, found, st.files, st.ns, st.ne, f, step, extra);
    if SentinelApart(expanded) {
      AdvanceInSlice(expanded, found, st.files, st.ns, st.ne, f, step, extra);
    }
    SettledSpelled(found, st.files, st.ns, st.ne, f);
    AdvanceConsumed(expanded, expansions, st.files, st.ne, f, Cursor(st.ns, f), step, extra);
    StepAdvanced(expanded, expansions, st, f, step, extra);
  }

  /** The state after one successful advance step is `st` advanced over the step's run. */
  lemma StepAdvanced(expanded: seq<Token>, expansions: map<FilePos, FilePos>, st: State, f: FileId, step: Step,
                     extra: seq<Mapping>)
    requires st.ne < |expanded| && f == FileOf(expanded[st.ne].loc) && f in st.files
    requires st.ne < step.nextExpanded <= |expanded| && Cursor(st.ns, f) <= step.nextSpelled <= |st.files[f].spelled|
    requires expanded[st.ne].loc.FileLoc? ==> FileRun(expanded, st.ne, st.files[f].spelled, Cursor(st.ns, f), step)
    requires expanded[st.ne].loc.MacroLoc? ==>
               && ExpansionLoc(expanded[st.ne].loc) in expansions
               && MacroRun(expanded, st.ne, st.files[f].spelled, Cursor(st.ns, f),
                           expansions[ExpansionLoc(expanded[st.ne].loc)], step)
    requires extra == if step.mapping.Some? then [step.mapping.value] else []
    ensures Advanced(expanded, expansions, st,
                     State(st.files[f := st.files[f].(mappings := st.files[f].mappings + extra)],
                           st.ns[f := step.nextSpelled], step.nextExpanded))
  {
    var files' := st.files[f := st.files[f].(mappings := st.files[f].mappings + extra)];
    var ns' := st.ns[f := step.nextSpelled];
    assert Cursor(ns', f) == step.nextSpelled;
    if expanded[st.ne].loc.FileLoc? {
      assert st.files[f].mappings + extra == st.files[f].mappings;
      assert files' == st.files;
      assert step == Step(step.nextExpanded, step.nextSpelled, None);
    } else {
      assert step.mapping == Some(Mapping(Cursor(st.ns, f), step.nextSpelled, st.ne, step.nextExpanded));
    }
  }

  /** A file run that does not move the expanded cursor stopped at once: the spelled cursor is at the end or at another location. */
  lemma StuckFileRun(expanded: seq<Token>, ne: nat, spelled: seq<Token>, ns: nat, st: Step)
    requires ne < |expanded| && ne <= st.nextExpanded <= |expanded| && ns <= st.nextSpelled <= |spelled|
    requires FileRun(expanded, ne, spelled, ns, st) && st.nextExpanded == ne
    ensures ns >= |spelled| || spelled[ns].loc != expanded[ne].loc
  {
  }

  /** A run that moved the expanded cursor was not stuck. */
  lemma UnstuckRun(expanded: seq<Token>, expansions: map<FilePos, FilePos>, st: State, step: Step)
    requires st.ne < |expanded| && FileOf(expanded[st.ne].loc) in st.files
    requires var f := FileOf(expanded[st.ne].loc);
             st.ne < step.nextExpanded <= |expanded| && Cursor(st.ns, f) <= step.nextSpelled <= |st.files[f].spelled|
    requires var f := FileOf(expanded[st.ne].loc);
             expanded[st.ne].loc.FileLoc? ==> FileRun(expanded, st.ne, st.files[f].spelled, Cursor(st.ns, f), step)
    requires expanded[st.ne].loc.MacroLoc? ==> ExpansionLoc(expanded[st.ne].loc) in expansions
    ensures !Stuck(expanded, expansions, st)
  {
    var f := FileOf(expanded[st.ne].loc);
    if expanded[st.ne].loc.FileLoc? {
      var c := Cursor(st.ns, f);
      assert st.files[f].spelled[c + (st.ne - st.ne)].loc == expanded[st.ne].loc;
    }
  }

  /** Every discovered slice is an interval that ends by `bound`. */
  ghost predicate Spans(found: map<FileId, MarkedFile>, bound: nat)
  {
    forall f :: f in found ==> found[f].beginExpanded <= found[f].endExpanded <= bound
  }

  lemma LocatedSpans(expanded: seq<Token>, found: map<FileId, MarkedFile>)
    requires Located(expanded, found)
    ensures Spans(found, |expanded|)
  {
    forall f | f in found
      ensures found[f].beginExpanded <= found[f].endExpanded <= |expanded|
    {
      assert SliceOf(expanded, |expanded|, f, found[f]);
    }
  }

  /** Empty records appended at the end of a file's slice keep the state settled and every record inside its slice. */
  lemma DrainKeeps(spelled: seq<Token>, expansions: map<FilePos, FilePos>, found: map<FileId, MarkedFile>,
                   files: map<FileId, MarkedFile>, ns: map<FileId, nat>, bound: nat,
                   f: FileId, empties: seq<Mapping>, next: nat)
    requires Spans(found, bound) && Settled(found, files, ns, bound) && InSlice(files) && f in files
    requires spelled == files[f].spelled && Cursor(ns, f) <= next <= |spelled|
    requires Emitted(spelled, expansions, empties, Cursor(ns, f), next, files[f].endExpanded)
    ensures Settled(found, files[f := files[f].(mappings := files[f].mappings + empties)], ns[f := next], bound)
    ensures InSlice(files[f := files[f].(mappings := files[f].mappings + empties)])
  {
    EmittedOrdered(spelled, expansions, empties, Cursor(ns, f), next, files[f].endExpanded);
    assert FileSettled(found[f], files[f], Cursor(ns, f), bound);
    AppendKeeps(found, files, ns, bound, f, empties, next, bound);
    AppendInSlice(files, f, empties);
  }

  /** The cursor has passed every spelled token before `end`. */
  ghost predicate Drained(spelled: seq<Token>, cursor: nat, end: FilePos)
  {
    cursor <= |spelled| && (cursor == |spelled| || !RawBefore(spelled[cursor].loc.pos, end))
  }

  /** Every file of `fs` has been drained to its end. */
  ghost predicate DrainedAll(src: Sources, files: map<FileId, MarkedFile>, ns: map<FileId, nat>, fs: seq<FileId>)
  {
    forall j :: 0 <= j < |fs| ==>
      fs[j] in files && Drained(files[fs[j]].spelled, Cursor(ns, fs[j]), FilePos(fs[j], src.size(fs[j])))
  }

  /** Draining file `f` leaves the files drained before it drained. */
  lemma DrainedMore(src: Sources, files: map<FileId, MarkedFile>, ns: map<FileId, nat>,
                    files': map<FileId, MarkedFile>, ns': map<FileId, nat>, f: FileId, done: seq<FileId>)
    requires DrainedAll(src, files, ns, done) && f !in done && f in files'
    requires forall g :: g in files && g != f ==> g in files' && files'[g] == files[g] && Cursor(ns', g) == Cursor(ns, g)
    requires Drained(files'[f].spelled, Cursor(ns', f), FilePos(f, src.size(f)))
    ensures DrainedAll(src, files', ns', done + [f])
  {
    var fs := done + [f];
    forall j | 0 <= j < |fs|
      ensures fs[j] in files' && Drained(files'[fs[j]].spelled, Cursor(ns', fs[j]), FilePos(fs[j], src.size(fs[j])))
    {
      if j < |done| {
        assert fs[j] == done[j];
      }
    }
  }

  /** Drain's loop state: the discovered shape, settled records when the sentinel stands apart, and only empty records added since `start`. */
  ghost predicate Draining(found: map<FileId, MarkedFile>, files: map<FileId, MarkedFile>, ns: map<FileId, nat>,
                           apart: bool, bound: nat, start: map<FileId, MarkedFile>)
  {
    && Shape(found, files, ns)
    && (apart ==> Spans(found, bound) && Settled(found, files, ns, bound) && InSlice(files))
    && Extends(start, files)
  }

  /** Every file drained in `fs` order is a file of the state, and so every file is drained. */
  lemma DrainedEvery(src: Sources, files: map<FileId, MarkedFile>, ns: map<FileId, nat>, order: seq<FileId>)
    requires DrainedAll(src, files, ns, order)
    requires forall f :: f in files ==> f in order
    ensures forall f :: f in files ==> Drained(files[f].spelled, Cursor(ns, f), FilePos(f, src.size(f)))
  {
    forall f | f in files
      ensures Drained(files[f].spelled, Cursor(ns, f), FilePos(f, src.size(f)))
    {
      var j :| 0 <= j < |order| && order[j] == f;
    }
  }

  /** The empty records discard emits at the end of file `f`'s slice keep drain's loop state and drain `f`. */
  lemma DrainFileKeeps(expansions: map<FilePos, FilePos>, src: Sources, found: map<FileId, MarkedFile>,
                       files: map<FileId, MarkedFile>, ns: map<FileId, nat>, f: FileId, apart: bool, bound: nat,
                       start: map<FileId, MarkedFile>, done: seq<FileId>, next: nat, empties: seq<Mapping>)
    requires f in files && f !in done
    requires Draining(found, files, ns, apart, bound, start) && DrainedAll(src, files, ns, done)
    requires Cursor(ns, f) <= next <= |files[f].spelled|
    requires Drained(files[f].spelled, next, FilePos(f, src.size(f)))
    requires Emitted(files[f].spelled, expansions, empties, Cursor(ns, f), next, files[f].endExpanded)
    ensures var files' := files[f := files[f].(mappings := files[f].mappings + empties)];
            var ns' := ns[f := next];
            Draining(found, files', ns', apart, bound, start) && DrainedAll(src, files', ns', done + [f])
  {
    var files' := files[f := files[f].(mappings := files[f].mappings + empties)];
    EmittedOrdered(files[f].spelled, expansions, empties, Cursor(ns, f), next, files[f].endExpanded);
    ExtendsAppend(files, f, empties);
    ExtendsTrans(start, files, files');
    if apart {
      DrainKeeps(files[f].spelled, expansions, found, files, ns, bound, f, empties, next);
    }
    AppendShape(found, files, ns, f, empties, next);
    DrainedMore(src, files, ns, files', ns[f := next], f, done);
  }

  /** Discards the spelled tokens of file `f` left after the last expanded token, with empty records at the end of its slice. */
  method DrainFile(expansions: map<FilePos, FilePos>, src: Sources, found: map<FileId, MarkedFile>,
                   files: map<FileId, MarkedFile>, ns: map<FileId, nat>, f: FileId, ghost apart: bool, ghost bound: nat,
                   ghost start: map<FileId, MarkedFile>, ghost done: seq<FileId>)
    returns (files': map<FileId, MarkedFile>, ns': map<FileId, nat>, emitted: seq<Mapping>)
    requires Forward(expansions) && f in files && f !in done
    requires Draining(found, files, ns, apart, bound, start) && DrainedAll(src, files, ns, done)
    ensures DiscardedInto(expansions, files, ns, f, emitted, files', ns', FilePos(f, src.size(f)), files[f].endExpanded)
    ensures Draining(found, files', ns', apart, bound, start) && DrainedAll(src, files', ns', done + [f])
  {
    var next;
    next, emitted := Discard(files[f].spelled, expansions, Cursor(ns, f), FilePos(f, src.size(f)),
                             files[f].endExpanded);
    DrainFileKeeps(expansions, src, found, files, ns, f, apart, bound, start, done, next, emitted);
    files' := files[f := files[f].(mappings := files[f].mappings + emitted)];
    ns' := ns[f := next];
    assert Cursor(ns', f) == next;
  }

  /**
   * File `f` went from `was` to `now` by a drain: only records were added,
   * and they are what discard emits at the end of the file's slice for the
   * tokens from `from` up to `to`, stopping before the end of the file.
   */
  ghost predicate DrainedFrom(expansions: map<FilePos, FilePos>, src: Sources, f: FileId, was: MarkedFile,
                              now: MarkedFile, from: nat, to: nat)
  {
    && now == was.(mappings := now.mappings)
    && |was.mappings| <= |now.mappings|
    && now.mappings[..|was.mappings|] == was.mappings
    && Emitted(was.spelled, expansions, now.mappings[|was.mappings|..], from, to, was.endExpanded)
    && Halts(was.spelled, expansions, now.mappings[|was.mappings|..], FilePos(f, src.size(f)))
  }

  /** Drain's progress: the files of `done` are drained from `st`, every other file is as in `st`. */
  ghost predicate DrainProgress(expansions: map<FilePos, FilePos>, src: Sources, st: State,
                                files: map<FileId, MarkedFile>, ns: map<FileId, nat>, done: seq<FileId>)
  {
    forall f :: f in st.files ==>
      && f in files
      && (f in done ==> DrainedFrom(expansions, src, f, st.files[f], files[f], Cursor(st.ns, f), Cursor(ns, f)))
      && (f !in done ==> files[f] == st.files[f] && Cursor(ns, f) == Cursor(st.ns, f))
  }

  lemma DrainProgressStart(expansions: map<FilePos, FilePos>, src: Sources, st: State)
    ensures DrainProgress(expansions, src, st, st.files, st.ns, [])
  {
  }

  /** Draining one more file, not drained before, extends drain's progress by that file. */
  lemma DrainProgressStep(expansions: map<FilePos, FilePos>, src: Sources, st: State,
                          files: map<FileId, MarkedFile>, ns: map<FileId, nat>, done: seq<FileId>,
                          f: FileId, emitted: seq<Mapping>, files': map<FileId, MarkedFile>, ns': map<FileId, nat>)
    requires DrainProgress(expansions, src, st, files, ns, done) && f !in done && f in st.files
    requires DiscardedInto(expansions, files, ns, f, emitted, files', ns', FilePos(f, src.size(f)), files[f].endExpanded)
    ensures DrainProgress(expansions, src, st, files', ns', done + [f])
  {
    var was := st.files[f];
    var now := files'[f];
    assert files[f] == was && Cursor(ns, f) == Cursor(st.ns, f);
    assert now.mappings == was.mappings + emitted;
    assert now.mappings[..|was.mappings|] == was.mappings;
    assert now.mappings[|was.mappings|..] == emitted;
    assert DrainedFrom(expansions, src, f, was, now, Cursor(st.ns, f), Cursor(ns', f));
    forall g | g in st.files && g != f
      ensures g in files' && files'[g] == files[g] && Cursor(ns', g) == Cursor(ns, g)
      ensures g in done + [f] <==> g in done
    {
    }
  }

  /** Drain's loop state after the files of `done`. */
  ghost predicate DrainLoop(expansions: map<FilePos, FilePos>, src: Sources, found: map<FileId, MarkedFile>, st: State,
                            files: map<FileId, MarkedFile>, ns: map<FileId, nat>, apart: bool, bound: nat,
                            done: seq<FileId>)
  {
    && Draining(found, files, ns, apart, bound, st.files)
    && DrainedAll(src, files, ns, done)
    && DrainProgress(expansions, src, st, files, ns, done)
  }

  /** Drains the files of `order` one after the other. */
  method DrainEach(expansions: map<FilePos, FilePos>, src: Sources, found: map<FileId, MarkedFile>, order: seq<FileId>,
                   st: State, ghost apart: bool, ghost bound: nat)
    returns (files: map<FileId, MarkedFile>, ns: map<FileId, nat>)
    requires Forward(expansions)
    requires forall f :: f in order ==> f in st.files
    requires forall i, j :: 0 <= i < j < |order| ==> order[i] != order[j]
    requires Draining(found, st.files, st.ns, apart, bound, st.files)
    ensures DrainLoop(expansions, src, found, st, files, ns, apart, bound, order)
  {
    files, ns := st.files, st.ns;
    DrainProgressStart(expansions, src, st);
    var i := 0;
    while i < |order|
      invariant 0 <= i <= |order|
      invariant DrainLoop(expansions, src, found, st, files, ns, apart, bound, order[..i])
    {
      PrefixStep(order, i);
      var files', ns', emitted := DrainFile(expansions, src, found, files, ns, order[i], apart, bound, st.files, order[..i]);
      DrainProgressStep(expansions, src, st, files, ns, order[..i], order[i], emitted, files', ns');
      files, ns := files', ns';
      i := i + 1;
    }
    assert order[..i] == order;
  }

  /** The next element of a sequence without repeats is not in the prefix before it, and extends that prefix by one. */
  lemma PrefixStep(order: seq<FileId>, i: nat)
    requires i < |order|
    requires forall i, j :: 0 <= i < j < |order| ==> order[i] != order[j]
    ensures order[i] !in order[..i]
    ensures order[..i + 1] == order[..i] + [order[i]]
  {
  }

  /** Discards, in every file, the spelled tokens left after the last expanded token: they expanded to nothing. */
  method Drain(expansions: map<FilePos, FilePos>, src: Sources, found: map<FileId, MarkedFile>, order: seq<FileId>,
               st: State, ghost apart: bool, ghost bound: nat)
    returns (files: map<FileId, MarkedFile>, ns: map<FileId, nat>)
    requires Forward(expansions)
    requires forall f :: f in found <==> f in order
    requires forall i, j :: 0 <= i < j < |order| ==> order[i] != order[j]
    requires Shape(found, st.files, st.ns)
    requires apart ==> Spans(found, bound) && Settled(found, st.files, st.ns, bound) && InSlice(st.files)
    ensures Shape(found, files, ns)
    ensures apart ==> Settled(found, files, ns, bound) && InSlice(files)
    ensures forall f :: f in files ==> Drained(files[f].spelled, Cursor(ns, f), FilePos(f, src.size(f)))
    ensures forall f :: f in st.files ==>
              f in files && DrainedFrom(expansions, src, f, st.files[f], files[f], Cursor(st.ns, f), Cursor(ns, f))
    ensures Extends(st.files, files)
  {
    ExtendsSame(st.files);
    files, ns := DrainEach(expansions, src, found, order, st, apart, bound);
    DrainedEvery(src, files, ns, order);
    DrainProgressAll(expansions, src, found, order, st, files, ns);
  }

  /** Once every file of `order` is drained, every file of the state is. */
  lemma DrainProgressAll(expansions: map<FilePos, FilePos>, src: Sources, found: map<FileId, MarkedFile>,
                         order: seq<FileId>, st: State, files: map<FileId, MarkedFile>, ns: map<FileId, nat>)
    requires forall f :: f in found <==> f in order
    requires Shape(found, st.files, st.ns)
    requires DrainProgress(expansions, src, st, files, ns, order)
    ensures forall f :: f in st.files ==>
              f in files && DrainedFrom(expansions, src, f, st.files[f], files[f], Cursor(st.ns, f), Cursor(ns, f))
  {
  }

  /** Settled records inside their slices make a well-formed buffer. */
  lemma SettledWellFormed(expanded: seq<Token>, found: map<FileId, MarkedFile>, files: map<FileId, MarkedFile>,
                          ns: map<FileId, nat>, bound: nat)
    requires Located(expanded, found)
    requires Settled(found, files, ns, bound) && InSlice(files)
    ensures WellFormed(TokenBuffer(expanded, files))
  {
    forall f | f in files
      ensures WellFormedFile(files[f]) && files[f].endExpanded <= |expanded|
    {
      assert SliceOf(expanded, |expanded|, f, found[f]);
      assert FileSettled(found[f], files[f], Cursor(ns, f), bound);
    }
  }

  /** Discovery locates every expanded token, and a state with no records yet is settled. */
  lemma DiscoveredStart(expanded: seq<Token>, src: Sources, found: map<FileId, MarkedFile>, order: seq<FileId>)
    requires Discovered(expanded, |expanded|, src, found, order)
    ensures Located(expanded, found)
    ensures Settled(found, found, map[], 0)
  {
    assert Sighted(expanded, |expanded|, found) && Sliced(expanded, |expanded|, src, found);
    forall f | f in found
      ensures FileSettled(found[f], found[f], Cursor(map[], f), 0)
    {
      assert found[f].mappings == [];
    }
  }

  /** Discovery yields files of spelled tokens and no records, so nothing is left to classify or record yet. */
  lemma DiscoveredCovers(expanded: seq<Token>, expansions: map<FilePos, FilePos>, src: Sources,
                         found: map<FileId, MarkedFile>, order: seq<FileId>)
    requires Discovered(expanded, |expanded|, src, found, order) && Lexed(src)
    ensures SpelledAtFiles(found)
    ensures Records(expanded, expansions, found) && Consumed(expanded, found, 0)
  {
  }

  /** Files that differ from the discovered ones only in their records keep their spelled tokens and slices. */
  lemma DiscoveredKept(expanded: seq<Token>, src: Sources, found: map<FileId, MarkedFile>, order: seq<FileId>,
                       files: map<FileId, MarkedFile>, ns: map<FileId, nat>)
    requires Discovered(expanded, |expanded|, src, found, order)
    requires Shape(found, files, ns)
    ensures forall i :: 0 <= i < |expanded| ==> FileOf(expanded[i].loc) in files
    ensures forall f :: f in files ==>
              files[f].spelled == src.Tokenize(f) && SliceOf(expanded, |expanded|, f, files[f])
  {
    assert Sighted(expanded, |expanded|, found) && Sliced(expanded, |expanded|, src, found);
    forall f | f in files
      ensures files[f].spelled == src.Tokenize(f) && SliceOf(expanded, |expanded|, f, files[f])
    {
      SliceOfRecords(expanded, |expanded|, f, found[f], files[f]);
    }
  }

  /** A file's slice does not depend on its records. */
  lemma SliceOfRecords(expanded: seq<Token>, n: nat, f: FileId, mf: MarkedFile, mf': MarkedFile)
    requires n <= |expanded| && SliceOf(expanded, n, f, mf)
    requires mf' == mf.(mappings := mf'.mappings)
    ensures SliceOf(expanded, n, f, mf') && mf'.spelled == mf.spelled
  {
  }

  // ---------------------------------------------------------------------------
  // Coverage of the spelled tokens.

  /** Spelled token `j` was copied to the expanded stream: some expanded token has its location. */
  ghost predicate Copied(expanded: seq<Token>, spelled: seq<Token>, j: nat)
    requires j < |spelled|
  {
    exists i :: 0 <= i < |expanded| && expanded[i].loc == spelled[j].loc
  }

  /** Spelled token `j` of `mf` lies in one of its records or was copied to the expanded stream. */
  ghost predicate Accounted(expanded: seq<Token>, mf: MarkedFile, j: nat)
    requires j < |mf.spelled|
  {
    SpelledCovered(mf.mappings, j) || Copied(expanded, mf.spelled, j)
  }

  /** Every spelled token behind its file's cursor is accounted for. */
  ghost predicate Covered(expanded: seq<Token>, files: map<FileId, MarkedFile>, ns: map<FileId, nat>)
  {
    forall f, j :: f in files && 0 <= j < Cursor(ns, f) && j < |files[f].spelled| ==> Accounted(expanded, files[f], j)
  }

  /** Every lexed token lies in its own file, before the file's end. */
  ghost predicate WithinFiles(src: Sources)
  {
    forall f, j :: 0 <= j < |src.Tokenize(f)| ==>
      src.Tokenize(f)[j].loc.pos.file == f && src.Tokenize(f)[j].loc.pos.offset < src.size(f)
  }

  /** Appending records keeps every token an old record held, and adds every token a new one holds. */
  lemma CoveredAppend(ms: seq<Mapping>, extra: seq<Mapping>, j: nat)
    ensures SpelledCovered(ms, j) ==> SpelledCovered(ms + extra, j)
    ensures SpelledCovered(extra, j) ==> SpelledCovered(ms + extra, j)
  {
    if SpelledCovered(ms, j) {
      var k :| 0 <= k < |ms| && SpelledIn(ms[k], j);
      assert (ms + extra)[k] == ms[k];
    }
    if SpelledCovered(extra, j) {
      var k :| 0 <= k < |extra| && SpelledIn(extra[k], j);
      assert (ms + extra)[|ms| + k] == extra[k];
    }
  }

  /** Discard accounts for every token it skips, and changes no other file. */
  lemma CoveredDiscard(expanded: seq<Token>, expansions: map<FilePos, FilePos>, files: map<FileId, MarkedFile>,
                       ns: map<FileId, nat>, f: FileId, emitted: seq<Mapping>, files': map<FileId, MarkedFile>,
                       ns': map<FileId, nat>, target: FilePos, at: nat)
    requires Covered(expanded, files, ns)
    requires DiscardedInto(expansions, files, ns, f, emitted, files', ns', target, at)
    ensures Covered(expanded, files', ns')
  {
    var ms := files[f].mappings;
    var c := Cursor(ns, f);
    EmittedPartitions(files[f].spelled, expansions, emitted, c, Cursor(ns', f), at);
    forall g, j | g in files' && 0 <= j < Cursor(ns', g) && j < |files'[g].spelled|
      ensures Accounted(expanded, files'[g], j)
    {
      if g == f {
        CoveredAppend(ms, emitted, j);
        if j < c {
          assert Accounted(expanded, files[f], j);
        } else {
          assert SpelledCovered(emitted, j);
        }
      } else {
        assert files'[g] == files[g] && Cursor(ns', g) == Cursor(ns, g);
      }
    }
  }

  /** An advance accounts for every spelled token it passes: a file run copies them, a macro run records them. */
  lemma CoveredAdvance(expanded: seq<Token>, expansions: map<FilePos, FilePos>, st: State, r: State)
    requires st.ne < |expanded|
    requires Covered(expanded, st.files, st.ns) && Advanced(expanded, expansions, st, r)
    ensures Covered(expanded, r.files, r.ns)
  {
    var f := FileOf(expanded[st.ne].loc);
    var ms := st.files[f].mappings;
    var spelled := st.files[f].spelled;
    var c := Cursor(st.ns, f);
    var n := Cursor(r.ns, f);
    forall g, j | g in r.files && 0 <= j < Cursor(r.ns, g) && j < |r.files[g].spelled|
      ensures Accounted(expanded, r.files[g], j)
    {
      if g != f {
        assert r.files[g] == st.files[g] && Cursor(r.ns, g) == Cursor(st.ns, g);
      } else if expanded[st.ne].loc.FileLoc? {
        if j >= c {
          var i := st.ne + (j - c);
          assert spelled[c + (i - st.ne)].loc == expanded[i].loc;
          assert Copied(expanded, spelled, j);
        } else {
          assert Accounted(expanded, st.files[f], j);
        }
      } else {
        var m := Mapping(c, n, st.ne, r.ne);
        CoveredAppend(ms, [m], j);
        if j >= c {
          assert SpelledIn([m][0], j);
        } else {
          assert Accounted(expanded, st.files[f], j);
        }
      }
    }
  }

  /** Draining accounts for every token it skips. */
  lemma CoveredDrained(expanded: seq<Token>, expansions: map<FilePos, FilePos>, src: Sources, st: State,
                       files: map<FileId, MarkedFile>, ns: map<FileId, nat>)
    requires Covered(expanded, st.files, st.ns) && files.Keys == st.files.Keys
    requires forall f :: f in st.files ==>
               f in files && DrainedFrom(expansions, src, f, st.files[f], files[f], Cursor(st.ns, f), Cursor(ns, f))
    ensures Covered(expanded, files, ns)
  {
    forall f, j | f in files && 0 <= j < Cursor(ns, f) && j < |files[f].spelled|
      ensures Accounted(expanded, files[f], j)
    {
      var was := st.files[f];
      var ms := was.mappings;
      var extra := files[f].mappings[|ms|..];
      assert DrainedFrom(expansions, src, f, was, files[f], Cursor(st.ns, f), Cursor(ns, f));
      assert files[f].mappings == ms + extra;
      EmittedPartitions(was.spelled, expansions, extra, Cursor(st.ns, f), Cursor(ns, f), was.endExpanded);
      CoveredAppend(ms, extra, j);
      if j < Cursor(st.ns, f) {
        assert Accounted(expanded, was, j);
      } else {
        assert SpelledCovered(extra, j);
      }
    }
  }

  /** With every lexed token inside its file, a file drained to its end has its cursor at its last token. */
  lemma CoveredAll(expanded: seq<Token>, src: Sources, files: map<FileId, MarkedFile>, ns: map<FileId, nat>)
    requires WithinFiles(src) && Covered(expanded, files, ns)
    requires forall f :: f in files ==> files[f].spelled == src.Tokenize(f)
    requires forall f :: f in files ==> Drained(files[f].spelled, Cursor(ns, f), FilePos(f, src.size(f)))
    ensures forall f, j :: f in files && 0 <= j < |files[f].spelled| ==> Accounted(expanded, files[f], j)
  {
    forall f | f in files
      ensures Cursor(ns, f) == |files[f].spelled|
    {
      var c := Cursor(ns, f);
      if c < |files[f].spelled| {
        assert src.Tokenize(f)[c].loc.pos.file == f && src.Tokenize(f)[c].loc.pos.offset < src.size(f);
      }
    }
  }

  // ---------------------------------------------------------------------------
  // A file copied through unchanged.

  /**
   * The expanded stream, its end-of-input token aside, is exactly file
   * `f`'s spelled tokens, location for location: a file with no macro and
   * nothing skipped.
   */
  ghost predicate CopiesFile(expanded: seq<Token>, src: Sources, f: FileId)
  {
    && |expanded| > 1
    && |expanded| - 1 == |src.Tokenize(f)|
    && forall i :: 0 <= i < |expanded| - 1 ==>
         expanded[i].loc == src.Tokenize(f)[i].loc && FileOf(expanded[i].loc) == f
  }

  /** Building such a stream so far: `f` has no records and its cursor keeps pace with the expanded cursor. */
  ghost predicate Copying(src: Sources, f: FileId, st: State)
  {
    && f in st.files
    && st.files[f].spelled == src.Tokenize(f)
    && st.files[f].mappings == []
    && Cursor(st.ns, f) == st.ne
  }

  lemma CopyingStart(expanded: seq<Token>, src: Sources, found: map<FileId, MarkedFile>, order: seq<FileId>, f: FileId)
    requires Discovered(expanded, |expanded|, src, found, order)
    ensures CopiesFile(expanded, src, f) ==> Copying(src, f, State(found, map[], 0))
  {
    if CopiesFile(expanded, src, f) {
      assert FileOf(expanded[0].loc) == f;
    }
  }

  /** Discard skips nothing when the file's cursor is already at the next expanded token. */
  lemma CopyingDiscard(expanded: seq<Token>, expansions: map<FilePos, FilePos>, src: Sources, f: FileId,
                       st: State, emitted: seq<Mapping>, r: State)
    requires st.ne < |expanded| - 1 && r.ne == st.ne
    requires DiscardedInto(expansions, st.files, st.ns, FileOf(expanded[st.ne].loc), emitted, r.files, r.ns,
                           ExpansionLoc(expanded[st.ne].loc), st.ne)
    requires CopiesFile(expanded, src, f) ==> Copying(src, f, st)
    ensures CopiesFile(expanded, src, f) ==> Copying(src, f, r)
  {
    if CopiesFile(expanded, src, f) {
      var spelled := st.files[f].spelled;
      var c := Cursor(st.ns, f);
      assert FileOf(expanded[st.ne].loc) == f;
      assert spelled[c].loc == expanded[st.ne].loc;
      assert emitted == [];
      assert st.files[f].mappings + emitted == [];
    }
  }

  /** The file run at the cursor runs to the end of the file's spelled tokens. */
  lemma CopyingAdvance(expanded: seq<Token>, expansions: map<FilePos, FilePos>, src: Sources, f: FileId,
                       st: State, r: State)
    requires Lexed(src)
    requires st.ne < |expanded| - 1 && Advanced(expanded, expansions, st, r)
    requires CopiesFile(expanded, src, f) ==> Copying(src, f, st)
    ensures CopiesFile(expanded, src, f) ==> Copying(src, f, r)
  {
    if CopiesFile(expanded, src, f) {
      assert FileOf(expanded[st.ne].loc) == f;
      assert src.Tokenize(f)[st.ne].loc.FileLoc?;
    }
  }

  /** The run at the cursor is never stuck while the stream copies the file. */
  lemma CopiedNotStuck(expanded: seq<Token>, expansions: map<FilePos, FilePos>, src: Sources, f: FileId, st: State)
    requires Lexed(src)
    requires st.ne < |expanded| - 1
    requires CopiesFile(expanded, src, f) ==> Copying(src, f, st)
    ensures CopiesFile(expanded, src, f) ==> !Stuck(expanded, expansions, st)
  {
    if CopiesFile(expanded, src, f) {
      assert FileOf(expanded[st.ne].loc) == f;
      assert src.Tokenize(f)[st.ne].loc.FileLoc?;
    }
  }

  /** A drained copied file got no records: its cursor was already at its end. */
  lemma CopiedDrained(expanded: seq<Token>, expansions: map<FilePos, FilePos>, src: Sources, f: FileId, st: State,
                      files: map<FileId, MarkedFile>, ns: map<FileId, nat>)
    requires |expanded| - 1 <= st.ne
    requires CopiesFile(expanded, src, f) ==> Copying(src, f, st) && Cursor(st.ns, f) <= |st.files[f].spelled|
    requires f in st.files ==>
               f in files && DrainedFrom(expansions, src, f, st.files[f], files[f], Cursor(st.ns, f), Cursor(ns, f))
    ensures CopiesFile(expanded, src, f) ==> f in files && files[f].mappings == []
  {
    if CopiesFile(expanded, src, f) {
      var extra := files[f].mappings[|st.files[f].mappings|..];
      assert files[f].mappings == extra;
    }
  }

  // ---------------------------------------------------------------------------
  // The rounds and the build.

  /** What holds between rounds. */
  ghost predicate Round(expanded: seq<Token>, expansions: map<FilePos, FilePos>, src: Sources,
                        found: map<FileId, MarkedFile>, st: State)
  {
    && st.ne <= |expanded|
    && Settled(found, st.files, st.ns, st.ne)
    && (SentinelApart(expanded) ==> InSlice(st.files))
    && Records(expanded, expansions, st.files) && Consumed(expanded, st.files, st.ne)
    && Covered(expanded, st.files, st.ns)
    && (forall f :: CopiesFile(expanded, src, f) ==> Copying(src, f, st))
  }

  /** Discovery's files, with no records and every cursor at the start, are where the rounds begin. */
  lemma RoundStart(expanded: seq<Token>, expansions: map<FilePos, FilePos>, src: Sources,
                   found: map<FileId, MarkedFile>, order: seq<FileId>)
    requires Discovered(expanded, |expanded|, src, found, order) && Lexed(src)
    ensures Located(expanded, found) && SpelledAtFiles(found)
    ensures Round(expanded, expansions, src, found, State(found, map[], 0))
  {
    DiscoveredStart(expanded, src, found, order);
    DiscoveredCovers(expanded, expansions, src, found, order);
    forall f | CopiesFile(expanded, src, f)
      ensures Copying(src, f, State(found, map[], 0))
    {
      CopyingStart(expanded, src, found, order, f);
    }
  }

  /**
   * Runs rounds of discard and advance until the expanded cursor reaches
   * the end-of-input token. Fails exactly where an advance is stuck.
   */
  method Rounds(expanded: seq<Token>, expansions: map<FilePos, FilePos>, src: Sources,
                found: map<FileId, MarkedFile>, order: seq<FileId>)
    returns (r: Result<State, BuildError>)
    requires |expanded| > 0 && Forward(expansions) && Lexed(src)
    requires Discovered(expanded, |expanded|, src, found, order)
    ensures r.Success? ==> |expanded| - 1 <= r.value.ne && Round(expanded, expansions, src, found, r.value)
    ensures r.Failure? ==> r.error.index < |expanded| - 1
    ensures r.Failure? && r.error.AdvanceFailure? ==> expanded[r.error.index].loc.FileLoc?
    ensures r.Failure? && r.error.UncapturedExpansion? ==>
              expanded[r.error.index].loc.MacroLoc? &&
              ExpansionLoc(expanded[r.error.index].loc) !in expansions
    ensures r.Failure? ==> forall f :: !CopiesFile(expanded, src, f)
  {
    RoundStart(expanded, expansions, src, found, order);
    var st := State(found, map[], 0);
    while st.ne < |expanded| - 1
      invariant Round(expanded, expansions, src, found, st)
      decreases |expanded| - st.ne
    {
      var mid, emitted := DiscardStep(expanded, expansions, found, st);
      DiscardRound(expanded, expansions, src, found, st, emitted, mid);
      var res := AdvanceStep(expanded, expansions, found, mid);
      if res.Failure? {
        forall f
          ensures !CopiesFile(expanded, src, f)
        {
          CopiedNotStuck(expanded, expansions, src, f, mid);
        }
        return Failure(res.error);
      }
      AdvanceRound(expanded, expansions, src, found, mid, res.value);
      st := res.value;
    }
    r := Success(st);
  }

  /** A discard step keeps what holds between rounds. */
  lemma DiscardRound(expanded: seq<Token>, expansions: map<FilePos, FilePos>, src: Sources,
                     found: map<FileId, MarkedFile>, st: State, emitted: seq<Mapping>, r: State)
    requires st.ne < |expanded| - 1 && r.ne == st.ne
    requires Round(expanded, expansions, src, found, st)
    requires DiscardedInto(expansions, st.files, st.ns, FileOf(expanded[st.ne].loc), emitted, r.files, r.ns,
                           ExpansionLoc(expanded[st.ne].loc), st.ne)
    requires Settled(found, r.files, r.ns, r.ne) && (SentinelApart(expanded) ==> InSlice(r.files))
    requires Extends(st.files, r.files)
    ensures Round(expanded, expansions, src, found, r)
  {
    ExtendsKeeps(expanded, expansions, st.files, r.files, st.ne);
    CoveredDiscard(expanded, expansions, st.files, st.ns, FileOf(expanded[st.ne].loc), emitted, r.files, r.ns,
                   ExpansionLoc(expanded[st.ne].loc), st.ne);
    forall f | CopiesFile(expanded, src, f)
      ensures Copying(src, f, r)
    {
      CopyingDiscard(expanded, expansions, src, f, st, emitted, r);
    }
  }

  /** An advance step keeps what holds between rounds. */
  lemma AdvanceRound(expanded: seq<Token>, expansions: map<FilePos, FilePos>, src: Sources,
                     found: map<FileId, MarkedFile>, st: State, r: State)
    requires Lexed(src)
    requires st.ne < |expanded| - 1 && st.ne < r.ne <= |expanded|
    requires Round(expanded, expansions, src, found, st) && Advanced(expanded, expansions, st, r)
    requires Settled(found, r.files, r.ns, r.ne) && (SentinelApart(expanded) ==> InSlice(r.files))
    requires Records(expanded, expansions, r.files) && Consumed(expanded, r.files, r.ne)
    ensures Round(expanded, expansions, src, found, r)
  {
    CoveredAdvance(expanded, expansions, st, r);
    forall f | CopiesFile(expanded, src, f)
      ensures Copying(src, f, r)
    {
      CopyingAdvance(expanded, expansions, src, f, st, r);
    }
  }

  /**
   * Builds the token buffer. The expanded stream must be non-empty and end
   * in the end-of-input token. Rounds run until the expanded cursor reaches
   * the end-of-input token; then every file is drained.
   */
  method Build(expanded: seq<Token>, expansions: map<FilePos, FilePos>, src: Sources)
    returns (r: Result<TokenBuffer, BuildError>)
    requires |expanded| > 0 && expanded[|expanded| - 1].kind == Eof
    requires Forward(expansions)
    requires Lexed(src)
    ensures r.Success? ==> r.value.expanded == expanded
    ensures r.Success? ==> forall i :: 0 <= i < |expanded| ==> FileOf(expanded[i].loc) in r.value.files
    ensures r.Success? ==>
              forall f :: f in r.value.files ==>
                && r.value.files[f].spelled == src.Tokenize(f)
                && SliceOf(expanded, |expanded|, f, r.value.files[f])
    ensures r.Success? && SentinelApart(expanded) ==> WellFormed(r.value)
    ensures r.Success? ==> Records(expanded, expansions, r.value.files)
    ensures r.Success? ==> Consumed(expanded, r.value.files, |expanded| - 1)
    ensures r.Success? && WithinFiles(src) ==>
              forall f, j :: f in r.value.files && 0 <= j < |r.value.files[f].spelled| ==>
                Accounted(expanded, r.value.files[f], j)
    ensures forall f :: CopiesFile(expanded, src, f) ==>
              r.Success? && f in r.value.files && r.value.files[f].mappings == []
    ensures r.Failure? ==> r.error.index < |expanded| - 1
    ensures r.Failure? && r.error.AdvanceFailure? ==> expanded[r.error.index].loc.FileLoc?
    ensures r.Failure? && r.error.UncapturedExpansion? ==>
              expanded[r.error.index].loc.MacroLoc? &&
              ExpansionLoc(expanded[r.error.index].loc) !in expansions
  {
    var found, order := BuildSpelledTokens(expanded, src);
    var res := Rounds(expanded, expansions, src, found, order);
    if res.Failure? {
      return Failure(res.error);
    }
    var st := res.value;
    ghost var apart := SentinelApart(expanded);
    DiscoveredStart(expanded, src, found, order);
    SettledWeaken(found, st.files, st.ns, st.ne, |expanded|);
    SettledShape(found, st.files, st.ns, |expanded|);
    LocatedSpans(expanded, found);
    var files, ns := Drain(expansions, src, found, order, st, apart, |expanded|);
    Finish(expanded, expansions, src, found, order, st, files, ns);
    if apart {
      SettledWellFormed(expanded, found, files, ns, |expanded|);
    }
    r := Success(TokenBuffer(expanded, files));
  }

  /** What the drained files give the built buffer. */
  lemma Finish(expanded: seq<Token>, expansions: map<FilePos, FilePos>, src: Sources, found: map<FileId, MarkedFile>,
               order: seq<FileId>, st: State, files: map<FileId, MarkedFile>, ns: map<FileId, nat>)
    requires |expanded| > 0
    requires Discovered(expanded, |expanded|, src, found, order)
    requires |expanded| - 1 <= st.ne && Round(expanded, expansions, src, found, st)
    requires Shape(found, files, ns) && Extends(st.files, files)
    requires forall f :: f in files ==> Drained(files[f].spelled, Cursor(ns, f), FilePos(f, src.size(f)))
    requires forall f :: f in st.files ==>
               f in files && DrainedFrom(expansions, src, f, st.files[f], files[f], Cursor(st.ns, f), Cursor(ns, f))
    ensures forall i :: 0 <= i < |expanded| ==> FileOf(expanded[i].loc) in files
    ensures forall f :: f in files ==>
              files[f].spelled == src.Tokenize(f) && SliceOf(expanded, |expanded|, f, files[f])
    ensures Records(expanded, expansions, files) && Consumed(expanded, files, |expanded| - 1)
    ensures WithinFiles(src) ==>
              forall f, j :: f in files && 0 <= j < |files[f].spelled| ==> Accounted(expanded, files[f], j)
    ensures forall f :: CopiesFile(expanded, src, f) ==> f in files && files[f].mappings == []
  {
    ExtendsKeeps(expanded, expansions, st.files, files, st.ne);
    DiscoveredKept(expanded, src, found, order, files, ns);
    assert files.Keys == st.files.Keys;
    CoveredDrained(expanded, expansions, src, st, files, ns);
    if WithinFiles(src) {
      CoveredAll(expanded, src, files, ns);
    }
    forall f | CopiesFile(expanded, src, f)
      ensures f in files && files[f].mappings == []
    {
      assert Copying(src, f, st);
      assert FileSettled(found[f], st.files[f], Cursor(st.ns, f), st.ne);
      CopiedDrained(expanded, expansions, src, f, st, files, ns);
    }
  }

  /**
   * In a built buffer every macro token before the end-of-input token lies
   * in exactly one record of its own file, and that record holds the whole
   * expansion it belongs to.
   */
  lemma MacroTokenInOneRecord(expansions: map<FilePos, FilePos>, buf: TokenBuffer, i: nat)
    requires WellFormed(buf) && Records(buf.expanded, expansions, buf.files)
    requires i + 1 < |buf.expanded| && buf.expanded[i].loc.MacroLoc?
    requires Consumed(buf.expanded, buf.files, |buf.expanded| - 1)
    ensures ExpansionLoc(buf.expanded[i].loc) in expansions
    ensures var f := FileOf(buf.expanded[i].loc);
            f in buf.files &&
            exists k :: 0 <= k < |buf.files[f].mappings| && InExpanded(buf.files[f].mappings[k], i) &&
                        MacroRecord(buf.expanded, expansions, buf.files[f].mappings[k])
    ensures var ms := buf.files[FileOf(buf.expanded[i].loc)].mappings;
            forall k, k' :: 0 <= k < |ms| && 0 <= k' < |ms| && InExpanded(ms[k], i) && InExpanded(ms[k'], i) ==> k == k'
  {
    var f := FileOf(buf.expanded[i].loc);
    assert Recorded(buf.expanded, buf.files, i);
    var ms := buf.files[f].mappings;
    var k :| 0 <= k < |ms| && InExpanded(ms[k], i);
    assert MacroRecord(buf.expanded, expansions, ms[k]);
    var m := ms[k];
    assert ExpansionLoc(buf.expanded[i].loc) == ExpansionLoc(buf.expanded[m.beginExpanded].loc);
    OrderedPairwise(ms);
  }

  /**
   * A file token written where a macro was invoked shares that expansion's
   * expansion location, so the expansion's record takes it in: a record
   * can hold file tokens, not only macro tokens.
   */
  lemma MacroRunAbsorbsFileToken(p: FilePos, id: nat, spelled: seq<Token>, ns: nat, end: FilePos, st: Step)
    requires var e := [Token(MacroLoc(id, p), 1, Identifier), Token(FileLoc(p), 1, Identifier)];
             ns <= st.nextSpelled <= |spelled| && st.nextExpanded <= |e| && MacroRun(e, 0, spelled, ns, end, st)
    ensures st.nextExpanded == 2
    ensures st.mapping.Some? && InExpanded(st.mapping.value, 1)
  {
  }

  /**
   * A file token whose position is not a captured expansion location lies
   * in no record: records with expanded tokens hold one macro expansion,
   * and every token in it has that expansion's location.
   */
  lemma FileTokenInNoRecord(expansions: map<FilePos, FilePos>, buf: TokenBuffer, i: nat)
    requires Records(buf.expanded, expansions, buf.files)
    requires i < |buf.expanded| && buf.expanded[i].loc.FileLoc? && buf.expanded[i].loc.pos !in expansions
    ensures forall f, k :: f in buf.files && 0 <= k < |buf.files[f].mappings| ==>
              !InExpanded(buf.files[f].mappings[k], i)
  {
  }

  /**
   * The round trip for a file copied through unchanged: in what the build
   * returns for it, each expanded token before the end-of-input token maps
   * back to the spelled token at the same index, which has its location.
   */
  lemma CopiedFileMapsToItself(expanded: seq<Token>, src: Sources, f: FileId, buf: TokenBuffer, i: nat)
    requires CopiesFile(expanded, src, f)
    requires buf.expanded == expanded && f in buf.files && buf.files[f].mappings == []
    requires buf.files[f].spelled == src.Tokenize(f) && SliceOf(expanded, |expanded|, f, buf.files[f])
    requires i < |expanded| - 1
    ensures Queries.SpelledForExpandedToken(buf, i) == Queries.SpelledHit(i, None)
    ensures buf.files[f].spelled[i].loc == expanded[i].loc
  {
    assert FileOf(expanded[0].loc) == f && FileOf(expanded[i].loc) == f;
    assert buf.files[f].beginExpanded == 0;
    Queries.SpelledForExpandedTokenIdentity(buf, i);
  }
}
